/** Reference-counted patching of http, https and fetch, and the events instrumented requests emit. */
module NetworkPatch {
  import opened Common

  /** What a global slot holds: the runtime's own function, one the application supplied, or a wrapper. */
  datatype Impl = Original | Given(f: nat) | Wrapped(inner: Impl)

  /** The three slots; the runtime may have no fetch. */
  datatype Slots = Slots(http: Impl, https: Impl, fetch: Option<Impl>)

  /** The shared patch state; `restore` puts `captured` back. */
  datatype Patch = Patch(count: nat, sinks: seq<nat>, captured: Slots)

  datatype Request = Request(url: nat, finished: bool)

  datatype PatchState = PatchState(
    slots: Slots, patch: Option<Patch>, nextSink: nat,
    requests: seq<Request>, emitted: seq<(nat, nat)>)

  function Fresh(hasFetch: bool): PatchState {
    PatchState(Slots(Original, Original, if hasFetch then Some(Original) else None), None, 0, [], [])
  }

  function Wrap(s: Slots): Slots {
    Slots(Wrapped(s.http), Wrapped(s.https), if s.fetch.Some? then Some(Wrapped(s.fetch.value)) else None)
  }

  datatype Input =
    | Attach(fetchImpl: Option<nat>)  // the application may supply a fetch of its own
    | Detach(sink: nat)
    | Start(url: nat)        // a request made while the wrapper is installed
    | Complete(req: nat)     // its response ended, or it failed

  /** What will be wrapped, and later restored: the supplied fetch goes before the global one. */
  function Base(s: Slots, fetchImpl: Option<nat>): Slots {
    s.(fetch := if fetchImpl.Some? then Some(Given(fetchImpl.value)) else s.fetch)
  }

  function Attached(s: PatchState, fetchImpl: Option<nat>): PatchState {
    var t := s.(nextSink := s.nextSink + 1);
    if s.patch.Some? then
      t.(patch := Some(s.patch.value.(count := s.patch.value.count + 1, sinks := s.patch.value.sinks + [s.nextSink])))
    else
      var base := Base(s.slots, fetchImpl);
      t.(slots := Wrap(base), patch := Some(Patch(1, [s.nextSink], base)))
  }

  function Detached(s: PatchState, sink: nat): PatchState {
    if s.patch.None? then s
    else
      var p := s.patch.value;
      var sinks := Filter(p.sinks, x => x != sink);
      var count := if p.count > 0 then p.count - 1 else 0;
      if count == 0 || sinks == [] then s.(slots := p.captured, patch := None)
      else s.(patch := Some(p.(count := count, sinks := sinks)))
  }

  function Sinks(s: PatchState): seq<nat> {
    if s.patch.Some? then s.patch.value.sinks else []
  }

  /** One event per sink attached now, except to a sink whose own bridge the request goes to. */
  function Dispatch(own: (nat, nat) -> bool, req: nat, url: nat, sinks: seq<nat>): seq<(nat, nat)> {
    if sinks == [] then []
    else
      var n := |sinks| - 1;
      Dispatch(own, req, url, sinks[..n]) + (if own(sinks[n], url) then [] else [(req, sinks[n])])
  }

  function Completed(s: PatchState, own: (nat, nat) -> bool, req: nat): PatchState {
    if req >= |s.requests| || s.requests[req].finished then s
    else
      s.(requests := s.requests[req := s.requests[req].(finished := true)],
         emitted := s.emitted + Dispatch(own, req, s.requests[req].url, Sinks(s)))
  }

  function Step(s: PatchState, own: (nat, nat) -> bool, i: Input): PatchState {
    match i
    case Attach(fetchImpl) => Attached(s, fetchImpl)
    case Detach(sink) => Detached(s, sink)
    case Start(url) => if s.patch.Some? then s.(requests := s.requests + [Request(url, false)]) else s
    case Complete(req) => Completed(s, own, req)
  }

  function Run(hasFetch: bool, own: (nat, nat) -> bool, es: seq<Input>): PatchState {
    if es == [] then Fresh(hasFetch) else Step(Run(hasFetch, own, es[..|es| - 1]), own, es[|es| - 1])
  }

  /* ---------- the mutable global state ---------- */

  class NodeNetwork {
    const own: (nat, nat) -> bool
    var slots: Slots
    var patch: Option<Patch>
    var nextSink: nat
    var requests: seq<Request>
    var emitted: seq<(nat, nat)>

    ghost function State(): PatchState
      reads this
    {
      PatchState(slots, patch, nextSink, requests, emitted)
    }

    constructor (own: (nat, nat) -> bool, hasFetch: bool)
      ensures State() == Fresh(hasFetch) && this.own == own
    {
      this.own := own;
      slots := Slots(Original, Original, if hasFetch then Some(Original) else None);
      patch, nextSink, requests, emitted := None, 0, [], [];
    }

    method Instrument(fetchImpl: Option<nat>) returns (sink: nat)
      modifies this
      ensures State() == Attached(old(State()), fetchImpl) && sink == old(nextSink)
    {
      sink := nextSink;
      nextSink := nextSink + 1;
      if patch.Some? {
        var p := patch.value;
        patch := Some(p.(count := p.count + 1, sinks := p.sinks + [sink]));
        return;
      }
      var originalFetch := if fetchImpl.Some? then Some(Given(fetchImpl.value)) else slots.fetch;
      var captured := slots.(fetch := originalFetch);
      slots := slots.(http := Wrapped(slots.http), https := Wrapped(slots.https));
      if originalFetch.Some? {
        slots := slots.(fetch := Some(Wrapped(originalFetch.value)));
      }
      patch := Some(Patch(1, [sink], captured));
    }

    method DetachSink(sink: nat)
      modifies this
      ensures State() == Detached(old(State()), sink)
    {
      if patch.None? {
        return;
      }
      var p := patch.value;
      var sinks := Filter(p.sinks, x => x != sink);
      var count := if p.count > 0 then p.count - 1 else 0;
      patch := Some(p.(count := count, sinks := sinks));
      if count == 0 || sinks == [] {
        slots := p.captured;
        patch := None;
      }
    }

    method OnEndOrError(req: nat)
      modifies this
      ensures State() == Completed(old(State()), own, req)
    {
      if req >= |requests| || requests[req].finished {
        return;
      }
      var url := requests[req].url;
      requests := requests[req := requests[req].(finished := true)];
      var sinks := if patch.Some? then patch.value.sinks else [];
      assert sinks[..0] == [];
      for i := 0 to |sinks|
        invariant State() == old(State()).(requests := requests, emitted := emitted)
        invariant requests == old(requests)[req := Request(url, true)]
        invariant emitted == old(emitted) + Dispatch(own, req, url, sinks[..i])
      {
        assert sinks[..i + 1][..i] == sinks[..i];
        if !own(sinks[i], url) {
          emitted := emitted + [(req, sinks[i])];
        }
      }
      assert sinks[..|sinks|] == sinks;
    }
  }

  /* ---------- patched exactly while somebody listens ---------- */

  /** The sinks attached and not detached since, in order. */
  function Live(es: seq<Input>): seq<nat> {
    if es == [] then []
    else
      var n := |es| - 1;
      match es[n]
      case Attach(_) => Live(es[..n]) + [Attaches(es[..n])]
      case Detach(sink) => Filter(Live(es[..n]), x => x != sink)
      case _ => Live(es[..n])
  }

  function Attaches(es: seq<Input>): nat {
    Count(es, (i: Input) => i.Attach?)
  }

  /** Each detach function is called at most once, by its owner: the sink is attached when it is called. */
  ghost predicate DetachedOnce(es: seq<Input>) {
    es != [] ==>
      var n := |es| - 1;
      DetachedOnce(es[..n]) && (es[n].Detach? ==> es[n].sink in Live(es[..n]))
  }

  /** The fetch that is in place while no sink is attached: the last one supplied by an attach that patched. */
  function FetchBase(hasFetch: bool, es: seq<Input>): Option<Impl> {
    if es == [] then (if hasFetch then Some(Original) else None)
    else
      var n := |es| - 1;
      if es[n].Attach? && es[n].fetchImpl.Some? && Live(es[..n]) == [] then Some(Given(es[n].fetchImpl.value))
      else FetchBase(hasFetch, es[..n])
  }

  /** Count, sinks and slots agree: patched once, over the originals, iff some sink is attached. */
  ghost predicate Balanced(s: PatchState, live: seq<nat>, fetch: Option<Impl>) {
    var originals := Slots(Original, Original, fetch);
    && NoDup(live) && (forall x :: x in live ==> x < s.nextSink)
    && (if live == [] then s.patch.None? && s.slots == originals
        else s.patch == Some(Patch(|live|, live, originals)) && s.slots == Wrap(originals))
  }

  lemma {:induction false} RemoveOne(xs: seq<nat>, x: nat)
    requires NoDup(xs) && x in xs
    ensures |Filter(xs, y => y != x)| == |xs| - 1
  {
    var n := |xs| - 1;
    assert xs == xs[..n] + [xs[n]];
    if xs[n] == x {
      assert x !in xs[..n];
      RemoveNone(xs[..n], x);
    } else {
      RemoveOne(xs[..n], x);
    }
  }

  lemma {:induction false} RemoveNone(xs: seq<nat>, x: nat)
    requires x !in xs
    ensures Filter(xs, y => y != x) == xs
  {
    if xs != [] {
      RemoveNone(xs[..|xs| - 1], x);
    }
  }

  lemma DetachBalanced(s: PatchState, live: seq<nat>, fetch: Option<Impl>, sink: nat)
    requires Balanced(s, live, fetch) && sink in live
    ensures Balanced(Detached(s, sink), Filter(live, x => x != sink), fetch)
  {
    RemoveOne(live, sink);
    FilterNoDup(live, (x: nat) => x != sink);
    FilterMembers(live, (x: nat) => x != sink);
  }

  lemma AttachBalanced(s: PatchState, live: seq<nat>, fetch: Option<Impl>, fetchImpl: Option<nat>)
    requires Balanced(s, live, fetch)
    ensures Balanced(Attached(s, fetchImpl), live + [s.nextSink],
                     if live == [] && fetchImpl.Some? then Some(Given(fetchImpl.value)) else fetch)
  {
    NoDupOfConcat(live, [s.nextSink]);
    assert s.nextSink !in live;
    if live == [] {
      assert live + [s.nextSink] == [s.nextSink];
    }
  }

  /** Over every run in which each detach is called at most once, in any order and interleaved with new attaches. */
  lemma {:induction false} PatchedExactlyWhileAttached(hasFetch: bool, own: (nat, nat) -> bool, es: seq<Input>)
    requires DetachedOnce(es)
    ensures var s := Run(hasFetch, own, es);
      Balanced(s, Live(es), FetchBase(hasFetch, es)) && s.nextSink == Attaches(es)
  {
    if es != [] {
      var n := |es| - 1;
      var s, fetch := Run(hasFetch, own, es[..n]), FetchBase(hasFetch, es[..n]);
      PatchedExactlyWhileAttached(hasFetch, own, es[..n]);
      AttachesSnoc(es);
      match es[n]
      case Attach(fetchImpl) => AttachBalanced(s, Live(es[..n]), fetch, fetchImpl);
      case Detach(sink) => DetachBalanced(s, Live(es[..n]), fetch, sink);
      case _ =>
    }
  }

  /**
   Once the last sink is gone, http and https are the runtime's own again; fetch is, too, exactly when no
   attach that found the runtime unpatched was given a fetch of its own.
   */
  lemma OriginalsComeBackExactly(hasFetch: bool, own: (nat, nat) -> bool, es: seq<Input>)
    requires DetachedOnce(es) && Live(es) == []
    ensures var slots := Run(hasFetch, own, es).slots;
      && slots.http == slots.https == Original
      && (slots == Fresh(hasFetch).slots <==> !SomeSupplies(es))
  {
    PatchedExactlyWhileAttached(hasFetch, own, es);
    FetchBaseExactly(hasFetch, es);
  }

  predicate SuppliesFetch(es: seq<Input>, i: nat)
    requires i < |es|
  {
    es[i].Attach? && es[i].fetchImpl.Some? && Live(es[..i]) == []
  }

  lemma AttachesSnoc(es: seq<Input>)
    requires es != []
    ensures Attaches(es) == Attaches(es[..|es| - 1]) + (if es[|es| - 1].Attach? then 1 else 0)
  {
  }

  lemma SuppliersBefore(es: seq<Input>, n: nat, i: nat)
    requires i < n <= |es|
    ensures SuppliesFetch(es[..n], i) == SuppliesFetch(es, i)
  {
    assert es[..n][..i] == es[..i];
  }

  ghost predicate SomeSupplies(es: seq<Input>) {
    exists i :: 0 <= i < |es| && SuppliesFetch(es, i)
  }

  lemma LastSupplies(es: seq<Input>)
    requires es != []
    ensures SomeSupplies(es) <==> SomeSupplies(es[..|es| - 1]) || SuppliesFetch(es, |es| - 1)
  {
    var n := |es| - 1;
    if SomeSupplies(es[..n]) {
      var i :| 0 <= i < n && SuppliesFetch(es[..n], i);
      SuppliersBefore(es, n, i);
    }
    if SomeSupplies(es) && !SuppliesFetch(es, n) {
      var i :| 0 <= i < |es| && SuppliesFetch(es, i);
      SuppliersBefore(es, n, i);
    }
  }

  lemma {:induction false} FetchBaseExactly(hasFetch: bool, es: seq<Input>)
    ensures if SomeSupplies(es) then FetchBase(hasFetch, es).Some? && FetchBase(hasFetch, es).value.Given?
            else FetchBase(hasFetch, es) == FetchBase(hasFetch, [])
  {
    if es != [] {
      FetchBaseExactly(hasFetch, es[..|es| - 1]);
      LastSupplies(es);
    }
  }

  /** What a second call of the same detach function does: the count no longer matches the sinks. */
  lemma {:induction false} StrayDetachUnbalances(s: PatchState, live: seq<nat>, fetch: Option<Impl>, sink: nat)
    requires Balanced(s, live, fetch) && live != []
    ensures Balanced(Detached(s, sink), Filter(live, x => x != sink), fetch) <==> sink in live
    ensures sink !in live && |live| == 1 ==> Detached(s, sink).patch.None? && Filter(live, x => x != sink) == live
  {
    if sink in live {
      DetachBalanced(s, live, fetch, sink);
    } else {
      RemoveNone(live, sink);
    }
  }

  /* ---------- one event per request and sink ---------- */

  lemma {:induction false} DispatchExact(own: (nat, nat) -> bool, req: nat, url: nat, sinks: seq<nat>)
    requires NoDup(sinks)
    ensures var d := Dispatch(own, req, url, sinks);
      && NoDup(d)
      && (forall e :: e in d <==> e.0 == req && e.1 in sinks && !own(e.1, url))
  {
    if sinks != [] {
      var n := |sinks| - 1;
      DispatchExact(own, req, url, sinks[..n]);
      assert sinks == sinks[..n] + [sinks[n]] && sinks[n] !in sinks[..n];
    }
  }

  /** Events come from finished requests only, never twice for the same request and sink. */
  ghost predicate OncePerSink(s: PatchState) {
    && NoDup(s.emitted)
    && (forall e :: e in s.emitted ==> e.0 < |s.requests| && s.requests[e.0].finished)
    && NoDup(Sinks(s)) && (forall x :: x in Sinks(s) ==> x < s.nextSink)
  }

  lemma StepOncePerSink(s: PatchState, own: (nat, nat) -> bool, i: Input)
    requires OncePerSink(s)
    ensures OncePerSink(Step(s, own, i))
  {
    match i
    case Attach(_) => NoDupOfConcat(Sinks(s), [s.nextSink]);
    case Detach(sink) =>
      FilterNoDup(Sinks(s), (x: nat) => x != sink);
      FilterMembers(Sinks(s), (x: nat) => x != sink);
    case Start(_) =>
      var t := Step(s, own, i);
      assert forall e :: e in s.emitted ==> t.requests[e.0] == s.requests[e.0];
    case Complete(req) =>
      if req < |s.requests| && !s.requests[req].finished {
        var d := Dispatch(own, req, s.requests[req].url, Sinks(s));
        DispatchExact(own, req, s.requests[req].url, Sinks(s));
        NoDupOfConcat(s.emitted, d);
      }
  }

  /** Over every run, whatever order `end` and `error` fire in and however detaches are called. */
  lemma {:induction false} AtMostOneEventEach(hasFetch: bool, own: (nat, nat) -> bool, es: seq<Input>)
    ensures OncePerSink(Run(hasFetch, own, es))
  {
    if es != [] {
      AtMostOneEventEach(hasFetch, own, es[..|es| - 1]);
      StepOncePerSink(Run(hasFetch, own, es[..|es| - 1]), own, es[|es| - 1]);
    }
  }

  /** The first completion emits to exactly the sinks attached at that moment; later ones emit nothing. */
  lemma CompletionReachesCurrentSinks(s: PatchState, own: (nat, nat) -> bool, req: nat, sink: nat)
    requires OncePerSink(s) && req < |s.requests|
    ensures (req, sink) in Completed(s, own, req).emitted <==>
              ((req, sink) in s.emitted ||
               (!s.requests[req].finished && sink in Sinks(s) && !own(sink, s.requests[req].url)))
    ensures Completed(Completed(s, own, req), own, req) == Completed(s, own, req)
  {
    DispatchExact(own, req, s.requests[req].url, Sinks(s));
  }

  /* ---------- exactly one event per request and sink ---------- */

  /** The targets of the requests made while some sink was attached: those the wrappers see. */
  function Observed(es: seq<Input>): seq<nat> {
    if es == [] then []
    else
      var n := |es| - 1;
      Observed(es[..n]) + (if es[n].Start? && Live(es[..n]) != [] then [es[n].url] else [])
  }

  /** The request ends, or fails, for the first time. */
  predicate FirstEnd(es: seq<Input>, n: nat, req: nat)
    requires n < |es|
  {
    es[n] == Complete(req) && req < |Observed(es[..n])| && !Ended(es[..n], req)
  }

  predicate Ended(es: seq<Input>, req: nat) {
    exists i | 0 <= i < |es| :: es[i] == Complete(req) && req < |Observed(es[..i])|
  }

  lemma EndedSnoc(es: seq<Input>, req: nat)
    requires es != []
    ensures var n := |es| - 1;
      Ended(es, req) <==> Ended(es[..n], req) || (es[n] == Complete(req) && req < |Observed(es[..n])|)
  {
    var n := |es| - 1;
    assert forall i :: 0 <= i < n ==> es[..n][..i] == es[..i] && es[..n][i] == es[i];
    if Ended(es[..n], req) {
      var i :| 0 <= i < n && es[..n][i] == Complete(req) && req < |Observed(es[..n][..i])|;
      assert es[i] == Complete(req) && req < |Observed(es[..i])|;
    }
  }

  /** The recorded requests are the observed ones, and finished are those that have ended. */
  ghost predicate Recorded(s: PatchState, es: seq<Input>) {
    |s.requests| == |Observed(es)| && forall r :: 0 <= r < |s.requests| ==> RecordedAt(s, es, r)
  }

  predicate RecordedAt(s: PatchState, es: seq<Input>, r: nat)
    requires r < |s.requests|
  {
    r < |Observed(es)| && s.requests[r] == Request(Observed(es)[r], Ended(es, r))
  }

  lemma EndedWasObserved(es: seq<Input>, req: nat)
    requires Ended(es, req)
    ensures req < |Observed(es)|
  {
    var i :| 0 <= i < |es| && es[i] == Complete(req) && req < |Observed(es[..i])|;
    ObservedGrows(es, i);
  }

  lemma {:induction false} ObservedGrows(es: seq<Input>, i: nat)
    requires i <= |es|
    ensures Observed(es[..i]) <= Observed(es)
    decreases |es|
  {
    if i == |es| {
      assert es[..i] == es;
    } else {
      assert es[..|es| - 1][..i] == es[..i];
      ObservedGrows(es[..|es| - 1], i);
    }
  }

  lemma {:induction false} RequestsAreRecorded(hasFetch: bool, own: (nat, nat) -> bool, es: seq<Input>)
    requires DetachedOnce(es)
    ensures Recorded(Run(hasFetch, own, es), es)
  {
    if es != [] {
      var n := |es| - 1;
      var s, t := Run(hasFetch, own, es[..n]), Run(hasFetch, own, es);
      RequestsAreRecorded(hasFetch, own, es[..n]);
      PatchedExactlyWhileAttached(hasFetch, own, es[..n]);
      forall r | 0 <= r < |t.requests|
        ensures RecordedAt(t, es, r)
      {
        RecordedNext(s, t, own, es, r);
      }
    }
  }

  lemma RecordedNext(s: PatchState, t: PatchState, own: (nat, nat) -> bool, es: seq<Input>, r: nat)
    requires es != [] && Recorded(s, es[..|es| - 1]) && (s.patch.Some? <==> Live(es[..|es| - 1]) != [])
    requires t == Step(s, own, es[|es| - 1]) && r < |t.requests|
    ensures |t.requests| == |Observed(es)| && RecordedAt(t, es, r)
  {
    var n := |es| - 1;
    EndedSnoc(es, r);
    if r < |s.requests| {
      assert RecordedAt(s, es[..n], r);
    } else if Ended(es[..n], r) {
      EndedWasObserved(es[..n], r);
    }
  }

  /** The sink was attached when the request first ended, and the request did not go to the sink's own bridge. */
  ghost predicate Hears(own: (nat, nat) -> bool, es: seq<Input>, req: nat, sink: nat) {
    exists n :: 0 <= n < |es| && FirstEnd(es, n, req) && sink in Live(es[..n]) && !own(sink, Observed(es[..n])[req])
  }

  lemma HearsSnoc(own: (nat, nat) -> bool, es: seq<Input>, req: nat, sink: nat)
    requires es != []
    ensures var n := |es| - 1;
      Hears(own, es, req, sink) <==>
        || Hears(own, es[..n], req, sink)
        || (FirstEnd(es, n, req) && sink in Live(es[..n]) && !own(sink, Observed(es[..n])[req]))
  {
    var n := |es| - 1;
    assert forall i :: 0 <= i < n ==> es[..n][..i] == es[..i] && es[..n][i] == es[i];
    if Hears(own, es[..n], req, sink) {
      var i :| 0 <= i < n && FirstEnd(es[..n], i, req) && sink in Live(es[..n][..i])
               && !own(sink, Observed(es[..n][..i])[req]);
      assert FirstEnd(es, i, req);
    }
    if Hears(own, es, req, sink) {
      var i :| 0 <= i < |es| && FirstEnd(es, i, req) && sink in Live(es[..i]) && !own(sink, Observed(es[..i])[req]);
      if i < n {
        assert FirstEnd(es[..n], i, req);
      }
    }
  }

  /**
   Over every run in which each detach is called at most once: a request made while some sink was attached
   gives exactly one event to each sink attached when it first ends, except to those whose own bridge it
   goes to; nothing else gives any.
   */
  lemma {:induction false} OneEventExactly(hasFetch: bool, own: (nat, nat) -> bool, es: seq<Input>, req: nat, sink: nat)
    requires DetachedOnce(es)
    ensures var emitted := Run(hasFetch, own, es).emitted;
      NoDup(emitted) && ((req, sink) in emitted <==> Hears(own, es, req, sink))
  {
    AtMostOneEventEach(hasFetch, own, es);
    if es != [] {
      var n := |es| - 1;
      var s := Run(hasFetch, own, es[..n]);
      OneEventExactly(hasFetch, own, es[..n], req, sink);
      HearsSnoc(own, es, req, sink);
      AtMostOneEventEach(hasFetch, own, es[..n]);
      RequestsAreRecorded(hasFetch, own, es[..n]);
      PatchedExactlyWhileAttached(hasFetch, own, es[..n]);
      if es[n].Complete? && es[n].req < |s.requests| {
        assert RecordedAt(s, es[..n], es[n].req);
        CompletionReachesCurrentSinks(s, own, es[n].req, sink);
        if req != es[n].req {
          CompletionEmitsOwn(s, own, es[n].req, req, sink);
        }
      }
    }
  }

  lemma CompletionEmitsOwn(s: PatchState, own: (nat, nat) -> bool, done: nat, req: nat, sink: nat)
    requires done < |s.requests| && OncePerSink(s) && req != done
    ensures (req, sink) in Completed(s, own, done).emitted <==> (req, sink) in s.emitted
  {
    DispatchExact(own, done, s.requests[done].url, Sinks(s));
  }
}
