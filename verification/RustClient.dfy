/**
 The Rust client's buffer: emptied before it is sent, and sent only while a connection opens. A frame
 counts as sent once the transport, or the connection's writer task, has taken it.
 */
module RustClient {
  import opened Common
  import W = ClientModel

  /** `lost` events and `forgotten` drops were taken out of the buffer and never sent or reported. */
  datatype RustState = RustState(
    buffer: seq<W.Event>, dropped: nat, serving: bool, wires: seq<seq<W.Frame>>,
    accepted: seq<W.Event>, lost: nat, forgotten: nat)

  const INITIAL := RustState([], 0, false, [], [], 0, 0)

  /**
   Connect is a completed handshake: `early` was sent while waiting for auth_success, `budget` sends
   succeed during the flush, and `between` is enqueued by other threads before the loop starts.
   */
  datatype Input =
    | Produce(ev: W.Event)
    | HandshakeFails
    | Connect(early: seq<W.Frame>, budget: nat, between: seq<W.Event>)
    | Serve(f: W.Frame)
    | Ended

  function Enqueue(limit: nat, s: RustState, ev: W.Event): RustState {
    var t := s.(accepted := s.accepted + [ev]);
    if |s.buffer| >= limit then t.(buffer := s.buffer[Min(1, |s.buffer|)..] + [ev], dropped := s.dropped + 1)
    else t.(buffer := s.buffer + [ev])
  }

  function EnqueueAll(limit: nat, s: RustState, evs: seq<W.Event>): RustState {
    if evs == [] then s else Enqueue(limit, EnqueueAll(limit, s, evs[..|evs| - 1]), evs[|evs| - 1])
  }

  function AppendAll(wires: seq<seq<W.Frame>>, fs: seq<W.Frame>): seq<seq<W.Frame>> {
    if wires == [] then wires else wires[..|wires| - 1] + [wires[|wires| - 1] + fs]
  }

  /** What a flush means to send. */
  function Script(s: RustState): seq<W.Frame> {
    W.Carried(s.buffer) + (if s.dropped > 0 then [W.DropNotice(s.dropped)] else [])
  }

  /** flush_buffer: buffer and counter are taken first, so what the transport refuses is gone. */
  function Flushed(s: RustState, budget: nat): (RustState, bool) {
    var ok := |Script(s)| <= budget;
    (s.(buffer := [], dropped := 0, wires := AppendAll(s.wires, Take(Script(s), budget)),
        lost := s.lost + |s.buffer| - Min(|s.buffer|, budget),
        forgotten := s.forgotten + (if ok then 0 else s.dropped)), ok)
  }

  /** The second drain, into the channel of the writer task. */
  function Drained(s: RustState): RustState {
    s.(buffer := [], dropped := 0, wires := AppendAll(s.wires, Script(s)))
  }

  function Step(limit: nat, s: RustState, i: Input): RustState {
    match i
    case Produce(ev) => Enqueue(limit, s, ev)
    case HandshakeFails => s
    case Connect(early, budget, between) =>
      if s.serving then s
      else
        var (t, ok) := Flushed(s.(wires := s.wires + [[W.Auth] + early + [W.Hello]]), budget);
        if ok then Drained(EnqueueAll(limit, t, between)).(serving := true) else t
    case Serve(f) => if s.serving then s.(wires := AppendAll(s.wires, [f])) else s
    case Ended => s.(serving := false)
  }

  function Run(limit: nat, s: RustState, es: seq<Input>): RustState {
    if es == [] then s else Step(limit, Run(limit, s, es[..|es| - 1]), es[|es| - 1])
  }

  /* ---------- the client object ---------- */

  class BridgeClient {
    const bufferLimit: nat
    var buffer: seq<W.Event>
    var dropped: nat
    var serving: bool
    var wires: seq<seq<W.Frame>>
    ghost var accepted: seq<W.Event>
    ghost var lost: nat
    ghost var forgotten: nat

    ghost function State(): RustState
      reads this
    {
      RustState(buffer, dropped, serving, wires, accepted, lost, forgotten)
    }

    constructor (bufferLimit: nat)
      ensures State() == INITIAL && this.bufferLimit == bufferLimit
    {
      this.bufferLimit := bufferLimit;
      buffer, dropped, serving, wires := [], 0, false, [];
      accepted, lost, forgotten := [], 0, 0;
    }

    method EnqueueEvent(ev: W.Event)
      modifies this
      ensures State() == Enqueue(bufferLimit, old(State()), ev)
    {
      if |buffer| >= bufferLimit {
        if |buffer| > 0 {
          buffer := buffer[1..];
        }
        dropped := dropped + 1;
      }
      buffer := buffer + [ev];
      accepted := accepted + [ev];
    }

    method Put(f: W.Frame)
      modifies `wires
      ensures wires == AppendAll(old(wires), [f])
    {
      if wires != [] {
        wires := wires[..|wires| - 1] + [wires[|wires| - 1] + [f]];
      }
    }

    /** Sends in order until the transport refuses, after `budget` frames. */
    method SendPending(pending: seq<W.Event>, budget: nat) returns (sent: nat)
      modifies `wires
      ensures sent == Min(|pending|, budget)
      ensures wires == AppendAll(old(wires), W.Carried(pending[..sent]))
    {
      sent := 0;
      AppendNothing(wires);
      assert W.Carried(pending[..0]) == [];
      while sent < |pending| && sent < budget
        invariant 0 <= sent <= |pending| && sent <= budget
        invariant wires == AppendAll(old(wires), W.Carried(pending[..sent]))
      {
        CarryMore(old(wires), pending, sent);
        Put(W.Carry(pending[sent]));
        sent := sent + 1;
      }
    }

    /** Buffer and counter are taken first; what of them is not sent goes out of scope. */
    method FlushBuffer(budget: nat) returns (ok: bool)
      modifies this
      ensures (State(), ok) == Flushed(old(State()), budget)
    {
      var pending, count := buffer, dropped;
      buffer, dropped := [], 0;
      FlushedByCases(old(State()), budget);
      var sent := SendPending(pending, budget);
      if sent < |pending| {
        lost, forgotten := lost + (|pending| - sent), forgotten + count;
        return false;
      }
      if count > 0 {
        if sent == budget {
          forgotten := forgotten + count;
          return false;
        }
        Put(W.DropNotice(count));
      }
      ok := true;
    }

    /** Hands everything to the writer task, which does not refuse. */
    method DrainToChannel()
      modifies `buffer, `dropped, `wires
      ensures State() == Drained(old(State()))
    {
      ghost var w0, script := wires, Script(State());
      ghost var all := buffer;
      ghost var i := 0;
      AppendNothing(w0);
      while |buffer| > 0
        invariant 0 <= i <= |all| && buffer == all[i..]
        invariant State() == old(State()).(buffer := buffer, wires := AppendAll(w0, script[..i]))
        decreases |buffer|
      {
        AppendMore(w0, script, i);
        var ev := buffer[0];
        ScriptAt(old(State()), i);
        assert buffer[1..] == all[i + 1..];
        buffer := buffer[1..];
        Put(W.Carry(ev));
        i := i + 1;
      }
      var count := dropped;
      dropped := 0;
      assert i == |all|;
      if count > 0 {
        ScriptAt(old(State()), i);
        AppendMore(w0, script, i);
        Put(W.DropNotice(count));
      }
      assert script[..|script|] == script;
    }

    /** From the completed handshake to the start of the select loop. */
    method ConnectOnce(early: seq<W.Frame>, budget: nat, between: seq<W.Event>)
      requires !serving
      modifies this
      ensures State() == Step(bufferLimit, old(State()), Connect(early, budget, between))
    {
      wires := wires + [[W.Auth] + early + [W.Hello]];
      var ok := FlushBuffer(budget);
      if !ok {
        return;
      }
      ghost var flushed := State();
      assert between[..0] == [];
      for i := 0 to |between|
        invariant State() == EnqueueAll(bufferLimit, flushed, between[..i])
      {
        assert between[..i + 1][..i] == between[..i];
        EnqueueEvent(between[i]);
      }
      assert between[..|between|] == between;
      DrainToChannel();
      serving := true;
    }
  }

  /** The effect of a flush, by where the transport stops it. */
  lemma FlushedByCases(s: RustState, budget: nat)
    ensures var sent := Min(|s.buffer|, budget);
      var w := AppendAll(s.wires, W.Carried(s.buffer[..sent]));
      var t := s.(buffer := [], dropped := 0);
      Flushed(s, budget) ==
      if sent < |s.buffer| then
        (t.(wires := w, lost := s.lost + (|s.buffer| - sent), forgotten := s.forgotten + s.dropped), false)
      else if s.dropped == 0 then (t.(wires := w), true)
      else if sent == budget then (t.(wires := w, forgotten := s.forgotten + s.dropped), false)
      else (t.(wires := AppendAll(w, [W.DropNotice(s.dropped)])), true)
  {
    var sent := Min(|s.buffer|, budget);
    TakenScript(s, budget);
    assert s.buffer[..sent] == Take(s.buffer, budget);
    NoticeFollows(s.wires, W.Carried(s.buffer[..sent]), TakenNotice(s, budget));
    assert |Script(s)| == |s.buffer| + (if s.dropped > 0 then 1 else 0);
  }

  lemma CarryMore(wires: seq<seq<W.Frame>>, pending: seq<W.Event>, i: nat)
    requires i < |pending|
    ensures AppendAll(AppendAll(wires, W.Carried(pending[..i])), [W.Carry(pending[i])]) ==
            AppendAll(wires, W.Carried(pending[..i + 1]))
  {
    NoticeFollows(wires, W.Carried(pending[..i]), [W.Carry(pending[i])]);
    assert W.Carried(pending[..i]) + [W.Carry(pending[i])] == W.Carried(pending[..i + 1]);
  }

  lemma NoticeFollows(wires: seq<seq<W.Frame>>, sent: seq<W.Frame>, more: seq<W.Frame>)
    ensures AppendAll(AppendAll(wires, sent), more) == AppendAll(wires, sent + more)
    ensures sent + [] == sent
  {
    if wires != [] {
      Associates(wires[|wires| - 1], sent, more);
    }
  }

  lemma ScriptAt(s: RustState, i: nat)
    requires i < |Script(s)|
    ensures Script(s)[i] == if i < |s.buffer| then W.Carry(s.buffer[i]) else W.DropNotice(s.dropped)
  {
  }

  lemma AppendNothing(wires: seq<seq<W.Frame>>)
    ensures AppendAll(wires, []) == wires
  {
    if wires != [] {
      assert wires[|wires| - 1] + [] == wires[|wires| - 1];
    }
  }

  lemma AppendMore(wires: seq<seq<W.Frame>>, script: seq<W.Frame>, i: nat)
    requires i < |script|
    ensures AppendAll(AppendAll(wires, script[..i]), [script[i]]) == AppendAll(wires, script[..i + 1])
  {
    if wires != [] {
      var n := |wires| - 1;
      assert (wires[n] + script[..i]) + [script[i]] == wires[n] + script[..i + 1];
    }
  }

  /* ---------- what a flush loses ---------- */

  /** A flush loses nothing iff no send failed; otherwise exactly the events not sent, and the drops not reported. */
  lemma FlushLosesExactly(s: RustState, budget: nat)
    ensures var (t, ok) := Flushed(s, budget);
      && (ok <==> t.lost == s.lost && t.forgotten == s.forgotten)
      && t.lost - s.lost == |s.buffer| - |Take(s.buffer, budget)|
      && (!ok ==> t.forgotten == s.forgotten + s.dropped)
  {
    assert |Script(s)| == |s.buffer| + (if s.dropped > 0 then 1 else 0);
  }

  /* ---------- the simple specification: keep the newest, send them at the next opening ---------- */

  /** `waiting` is every event accepted since the buffer was last taken. */
  datatype Spec = Spec(serving: bool, waiting: seq<W.Event>, wires: seq<seq<W.Frame>>)

  /** The newest of what waits, then how many older ones were dropped. */
  function Burst(limit: nat, waiting: seq<W.Event>): seq<W.Frame> {
    W.Carried(LastN(waiting, limit)) + (if |waiting| > limit then [W.DropNotice(|waiting| - limit)] else [])
  }

  /** A connection begins with auth, what is sent while waiting, hello, and what the transport takes of the burst. */
  function Opening(early: seq<W.Frame>, burst: seq<W.Frame>, budget: nat): seq<W.Frame> {
    [W.Auth] + early + [W.Hello] + Take(burst, budget)
  }

  function SpecStep(limit: nat, p: Spec, i: Input): Spec {
    match i
    case Produce(ev) => p.(waiting := p.waiting + [ev])
    case HandshakeFails => p
    case Connect(early, budget, between) =>
      if p.serving then p
      else
        var burst := Burst(limit, p.waiting);
        var opening := Opening(early, burst, budget);
        if |burst| <= budget then Spec(true, [], p.wires + [opening + Burst(limit, between)])
        else Spec(false, [], p.wires + [opening])
    case Serve(f) => if p.serving then p.(wires := AppendAll(p.wires, [f])) else p
    case Ended => p.(serving := false)
  }

  function SpecRun(limit: nat, es: seq<Input>): Spec {
    if es == [] then Spec(false, [], []) else SpecStep(limit, SpecRun(limit, es[..|es| - 1]), es[|es| - 1])
  }

  ghost predicate Refines(limit: nat, s: RustState, p: Spec) {
    && s.serving == p.serving && s.wires == p.wires
    && s.buffer == LastN(p.waiting, limit) && s.dropped == |p.waiting| - |s.buffer|
  }

  lemma EnqueueKeepsNewest(limit: nat, s: RustState, waiting: seq<W.Event>, ev: W.Event)
    requires limit > 0 && s.buffer == LastN(waiting, limit) && s.dropped == |waiting| - |s.buffer|
    ensures var t := Enqueue(limit, s, ev);
      && t.buffer == LastN(waiting + [ev], limit) && t.dropped == |waiting + [ev]| - |t.buffer|
      && t.wires == s.wires && t.serving == s.serving
  {
  }

  lemma {:induction false} EnqueueAllKeepsNewest(limit: nat, s: RustState, evs: seq<W.Event>)
    requires limit > 0 && s.buffer == [] && s.dropped == 0
    ensures var t := EnqueueAll(limit, s, evs);
      && t.buffer == LastN(evs, limit) && t.dropped == |evs| - |t.buffer|
      && t.wires == s.wires && t.serving == s.serving
  {
    if evs != [] {
      var n := |evs| - 1;
      EnqueueAllKeepsNewest(limit, s, evs[..n]);
      EnqueueKeepsNewest(limit, EnqueueAll(limit, s, evs[..n]), evs[..n], evs[n]);
      assert evs[..n] + [evs[n]] == evs;
    }
  }

  lemma AppendToNew(wires: seq<seq<W.Frame>>, w: seq<W.Frame>, fs: seq<W.Frame>)
    ensures AppendAll(wires + [w], fs) == wires + [w + fs]
  {
    assert (wires + [w])[..|wires|] == wires;
  }

  lemma ConnectRefines(limit: nat, s: RustState, p: Spec, early: seq<W.Frame>, budget: nat, between: seq<W.Event>)
    requires limit > 0 && Refines(limit, s, p) && !s.serving
    ensures Refines(limit, Step(limit, s, Connect(early, budget, between)),
                    SpecStep(limit, p, Connect(early, budget, between)))
  {
    var burst := Burst(limit, p.waiting);
    var head := [W.Auth] + early + [W.Hello];
    assert Script(s) == burst;
    AppendToNew(s.wires, head, Take(burst, budget));
    var (t, ok) := Flushed(s.(wires := s.wires + [head]), budget);
    assert t.wires == p.wires + [Opening(early, burst, budget)];
    if ok {
      var u := EnqueueAll(limit, t, between);
      EnqueueAllKeepsNewest(limit, t, between);
      assert Script(u) == Burst(limit, between);
      AppendToNew(p.wires, Opening(early, burst, budget), Burst(limit, between));
    }
  }

  /** Wire-trace refinement over every run, however many connections fail to open. */
  lemma {:induction false} WireTraceRefinesSpec(limit: nat, es: seq<Input>)
    requires limit > 0
    ensures Refines(limit, Run(limit, INITIAL, es), SpecRun(limit, es))
  {
    if es != [] {
      var n := |es| - 1;
      var s, p := Run(limit, INITIAL, es[..n]), SpecRun(limit, es[..n]);
      WireTraceRefinesSpec(limit, es[..n]);
      match es[n]
      case Produce(ev) => EnqueueKeepsNewest(limit, s, p.waiting, ev);
      case Connect(early, budget, between) =>
        if !s.serving { ConnectRefines(limit, s, p, early, budget, between); }
      case HandshakeFails =>
      case Serve(_) =>
      case Ended =>
    }
  }

  /* ---------- conservation ---------- */

  predicate Plain(fs: seq<W.Frame>) {
    forall f :: f in fs ==> !f.Carry? && !f.DropNotice?
  }

  /** While waiting and while serving only pings, pongs and control results are sent. */
  predicate Allowed(i: Input) {
    match i
    case Connect(early, _, _) => Plain(early)
    case Serve(f) => Plain([f])
    case _ => true
  }

  ghost predicate Accounted(s: RustState) {
    && |s.accepted| == |W.AllEvents(s.wires)| + W.AllReported(s.wires) + |s.buffer| + s.dropped + s.lost + s.forgotten
    && Subsequence(W.AllEvents(s.wires) + s.buffer, s.accepted)
    && (s.serving ==> s.wires != [])
  }

  lemma AppendCounts(wires: seq<seq<W.Frame>>, fs: seq<W.Frame>)
    requires wires != []
    ensures W.AllEvents(AppendAll(wires, fs)) == W.AllEvents(wires) + W.EventsOn(fs)
    ensures W.AllReported(AppendAll(wires, fs)) == W.AllReported(wires) + W.ReportedOn(fs)
  {
    var n, w := |wires| - 1, AppendAll(wires, fs);
    W.WireConcat(wires[n], fs);
    assert wires == wires[..n] + [wires[n]];
    var sent, last, more := W.AllEvents(wires[..n]), W.EventsOn(wires[n]), W.EventsOn(fs);
    assert sent + (last + more) == (sent + last) + more;
    LastWire(w, wires[..n], wires[n] + fs);
    LastWire(wires, wires[..n], wires[n]);
  }

  lemma LastWire(wires: seq<seq<W.Frame>>, earlier: seq<seq<W.Frame>>, last: seq<W.Frame>)
    requires wires == earlier + [last]
    ensures W.AllEvents(wires) == W.AllEvents(earlier) + W.EventsOn(last)
    ensures W.AllReported(wires) == W.AllReported(earlier) + W.ReportedOn(last)
  {
    assert wires[..|wires| - 1] == earlier;
  }

  lemma {:induction false} PlainCarriesNothing(fs: seq<W.Frame>)
    requires Plain(fs)
    ensures W.EventsOn(fs) == [] && W.ReportedOn(fs) == 0
  {
    if fs != [] {
      PlainCarriesNothing(fs[..|fs| - 1]);
      assert fs[|fs| - 1] in fs;
    }
  }

  lemma NewWireCounts(wires: seq<seq<W.Frame>>, w: seq<W.Frame>)
    requires Plain(w)
    ensures W.AllEvents(wires + [w]) == W.AllEvents(wires) && W.AllReported(wires + [w]) == W.AllReported(wires)
  {
    PlainCarriesNothing(w);
    assert (wires + [w])[..|wires|] == wires;
  }

  function TakenNotice(s: RustState, budget: nat): seq<W.Frame> {
    if s.dropped > 0 && |s.buffer| < budget then [W.DropNotice(s.dropped)] else []
  }

  lemma TakenScript(s: RustState, budget: nat)
    ensures Take(Script(s), budget) == W.Carried(Take(s.buffer, budget)) + TakenNotice(s, budget)
  {
    var carried := W.Carried(s.buffer);
    if budget < |s.buffer| {
      assert Script(s)[..budget] == carried[..budget] == W.Carried(s.buffer[..budget]);
      assert carried[..budget] + [] == carried[..budget];
    } else if budget == |s.buffer| {
      assert Script(s)[..budget] == carried;
      assert carried + [] == carried;
    }
  }

  /** The part of the script the transport took. */
  lemma TakenCounts(s: RustState, budget: nat)
    ensures var taken := Take(Script(s), budget);
      && W.EventsOn(taken) == Take(s.buffer, budget)
      && W.ReportedOn(taken) == if |Script(s)| <= budget then s.dropped else 0
  {
    var kept, notice := Take(s.buffer, budget), TakenNotice(s, budget);
    TakenScript(s, budget);
    W.CarriedEvents(kept);
    W.WireConcat(W.Carried(kept), notice);
    if notice != [] {
      W.OneFrame(notice[0]);
    }
    assert kept + [] == kept;
  }

  lemma FlushAccounted(s: RustState, budget: nat)
    requires Accounted(s) && s.wires != []
    ensures Accounted(Flushed(s, budget).0)
  {
    var t, kept := Flushed(s, budget).0, Take(s.buffer, budget);
    TakenCounts(s, budget);
    AppendCounts(s.wires, Take(Script(s), budget));
    SubsequenceTake(W.AllEvents(s.wires), s.buffer, |kept|, s.accepted);
    assert W.AllEvents(t.wires) + [] == W.AllEvents(s.wires) + kept;
  }

  lemma SubsequenceTake<T>(a: seq<T>, b: seq<T>, k: nat, all: seq<T>)
    requires k <= |b| && Subsequence(a + b, all)
    ensures Subsequence(a + b[..k], all)
  {
    SubsequenceRefl(a + b[..k]);
    SubsequenceEmpty(b[k..]);
    SubsequenceConcat(a + b[..k], a + b[..k], [], b[k..]);
    assert (a + b[..k]) + b[k..] == a + b && (a + b[..k]) + [] == a + b[..k];
    SubsequenceTransitive(a + b[..k], a + b, all);
  }

  lemma DrainIsCompleteFlush(s: RustState)
    ensures Flushed(s, |Script(s)|).0 == Drained(s)
  {
  }

  lemma EnqueueAccounted(limit: nat, s: RustState, ev: W.Event)
    requires Accounted(s) && limit > 0
    ensures Accounted(Enqueue(limit, s, ev))
  {
    KeepNewest(W.AllEvents(s.wires), s.buffer, if |s.buffer| >= limit then 1 else 0, ev, s.accepted);
  }

  lemma {:induction false} EnqueueAllAccounted(limit: nat, s: RustState, evs: seq<W.Event>)
    requires Accounted(s) && limit > 0
    ensures Accounted(EnqueueAll(limit, s, evs)) && EnqueueAll(limit, s, evs).wires == s.wires
  {
    if evs != [] {
      EnqueueAllAccounted(limit, s, evs[..|evs| - 1]);
      EnqueueAccounted(limit, EnqueueAll(limit, s, evs[..|evs| - 1]), evs[|evs| - 1]);
    }
  }

  lemma ConnectAccounted(limit: nat, s: RustState, early: seq<W.Frame>, budget: nat, between: seq<W.Event>)
    requires Accounted(s) && limit > 0 && Plain(early) && !s.serving
    ensures Accounted(Step(limit, s, Connect(early, budget, between)))
  {
    var begun := s.(wires := s.wires + [[W.Auth] + early + [W.Hello]]);
    NewWireCounts(s.wires, [W.Auth] + early + [W.Hello]);
    FlushAccounted(begun, budget);
    var (t, ok) := Flushed(begun, budget);
    if ok {
      EnqueueAllAccounted(limit, t, between);
      var u := EnqueueAll(limit, t, between);
      DrainIsCompleteFlush(u);
      FlushAccounted(u, |Script(u)|);
    }
  }

  /**
   Over every run: accepted = sent + buffered + dropped and not yet reported + reported + lost + forgotten,
   and what was sent followed by the buffer is in the order of acceptance.
   */
  lemma {:induction false} EverythingIsAccounted(limit: nat, es: seq<Input>)
    requires limit > 0 && forall i :: 0 <= i < |es| ==> Allowed(es[i])
    ensures Accounted(Run(limit, INITIAL, es))
  {
    if es != [] {
      var n := |es| - 1;
      var s := Run(limit, INITIAL, es[..n]);
      EverythingIsAccounted(limit, es[..n]);
      match es[n]
      case Produce(ev) => EnqueueAccounted(limit, s, ev);
      case Connect(early, budget, between) => if !s.serving { ConnectAccounted(limit, s, early, budget, between); }
      case Serve(f) => if s.serving { ServeCounts(s.wires, f); }
      case HandshakeFails =>
      case Ended =>
    }
  }

  lemma ServeCounts(wires: seq<seq<W.Frame>>, f: W.Frame)
    requires wires != [] && Plain([f])
    ensures W.AllEvents(AppendAll(wires, [f])) == W.AllEvents(wires)
    ensures W.AllReported(AppendAll(wires, [f])) == W.AllReported(wires)
  {
    AppendCounts(wires, [f]);
    PlainCarriesNothing([f]);
  }

  /** Events accepted while a connection is served wait for the next connection: until then none is sent. */
  lemma {:induction false} OnlyOpeningsCarryEvents(limit: nat, s: RustState, es: seq<Input>)
    requires forall i :: 0 <= i < |es| ==> Allowed(es[i]) && !es[i].Connect?
    requires s.serving ==> s.wires != []
    ensures var t := Run(limit, s, es);
      && W.AllEvents(t.wires) == W.AllEvents(s.wires) && W.AllReported(t.wires) == W.AllReported(s.wires)
      && (t.serving ==> t.wires != [])
  {
    if es != [] {
      var n := |es| - 1;
      OnlyOpeningsCarryEvents(limit, s, es[..n]);
      StepCarriesNothing(limit, Run(limit, s, es[..n]), es[n]);
    }
  }

  lemma StepCarriesNothing(limit: nat, s: RustState, i: Input)
    requires Allowed(i) && !i.Connect? && (s.serving ==> s.wires != [])
    ensures var t := Step(limit, s, i);
      && W.AllEvents(t.wires) == W.AllEvents(s.wires) && W.AllReported(t.wires) == W.AllReported(s.wires)
      && (t.serving ==> t.wires != [])
  {
    if i.Serve? && s.serving {
      ServeCounts(s.wires, i.f);
    }
  }
}
