/** The reference bridge client as a state machine: one socket at a time, a reconnect timer, a bounded buffer. */
module ClientModel {
  import opened Common

  const BUFFER_LIMIT := 200
  const RECONNECT_INITIAL_DELAY_MS := 1_000
  const RECONNECT_MAX_DELAY_MS := 30_000

  // An event that passed validation; its content does not matter here.
  datatype Event = Event(payload: nat)

  datatype Frame = Auth | Hello | Carry(ev: Event) | DropNotice(count: nat) | Ping | Pong | ControlResult(id: string)

  datatype Ready = Connecting | Open | Closing

  /**
   `socket` is the one whose close event has not fired yet. `wires` has the frames of every connection
   that opened, the current one last. `attempt` is a timer-driven connect() whose promise is unsettled.
   */
  datatype ClientState = ClientState(
    socket: Option<Ready>, timer: Option<nat>, delay: nat, attempt: bool, rejected: bool,
    helloSent: bool, buffer: seq<Event>, dropped: nat, wires: seq<seq<Frame>>)

  const INITIAL := ClientState(None, None, RECONNECT_INITIAL_DELAY_MS, false, false, false, [], 0, [])

  datatype Input =
    | Connect              // the application's one call
    | ConnectThrows
    | Opened
    | Errored
    | CloseBegins          // by the peer, or by the heartbeat timeout
    | Closed
    | TimerFires
    | TimerFiresAndThrows  // the socket constructor throws inside connect()
    | CatchRuns            // the rejection handler of a timer-driven connect()
    | Disconnect
    | Send(ev: Event)
    | Raw(frame: Frame)    // ping, pong, control result

  /** What the environment may do. The application connects only while nothing is under way. */
  predicate Enabled(s: ClientState, i: Input) {
    match i
    case Connect => s.socket.None? && s.timer.None?
    case ConnectThrows => s.socket.None? && s.timer.None?
    case Opened => s.socket == Some(Connecting)
    case Errored => s.socket.Some?
    case CloseBegins => s.socket.Some?
    case Closed => s.socket.Some?
    case TimerFires => s.timer.Some?
    case TimerFiresAndThrows => s.timer.Some?
    case CatchRuns => s.rejected
    case Disconnect => true
    case Send(_) => true
    case Raw(f) => f.Ping? || f.Pong? || f.ControlResult?
  }

  function Transmit(s: ClientState, f: Frame): ClientState {
    if s.socket == Some(Open) && s.wires != [] then
      var n := |s.wires| - 1;
      s.(wires := s.wires[..n] + [s.wires[n] + [f]])
    else s
  }

  function TransmitAll(s: ClientState, fs: seq<Frame>): ClientState {
    if fs == [] then s else Transmit(TransmitAll(s, fs[..|fs| - 1]), fs[|fs| - 1])
  }

  function Enqueue(s: ClientState, ev: Event): ClientState {
    if |s.buffer| >= BUFFER_LIMIT then s.(buffer := s.buffer[1..] + [ev], dropped := s.dropped + 1)
    else s.(buffer := s.buffer + [ev])
  }

  function Carried(evs: seq<Event>): seq<Frame> {
    seq(|evs|, i requires 0 <= i < |evs| => Carry(evs[i]))
  }

  function Flush(s: ClientState): ClientState {
    var t := TransmitAll(s, Carried(s.buffer) + (if s.dropped > 0 then [DropNotice(s.dropped)] else []));
    t.(buffer := [], dropped := 0)
  }

  function NewlyOpen(s: ClientState): ClientState {
    s.(socket := Some(Open), delay := RECONNECT_INITIAL_DELAY_MS, attempt := false, helloSent := false,
       wires := s.wires + [[]])
  }

  function OnOpen(s: ClientState): ClientState {
    Flush(TransmitAll(NewlyOpen(s), [Auth, Hello]).(helloSent := true))
  }

  function OnClose(s: ClientState): ClientState {
    s.(socket := None, helloSent := false, timer := if s.timer.Some? then s.timer else Some(s.delay))
  }

  function Doubled(delay: nat): nat {
    if delay * 2 < RECONNECT_MAX_DELAY_MS then delay * 2 else RECONNECT_MAX_DELAY_MS
  }

  function Step(s: ClientState, i: Input): ClientState {
    match i
    case Connect => s.(socket := Some(Connecting), attempt := false)
    case ConnectThrows => s
    case Opened => OnOpen(s)
    case Errored => s.(rejected := s.rejected || s.attempt, attempt := false)
    case CloseBegins => s.(socket := Some(Closing))
    case Closed => OnClose(s)
    case TimerFires => s.(timer := None, socket := Some(Connecting), attempt := true)
    case TimerFiresAndThrows => s.(timer := None, rejected := true)
    case CatchRuns => s.(rejected := false, delay := Doubled(s.delay))
    case Disconnect => s.(timer := None, socket := if s.socket.Some? then Some(Closing) else None)
    case Send(ev) => if s.socket == Some(Open) then Transmit(s, Carry(ev)) else Enqueue(s, ev)
    case Raw(f) => Transmit(s, f)
  }

  function Run(es: seq<Input>): ClientState {
    if es == [] then INITIAL else Step(Run(es[..|es| - 1]), es[|es| - 1])
  }

  ghost predicate EnabledRun(es: seq<Input>) {
    es != [] ==> EnabledRun(es[..|es| - 1]) && Enabled(Run(es[..|es| - 1]), es[|es| - 1])
  }

  /* ---------- the simple specification: keep the last 200, then report the rest ---------- */

  /** `waiting` is every event accepted since the last flush that is not on the wire. */
  datatype Spec = Spec(open: bool, waiting: seq<Event>, wires: seq<seq<Frame>>)

  /** What a new connection starts with. */
  function Opening(waiting: seq<Event>): seq<Frame> {
    [Auth, Hello] + Carried(LastN(waiting, 200)) + (if |waiting| > 200 then [DropNotice(|waiting| - 200)] else [])
  }

  function Append(wires: seq<seq<Frame>>, f: Frame): seq<seq<Frame>> {
    if wires == [] then wires else wires[..|wires| - 1] + [wires[|wires| - 1] + [f]]
  }

  function SpecStep(p: Spec, i: Input): Spec {
    match i
    case Opened => Spec(true, [], p.wires + [Opening(p.waiting)])
    case Send(ev) => if p.open then p.(wires := Append(p.wires, Carry(ev))) else p.(waiting := p.waiting + [ev])
    case Raw(f) => if p.open then p.(wires := Append(p.wires, f)) else p
    case CloseBegins => p.(open := false)
    case Closed => p.(open := false)
    case Disconnect => p.(open := false)
    case _ => p
  }

  function SpecRun(es: seq<Input>): Spec {
    if es == [] then Spec(false, [], []) else SpecStep(SpecRun(es[..|es| - 1]), es[|es| - 1])
  }

  /** The bounded buffer stands for the whole waiting list. */
  ghost predicate Refines(s: ClientState, p: Spec) {
    && s.wires == p.wires
    && p.open == (s.socket == Some(Open))
    && s.buffer == LastN(p.waiting, BUFFER_LIMIT)
    && s.dropped == |p.waiting| - |s.buffer|
    && (p.open ==> p.waiting == [] && p.wires != [])
  }

  lemma {:induction false} TransmitAllAppends(s: ClientState, fs: seq<Frame>)
    requires s.socket == Some(Open) && s.wires != []
    ensures var n := |s.wires| - 1; TransmitAll(s, fs) == s.(wires := s.wires[..n] + [s.wires[n] + fs])
  {
    var n := |s.wires| - 1;
    if fs == [] {
      assert s.wires[n] + fs == s.wires[n];
      assert s.wires[..n] + [s.wires[n]] == s.wires;
    } else {
      var k := |fs| - 1;
      TransmitAllAppends(s, fs[..k]);
      assert (s.wires[n] + fs[..k]) + [fs[k]] == s.wires[n] + fs;
    }
  }

  /** A new connection's first frames are exactly the specified opening. */
  lemma OpenWritesOpening(s: ClientState, waiting: seq<Event>)
    requires s.buffer == LastN(waiting, BUFFER_LIMIT) && s.dropped == |waiting| - |s.buffer|
    ensures OnOpen(s).wires == s.wires + [Opening(waiting)]
    ensures OnOpen(s).buffer == [] && OnOpen(s).dropped == 0 && OnOpen(s).socket == Some(Open)
  {
    var t := NewlyOpen(s);
    var n := |s.wires|;
    TransmitAllAppends(t, [Auth, Hello]);
    var u := TransmitAll(t, [Auth, Hello]).(helloSent := true);
    assert t.wires[..n] == s.wires && t.wires[n] == [] && [] + [Auth, Hello] == [Auth, Hello];
    assert u.wires == s.wires + [[Auth, Hello]];
    var rest := Carried(s.buffer) + (if s.dropped > 0 then [DropNotice(s.dropped)] else []);
    TransmitAllAppends(u, rest);
    assert u.wires[..n] == s.wires && u.wires[n] == [Auth, Hello];
    assert [Auth, Hello] + rest == Opening(waiting);
  }

  /** Opening changes the wires and resets everything else it touches. */
  lemma OpenFields(s: ClientState)
    ensures OnOpen(s) == s.(socket := Some(Open), delay := RECONNECT_INITIAL_DELAY_MS, attempt := false,
                            helloSent := true, buffer := [], dropped := 0, wires := OnOpen(s).wires)
  {
    var t := NewlyOpen(s);
    TransmitAllAppends(t, [Auth, Hello]);
    var u := TransmitAll(t, [Auth, Hello]).(helloSent := true);
    TransmitAllAppends(u, Carried(u.buffer) + (if u.dropped > 0 then [DropNotice(u.dropped)] else []));
  }

  lemma EnqueueKeepsLast(s: ClientState, waiting: seq<Event>, ev: Event)
    requires s.buffer == LastN(waiting, BUFFER_LIMIT) && s.dropped == |waiting| - |s.buffer|
    ensures var t := Enqueue(s, ev);
      t.buffer == LastN(waiting + [ev], BUFFER_LIMIT) && t.dropped == |waiting + [ev]| - |t.buffer|
  {
  }

  lemma StepRefines(s: ClientState, p: Spec, i: Input)
    requires Refines(s, p) && Enabled(s, i) && !(s.socket.Some? && s.timer.Some?)
    ensures Refines(Step(s, i), SpecStep(p, i))
  {
    match i
    case Opened => OpenWritesOpening(s, p.waiting);
    case Send(ev) => if !p.open { EnqueueKeepsLast(s, p.waiting, ev); }
    case _ =>
  }

  /** Wire-trace refinement over every run, across any number of reconnects. */
  lemma {:induction false} WireTraceRefinesSpec(es: seq<Input>)
    requires EnabledRun(es)
    ensures Refines(Run(es), SpecRun(es))
  {
    if es != [] {
      var n := |es| - 1;
      WireTraceRefinesSpec(es[..n]);
      NeverTwoConnections(es[..n]);
      StepRefines(Run(es[..n]), SpecRun(es[..n]), es[n]);
    }
  }

  /* ---------- conservation and order ---------- */

  /** The events the application handed over. */
  function Accepted(es: seq<Input>): seq<Event> {
    if es == [] then []
    else
      var n := |es| - 1;
      Accepted(es[..n]) + (if es[n].Send? then [es[n].ev] else [])
  }

  function EventsOn(w: seq<Frame>): seq<Event> {
    if w == [] then []
    else
      var n := |w| - 1;
      EventsOn(w[..n]) + (if w[n].Carry? then [w[n].ev] else [])
  }

  function ReportedOn(w: seq<Frame>): nat {
    if w == [] then 0
    else
      var n := |w| - 1;
      ReportedOn(w[..n]) + (if w[n].DropNotice? then w[n].count else 0)
  }

  function AllEvents(wires: seq<seq<Frame>>): seq<Event> {
    if wires == [] then [] else AllEvents(wires[..|wires| - 1]) + EventsOn(wires[|wires| - 1])
  }

  function AllReported(wires: seq<seq<Frame>>): nat {
    if wires == [] then 0 else AllReported(wires[..|wires| - 1]) + ReportedOn(wires[|wires| - 1])
  }

  lemma {:induction false} WireConcat(a: seq<Frame>, b: seq<Frame>)
    ensures EventsOn(a + b) == EventsOn(a) + EventsOn(b)
    ensures ReportedOn(a + b) == ReportedOn(a) + ReportedOn(b)
    decreases |b|
  {
    if b == [] {
      assert a + b == a;
    } else {
      assert (a + b)[..|a + b| - 1] == a + b[..|b| - 1];
      WireConcat(a, b[..|b| - 1]);
    }
  }

  lemma {:induction false} CarriedEvents(evs: seq<Event>)
    ensures EventsOn(Carried(evs)) == evs && ReportedOn(Carried(evs)) == 0
  {
    if evs != [] {
      var n := |evs| - 1;
      CarriedEvents(evs[..n]);
      assert Carried(evs)[..n] == Carried(evs[..n]);
    }
  }

  lemma OneFrame(f: Frame)
    ensures EventsOn([f]) == (if f.Carry? then [f.ev] else [])
    ensures ReportedOn([f]) == (if f.DropNotice? then f.count else 0)
  {
    assert [f][..0] == [];
    assert EventsOn([f]) == EventsOn([f][..0]) + (if f.Carry? then [f.ev] else []);
  }

  lemma OpeningEvents(waiting: seq<Event>)
    ensures EventsOn(Opening(waiting)) == LastN(waiting, BUFFER_LIMIT)
    ensures ReportedOn(Opening(waiting)) == |waiting| - |LastN(waiting, BUFFER_LIMIT)|
  {
    var last := LastN(waiting, BUFFER_LIMIT);
    var notice := if |waiting| > BUFFER_LIMIT then [DropNotice(|waiting| - BUFFER_LIMIT)] else [];
    GreetingEvents();
    CarriedEvents(last);
    NoticeEvents(|waiting|);
    WireConcat([Auth, Hello], Carried(last));
    WireConcat([Auth, Hello] + Carried(last), notice);
    assert ([] + last) + [] == last;
  }

  lemma GreetingEvents()
    ensures EventsOn([Auth, Hello]) == [] && ReportedOn([Auth, Hello]) == 0
  {
    assert [Auth, Hello] == [Auth] + [Hello];
    WireConcat([Auth], [Hello]);
    OneFrame(Auth);
    OneFrame(Hello);
  }

  lemma NoticeEvents(n: nat)
    ensures var notice := if n > BUFFER_LIMIT then [DropNotice(n - BUFFER_LIMIT)] else [];
      EventsOn(notice) == [] && ReportedOn(notice) == if n > BUFFER_LIMIT then n - BUFFER_LIMIT else 0
  {
    if n > BUFFER_LIMIT {
      OneFrame(DropNotice(n - BUFFER_LIMIT));
    }
  }

  lemma AppendEvents(wires: seq<seq<Frame>>, f: Frame)
    requires wires != []
    ensures AllEvents(Append(wires, f)) == AllEvents(wires) + (if f.Carry? then [f.ev] else [])
    ensures AllReported(Append(wires, f)) == AllReported(wires) + (if f.DropNotice? then f.count else 0)
  {
    var n := |wires| - 1;
    WireConcat(wires[n], [f]);
    OneFrame(f);
    var w := Append(wires, f);
    assert w[..|w| - 1] == wires[..n] && w[|w| - 1] == wires[n] + [f];
    Associates(AllEvents(wires[..n]), EventsOn(wires[n]), EventsOn([f]));
  }

  /** What the specification has on the wires, plus what waits, accounts for everything accepted. */
  ghost predicate Balanced(p: Spec, accepted: seq<Event>) {
    && |accepted| == |AllEvents(p.wires)| + AllReported(p.wires) + |p.waiting|
    && Subsequence(AllEvents(p.wires) + p.waiting, accepted)
  }

  lemma SubsequenceSkip<T>(a: seq<T>, b: seq<T>, k: nat, all: seq<T>)
    requires k <= |b| && Subsequence(a + b, all)
    ensures Subsequence(a + b[k..], all)
  {
    SubsequenceRefl(a);
    SubsequenceRefl(b);
    SubsequenceDrop(b, b, k);
    SubsequenceConcat(a, a, b[k..], b);
    SubsequenceTransitive(a + b[k..], a + b, all);
  }

  lemma OpenedCounts(p: Spec)
    ensures var w, last := SpecStep(p, Opened).wires, LastN(p.waiting, BUFFER_LIMIT);
      && AllEvents(w) == AllEvents(p.wires) + last
      && AllReported(w) == AllReported(p.wires) + |p.waiting| - |last|
  {
    var w := p.wires + [Opening(p.waiting)];
    OpeningEvents(p.waiting);
    assert w[..|w| - 1] == p.wires;
  }

  lemma OpenedBalanced(p: Spec, accepted: seq<Event>)
    requires Balanced(p, accepted)
    ensures Balanced(SpecStep(p, Opened), accepted)
  {
    var w, last := SpecStep(p, Opened).wires, LastN(p.waiting, BUFFER_LIMIT);
    OpenedCounts(p);
    SubsequenceSkip(AllEvents(p.wires), p.waiting, |p.waiting| - |last|, accepted);
    assert p.waiting[|p.waiting| - |last|..] == last;
    assert AllEvents(w) + [] == AllEvents(w);
  }

  lemma SendBalanced(p: Spec, ev: Event, accepted: seq<Event>)
    requires Balanced(p, accepted) && (p.open ==> p.waiting == [] && p.wires != [])
    ensures Balanced(SpecStep(p, Send(ev)), accepted + [ev])
  {
    SubsequenceRefl([ev]);
    SubsequenceConcat(AllEvents(p.wires) + p.waiting, accepted, [ev], [ev]);
    assert (AllEvents(p.wires) + p.waiting) + [ev] == AllEvents(p.wires) + (p.waiting + [ev]);
    if p.open {
      AppendEvents(p.wires, Carry(ev));
      assert AllEvents(p.wires) + [] == AllEvents(p.wires);
      assert (AllEvents(p.wires) + [ev]) + [] == AllEvents(p.wires) + [ev];
    }
  }

  lemma RawBalanced(p: Spec, f: Frame, accepted: seq<Event>)
    requires Balanced(p, accepted) && (p.open ==> p.waiting == [] && p.wires != []) && !f.Carry? && !f.DropNotice?
    ensures Balanced(SpecStep(p, Raw(f)), accepted)
  {
    if p.open {
      AppendEvents(p.wires, f);
      assert AllEvents(p.wires) + [] == AllEvents(p.wires);
    }
  }

  lemma StepBalanced(s: ClientState, p: Spec, i: Input, accepted: seq<Event>)
    requires Refines(s, p) && Enabled(s, i) && Balanced(p, accepted)
    ensures Balanced(SpecStep(p, i), accepted + (if i.Send? then [i.ev] else []))
  {
    assert accepted + [] == accepted;
    match i
    case Opened => OpenedBalanced(p, accepted);
    case Send(ev) => SendBalanced(p, ev, accepted);
    case Raw(f) => RawBalanced(p, f, accepted);
    case _ =>
  }

  lemma {:induction false} RunBalanced(es: seq<Input>)
    requires EnabledRun(es)
    ensures Balanced(SpecRun(es), Accepted(es))
  {
    if es != [] {
      var n := |es| - 1;
      RunBalanced(es[..n]);
      WireTraceRefinesSpec(es[..n]);
      StepBalanced(Run(es[..n]), SpecRun(es[..n]), es[n], Accepted(es[..n]));
    }
  }

  /**
   Over every run: accepted = on the wire + buffered + dropped and not yet reported + reported, and the
   events on the wire followed by the buffer are in the order in which they were accepted.
   */
  lemma {:induction false} NothingLostUncounted(es: seq<Input>)
    requires EnabledRun(es)
    ensures var s := Run(es);
      && |Accepted(es)| == |AllEvents(s.wires)| + |s.buffer| + s.dropped + AllReported(s.wires)
      && Subsequence(AllEvents(s.wires) + s.buffer, Accepted(es))
      && |s.buffer| <= 200
      && (s.socket == Some(Open) ==> s.buffer == [] && s.dropped == 0)
  {
    var s, p := Run(es), SpecRun(es);
    WireTraceRefinesSpec(es);
    RunBalanced(es);
    SubsequenceSkip(AllEvents(p.wires), p.waiting, |p.waiting| - |s.buffer|, Accepted(es));
    assert p.waiting[|p.waiting| - |s.buffer|..] == s.buffer;
  }

  /* ---------- reconnecting ---------- */

  predicate Alive(s: ClientState) {
    s.socket.Some? != s.timer.Some?
  }

  /** At no time are there both a socket and an armed timer, so there are never two sockets. */
  lemma {:induction false} NeverTwoConnections(es: seq<Input>)
    requires EnabledRun(es)
    ensures !(Run(es).socket.Some? && Run(es).timer.Some?)
  {
    if es != [] {
      NeverTwoConnections(es[..|es| - 1]);
      StepKeepsOne(Run(es[..|es| - 1]), es[|es| - 1]);
    }
  }

  lemma StepKeepsOne(s: ClientState, i: Input)
    requires Enabled(s, i) && !(s.socket.Some? && s.timer.Some?)
    ensures !(Step(s, i).socket.Some? && Step(s, i).timer.Some?)
  {
    match i
    case Opened => OpenFields(s);
    case _ =>
  }

  /** The close event of a socket that connect() has meanwhile replaced: the handlers are still the client's. */
  function ReplacedCloses(s: ClientState): ClientState {
    s.(helloSent := false, timer := if s.timer.Some? then s.timer else Some(s.delay))
  }

  lemma CloseHandlerIsShared(s: ClientState)
    ensures OnClose(s) == ReplacedCloses(s).(socket := None)
  {
  }

  predicate Both(s: ClientState) {
    s.socket.Some? && s.timer.Some?
  }

  /** connect() ends with a socket and an armed timer, at once or when the replaced socket's close event comes. */
  predicate ConnectMakesBoth(s: ClientState) {
    var t := Step(s, Connect);
    Both(t) || (s.socket.Some? && Both(ReplacedCloses(t)))
  }

  /**
   The application's side of the bargain is exact: connect() keeps to one connection iff neither a timer is
   armed nor a socket still waits for its close event, as one does after disconnect().
   */
  lemma ConnectIsSafeExactlyWhenIdle(s: ClientState)
    ensures ConnectMakesBoth(s) <==> !Enabled(s, Connect)
    ensures s.socket.Some? ==> ConnectMakesBoth(Step(s, Disconnect))
  {
  }

  /** Inputs after which the client may be left with nothing. */
  predicate GivesUp(i: Input) {
    i.Disconnect? || i.ConnectThrows? || i.TimerFiresAndThrows?
  }

  lemma StaysAlive(s: ClientState, i: Input)
    requires Alive(s) && Enabled(s, i) && !GivesUp(i)
    ensures Alive(Step(s, i))
  {
    match i
    case Opened => OpenFields(s);
    case _ =>
  }

  /** Without disconnect() and a throwing constructor, one of the two exists from the first connect() on. */
  lemma {:induction false} AlwaysReconnecting(es: seq<Input>)
    requires EnabledRun(es) && |es| > 0 && es[0].Connect?
    requires forall i :: 0 <= i < |es| ==> !GivesUp(es[i])
    ensures Alive(Run(es))
  {
    var n := |es| - 1;
    if n == 0 {
      assert es[..0] == [] && Run(es[..0]) == INITIAL;
    } else {
      AlwaysReconnecting(es[..n]);
      StaysAlive(Run(es[..n]), es[n]);
    }
  }

  /** Once there is neither, only the application's own connect() brings a socket back, however long it takes. */
  lemma {:induction false} DeadUntilConnectForGood(es: seq<Input>, k: nat)
    requires EnabledRun(es) && k <= |es| && forall i :: k <= i < |es| ==> !es[i].Connect?
    requires Run(es[..k]).socket.None? && Run(es[..k]).timer.None?
    ensures Run(es).socket.None? && Run(es).timer.None?
    decreases |es|
  {
    if k == |es| {
      assert es[..k] == es;
    } else {
      var n := |es| - 1;
      assert es[..n][..k] == es[..k];
      DeadUntilConnectForGood(es[..n], k);
      DeadUntilConnect(Run(es[..n]), es[n]);
    }
  }

  lemma DeadUntilConnect(s: ClientState, i: Input)
    requires s.socket.None? && s.timer.None? && Enabled(s, i) && !i.Connect?
    ensures Step(s, i).socket.None? && Step(s, i).timer.None?
  {
  }

  /** disconnect() stops reconnecting exactly when no socket was still waiting for its close event. */
  lemma DisconnectStopsExactlyWhenIdle(s: ClientState)
    requires !(s.socket.Some? && s.timer.Some?)
    ensures var t := Step(s, Disconnect);
      && (s.socket.None? ==> t.socket.None? && t.timer.None?)
      && (s.socket.Some? ==> Enabled(t, Closed) && Step(t, Closed).timer == Some(s.delay)
                             && Step(Step(t, Closed), TimerFires).socket == Some(Connecting))
  {
  }

  /** A constructor that throws ends reconnecting: neither a socket nor a timer is left. */
  lemma ThrowingConstructorEndsIt(s: ClientState)
    requires s.socket.None? && s.timer.Some?
    ensures var t := Step(s, TimerFiresAndThrows); t.socket.None? && t.timer.None?
  {
  }

  /* ---------- which attempts fail ---------- */

  /** The attempt under way was started by the timer, and has not opened, failed or closed yet. */
  predicate Driven(es: seq<Input>) {
    es != [] &&
    var n := |es| - 1;
    match es[n]
    case TimerFires => true
    case Connect => false
    case Opened => false
    case Errored => false
    case Closed => false
    case _ => Driven(es[..n])
  }

  /** A timer-driven attempt fails by its first error before it opens, or by a throwing constructor. */
  predicate Fails(es: seq<Input>, i: nat)
    requires i < |es|
  {
    es[i].TimerFiresAndThrows? || (es[i].Errored? && Driven(es[..i]))
  }

  /** An attempt has failed since the catch handler last ran. */
  predicate CatchDue(es: seq<Input>) {
    es != [] &&
    var n := |es| - 1;
    Fails(es, n) || (!es[n].CatchRuns? && CatchDue(es[..n]))
  }

  /** Every failed timer-driven attempt reaches the catch handler; an error of the application's own call does not. */
  lemma {:induction false} CatchDueExactly(es: seq<Input>)
    requires EnabledRun(es)
    ensures Enabled(Run(es), CatchRuns) <==> CatchDue(es)
    ensures Run(es).socket.Some? ==> Run(es).attempt == Driven(es)
  {
    if es != [] {
      var n := |es| - 1;
      CatchDueExactly(es[..n]);
      AttemptStep(Run(es[..n]), es[n]);
    }
  }

  /** Inputs that neither start, end nor judge an attempt. */
  predicate Aside(i: Input) {
    i.ConnectThrows? || i.CloseBegins? || i.Disconnect? || i.Send? || i.Raw?
  }

  lemma AttemptStep(s: ClientState, i: Input)
    requires Enabled(s, i)
    ensures var t := Step(s, i);
      && (Aside(i) ==> t.rejected == s.rejected && t.attempt == s.attempt && t.socket.Some? == s.socket.Some?)
      && (i.Opened? ==> t.rejected == s.rejected && !t.attempt)
  {
    if i.Opened? {
      OpenFields(s);
    }
  }

  /* ---------- backoff ---------- */

  /** Catch handlers run since the last open. */
  function Caught(es: seq<Input>): nat {
    if es == [] then 0
    else
      var n := |es| - 1;
      if es[n].Opened? then 0 else Caught(es[..n]) + (if es[n].CatchRuns? then 1 else 0)
  }

  lemma DoubledPow(k: nat)
    ensures Doubled(Min(1_000 * Pow2(k), 30_000)) == Min(1_000 * Pow2(k + 1), 30_000)
  {
  }

  lemma {:induction false} DelayCountsHandlers(es: seq<Input>)
    requires EnabledRun(es)
    ensures Run(es).delay == Min(1_000 * Pow2(Caught(es)), 30_000)
  {
    if es != [] {
      var n := |es| - 1;
      DelayCountsHandlers(es[..n]);
      DoubledPow(Caught(es[..n]));
      if es[n].Opened? {
        OpenFields(Run(es[..n]));
      } else if !es[n].CatchRuns? {
        TransmitKeepsDelay(Run(es[..n]), es[n]);
      }
    }
  }

  lemma TransmitKeepsDelay(s: ClientState, i: Input)
    requires !i.Opened? && !i.CatchRuns?
    ensures Step(s, i).delay == s.delay
  {
  }

  /** Timer-driven attempts that failed since the last open. */
  function FailedAttempts(es: seq<Input>): nat {
    if es == [] then 0
    else
      var n := |es| - 1;
      if es[n].Opened? then 0 else FailedAttempts(es[..n]) + (if Fails(es, n) then 1 else 0)
  }

  /** A catch handler that is due runs before its socket opens or closes: it is a microtask. */
  ghost predicate HandlersPrompt(es: seq<Input>) {
    es != [] ==>
      var n := |es| - 1;
      HandlersPrompt(es[..n]) && (es[n].Opened? || es[n].Closed? ==> !CatchDue(es[..n]))
  }

  lemma {:induction false} NoFailureWhileDue(es: seq<Input>)
    requires EnabledRun(es) && HandlersPrompt(es) && CatchDue(es)
    ensures Run(es).timer.None? && !(Run(es).socket.Some? && Driven(es))
  {
    var n := |es| - 1;
    NeverTwoConnections(es[..n]);
    CatchDueExactly(es[..n]);
    if CatchDue(es[..n]) {
      NoFailureWhileDue(es[..n]);
    }
  }

  lemma {:induction false} FailuresAreCaught(es: seq<Input>)
    requires EnabledRun(es) && HandlersPrompt(es)
    ensures FailedAttempts(es) == Caught(es) + (if CatchDue(es) then 1 else 0)
  {
    if es != [] {
      var n := |es| - 1;
      FailuresAreCaught(es[..n]);
      CatchDueExactly(es[..n]);
      if CatchDue(es[..n]) {
        NoFailureWhileDue(es[..n]);
      }
    }
  }

  /**
   Over every run the delay, and with it the timer that a close arms, is min(1000 * 2^k, 30000) ms, where k
   counts the timer-driven attempts that failed since the last open.
   */
  lemma {:induction false} BackoffFormula(es: seq<Input>)
    requires EnabledRun(es) && HandlersPrompt(es) && !CatchDue(es)
    ensures Run(es).delay == Min(1_000 * Pow2(FailedAttempts(es)), 30_000)
    ensures es != [] && es[|es| - 1].Closed? ==> Run(es).timer == Some(Min(1_000 * Pow2(FailedAttempts(es)), 30_000))
  {
    DelayCountsHandlers(es);
    FailuresAreCaught(es);
    if es != [] {
      NeverTwoConnections(es[..|es| - 1]);
    }
  }
}
