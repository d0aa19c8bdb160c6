/** The PHP client: a strict handshake before anything else is sent, and a buffer that survives failed flushes. */
module PhpModel {
  import opened Common

  datatype Payload = Item(content: nat) | ControlResult(id: string, ok: bool)

  datatype Frame = Auth | Hello | Pong | Carry(p: Payload) | DropNotice(count: nat)

  datatype Incoming = AuthSuccess | Ping | ControlRequest(id: string, succeeds: bool) | Other

  datatype Config = Config(bufferLimit: nat, hasHandler: bool)

  /**
   `budget` is how many more sends the transport accepts on this connection before it throws. The last
   three fields are history: payloads taken on, payloads delivered for good, drops ever reported.
   */
  datatype PhpState = PhpState(
    up: bool, connected: bool, budget: nat, buffer: seq<Payload>, dropped: nat, sent: seq<Frame>,
    accepted: seq<Payload>, committed: seq<Payload>, reported: nat)

  const INITIAL := PhpState(false, false, 0, [], 0, [], [], [], 0)

  function Put(s: PhpState, f: Frame): PhpState
    requires s.budget > 0
  {
    s.(sent := s.sent + [f], budget := s.budget - 1)
  }

  function Shift(b: seq<Payload>): seq<Payload> {
    if b == [] then [] else b[1..]
  }

  /** enqueue() while not connected. */
  function Buffered(c: Config, s: PhpState, p: Payload): PhpState {
    var t := s.(accepted := s.accepted + [p]);
    if |s.buffer| >= c.bufferLimit then t.(buffer := Shift(s.buffer) + [p], dropped := s.dropped + 1)
    else t.(buffer := s.buffer + [p])
  }

  /** Handles messages until auth_success; false when they run out (the deadline) or a send throws. */
  function Wait(c: Config, s: PhpState, ms: seq<Incoming>): (PhpState, bool)
    decreases |ms|
  {
    if ms == [] then (s, false)
    else match ms[0]
      case AuthSuccess => (s, true)
      case Ping => if s.budget == 0 then (s, false) else Wait(c, Put(s, Pong), ms[1..])
      case ControlRequest(id, succeeds) =>
        Wait(c, if c.hasHandler then Buffered(c, s, ControlResult(id, succeeds)) else s, ms[1..])
      case Other => Wait(c, s, ms[1..])
  }

  function SendPayloads(s: PhpState, ps: seq<Payload>): (PhpState, bool)
    decreases |ps|
  {
    if ps == [] then (s, true)
    else if s.budget == 0 then (s, false)
    else SendPayloads(Put(s, Carry(ps[0])), ps[1..])
  }

  function Flush(s: PhpState): (PhpState, bool) {
    var (t, ok) := SendPayloads(s, s.buffer);
    if !ok then (t, false) else ReportDrops(t.(buffer := [], committed := t.committed + s.buffer))
  }

  function ReportDrops(s: PhpState): (PhpState, bool) {
    if s.dropped == 0 then (s, true)
    else if s.budget == 0 then (s, false)
    else (Put(s, DropNotice(s.dropped)).(dropped := 0, reported := s.reported + s.dropped), true)
  }

  function ConnectOnce(c: Config, s: PhpState, ms: seq<Incoming>, budget: nat): (PhpState, bool) {
    var begun := s.(up := true, connected := false, budget := budget, sent := []);
    if budget == 0 then (begun, false)
    else
      var (waited, authed) := Wait(c, Put(begun, Auth), ms);
      if !authed || waited.budget == 0 then (waited, false)
      else Flush(Put(waited, Hello).(connected := true))
  }

  function CloseSocket(s: PhpState): PhpState {
    s.(up := false, connected := false)
  }

  datatype Input =
    | Produce(p: Payload)
    | Attempt(ms: seq<Incoming>, budget: nat)
    | ConnectionLost

  function Step(c: Config, s: PhpState, i: Input): PhpState {
    match i
    case Produce(p) =>
      if s.connected && s.up then
        if s.budget == 0 then s
        else Put(s, Carry(p)).(accepted := s.accepted + [p], committed := s.committed + [p])
      else Buffered(c, s, p)
    case Attempt(ms, budget) =>
      if s.up then s
      else
        var (t, ok) := ConnectOnce(c, s, ms, budget);
        if ok then t else CloseSocket(t)
    case ConnectionLost => CloseSocket(s)
  }

  function Run(c: Config, es: seq<Input>): PhpState {
    if es == [] then INITIAL else Step(c, Run(c, es[..|es| - 1]), es[|es| - 1])
  }

  /* ---------- the handshake gate ---------- */

  function Pongs(n: nat): seq<Frame> {
    seq(n, i => Pong)
  }

  function Carried(ps: seq<Payload>): seq<Frame> {
    seq(|ps|, i requires 0 <= i < |ps| => Carry(ps[i]))
  }

  /** Pings that arrive before auth_success. */
  function PingsBefore(ms: seq<Incoming>): nat {
    if ms == [] || ms[0].AuthSuccess? then 0 else (if ms[0].Ping? then 1 else 0) + PingsBefore(ms[1..])
  }

  /** The control requests handled while waiting, in order: until auth_success, or the ping that cannot be answered. */
  function Handled(c: Config, ms: seq<Incoming>, pongs: nat): seq<Payload> {
    if ms == [] || ms[0].AuthSuccess? || (ms[0].Ping? && pongs == 0) then []
    else
      (if c.hasHandler && ms[0].ControlRequest? then [ControlResult(ms[0].id, ms[0].succeeds)] else [])
      + Handled(c, ms[1..], if ms[0].Ping? then pongs - 1 else pongs)
  }

  /** While waiting, only pongs are sent. */
  lemma {:induction false} WaitSendsOnlyPongs(c: Config, s: PhpState, ms: seq<Incoming>)
    ensures var t := Wait(c, s, ms).0;
      && |s.sent| <= |t.sent| && t.sent == s.sent + Pongs(|t.sent| - |s.sent|)
      && t.budget + |t.sent| == s.budget + |s.sent|
      && t.committed == s.committed && t.reported == s.reported && t.connected == s.connected && t.up == s.up
    decreases |ms|
  {
    if ms == [] || ms[0].AuthSuccess? {
    } else if ms[0].Ping? {
      if s.budget > 0 {
        WaitSendsOnlyPongs(c, Put(s, Pong), ms[1..]);
        var n := |Wait(c, s, ms).0.sent| - |s.sent|;
        assert Pongs(n) == [Pong] + Pongs(n - 1);
      }
    } else if ms[0].ControlRequest? && c.hasHandler {
      WaitSendsOnlyPongs(c, Buffered(c, s, ControlResult(ms[0].id, ms[0].succeeds)), ms[1..]);
    } else {
      WaitSendsOnlyPongs(c, s, ms[1..]);
    }
  }

  /** Every ping is answered, and waiting succeeds exactly by auth_success with all earlier pings answered. */
  lemma {:induction false} WaitSucceedsExactly(c: Config, s: PhpState, ms: seq<Incoming>)
    ensures var (t, ok) := Wait(c, s, ms);
      && (ok <==> AuthSuccess in ms && PingsBefore(ms) <= s.budget)
      && |t.sent| == |s.sent| + Min(PingsBefore(ms), s.budget)
    decreases |ms|
  {
    if ms != [] && !ms[0].AuthSuccess? {
      assert AuthSuccess in ms <==> AuthSuccess in ms[1..] by {
        assert ms == [ms[0]] + ms[1..];
      }
      if ms[0].Ping? {
        if s.budget > 0 { WaitSucceedsExactly(c, Put(s, Pong), ms[1..]); }
      } else if ms[0].ControlRequest? && c.hasHandler {
        WaitSucceedsExactly(c, Buffered(c, s, ControlResult(ms[0].id, ms[0].succeeds)), ms[1..]);
      } else {
        WaitSucceedsExactly(c, s, ms[1..]);
      }
    }
  }

  /** Every result produced while waiting goes to the buffer, whether or not the wait succeeds. */
  lemma {:induction false} WaitBuffersResults(c: Config, s: PhpState, ms: seq<Incoming>)
    ensures Wait(c, s, ms).0.accepted == s.accepted + Handled(c, ms, s.budget)
    decreases |ms|
  {
    if ms == [] || ms[0].AuthSuccess? || (ms[0].Ping? && s.budget == 0) {
      assert s.accepted + [] == s.accepted;
    } else if ms[0].Ping? {
      WaitBuffersResults(c, Put(s, Pong), ms[1..]);
      assert [] + Handled(c, ms[1..], s.budget - 1) == Handled(c, ms[1..], s.budget - 1);
    } else if ms[0].ControlRequest? && c.hasHandler {
      var p := ControlResult(ms[0].id, ms[0].succeeds);
      WaitBuffersResults(c, Buffered(c, s, p), ms[1..]);
      Associates(s.accepted, [p], Handled(c, ms[1..], s.budget));
    } else {
      WaitBuffersResults(c, s, ms[1..]);
      assert [] + Handled(c, ms[1..], s.budget) == Handled(c, ms[1..], s.budget);
    }
  }

  /** A flush that the transport cuts short has sent a prefix of the payloads and touched nothing else. */
  lemma {:induction false} SendsPrefix(s: PhpState, ps: seq<Payload>)
    ensures var (t, ok) := SendPayloads(s, ps);
      && ok == (|ps| <= s.budget)
      && t == s.(sent := s.sent + Take(Carried(ps), s.budget), budget := if ok then s.budget - |ps| else 0)
    decreases |ps|
  {
    if ps != [] && s.budget > 0 {
      SendsPrefix(Put(s, Carry(ps[0])), ps[1..]);
      assert Carried(ps) == [Carry(ps[0])] + Carried(ps[1..]);
      assert Take(Carried(ps), s.budget) == [Carry(ps[0])] + Take(Carried(ps[1..]), s.budget - 1);
      assert s.sent + ([Carry(ps[0])] + Take(Carried(ps[1..]), s.budget - 1)) ==
             (s.sent + [Carry(ps[0])]) + Take(Carried(ps[1..]), s.budget - 1);
    } else if ps == [] {
      assert s.sent + [] == s.sent;
    } else {
      assert s.sent + Take(Carried(ps), 0) == s.sent;
    }
  }

  /** The waiting phase of a connection attempt. */
  function Waiting(c: Config, s: PhpState, ms: seq<Incoming>, budget: nat): (PhpState, bool)
    requires budget > 0
  {
    Wait(c, Put(s.(up := true, connected := false, budget := budget, sent := []), Auth), ms)
  }

  function FlushScript(s: PhpState): seq<Frame> {
    Carried(s.buffer) + (if s.dropped > 0 then [DropNotice(s.dropped)] else [])
  }

  /** Flushing sends as much of buffer-then-notice as the transport takes. */
  lemma FlushSendsScript(s: PhpState)
    ensures var (t, ok) := Flush(s);
      && t.sent == s.sent + Take(FlushScript(s), s.budget)
      && ok == (|FlushScript(s)| <= s.budget)
      && t.connected == s.connected && t.up == s.up && t.accepted == s.accepted
      && (if |s.buffer| <= s.budget then t.buffer == [] && t.committed == s.committed + s.buffer
          else t.buffer == s.buffer && t.committed == s.committed)
      && t.reported == s.reported + (if ok then s.dropped else 0)
      && t.dropped == (if ok then 0 else s.dropped)
  {
    SendsPrefix(s, s.buffer);
    if |s.buffer| <= s.budget {
      if s.dropped == 0 {
        assert FlushScript(s) == Carried(s.buffer);
      } else if s.budget == |s.buffer| {
        assert Take(FlushScript(s), s.budget) == Carried(s.buffer);
      } else {
        assert (s.sent + Carried(s.buffer)) + [DropNotice(s.dropped)] == s.sent + FlushScript(s);
      }
    } else {
      assert Take(FlushScript(s), s.budget) == Take(Carried(s.buffer), s.budget);
    }
  }

  /**
   The gate: an attempt's frames are auth, a pong per ping, and, only after auth_success, hello followed by
   what the transport takes of the buffer and the drop notice; results produced while waiting are in that
   buffer.
   */
  lemma HandshakeGate(c: Config, s: PhpState, ms: seq<Incoming>, budget: nat)
    requires budget > 0
    ensures var (waited, authed) := Waiting(c, s, ms, budget);
      var (t, ok) := ConnectOnce(c, s, ms, budget);
      && (authed <==> AuthSuccess in ms && PingsBefore(ms) <= budget - 1)
      && waited.sent == [Auth] + Pongs(Min(PingsBefore(ms), budget - 1))
      && waited.budget + |waited.sent| == budget
      && waited.accepted == s.accepted + Handled(c, ms, budget - 1)
      && (!authed || waited.budget == 0 ==> t == waited && !ok)
      && (authed && waited.budget > 0 ==>
            && t.sent == waited.sent + [Hello] + Take(FlushScript(waited), waited.budget - 1)
            && ok == (|FlushScript(waited)| <= waited.budget - 1))
  {
    var begun := Put(s.(up := true, connected := false, budget := budget, sent := []), Auth);
    WaitSendsOnlyPongs(c, begun, ms);
    WaitSucceedsExactly(c, begun, ms);
    WaitBuffersResults(c, begun, ms);
    var (waited, authed) := Waiting(c, s, ms, budget);
    assert [] + [Auth] == [Auth];
    if authed && waited.budget > 0 {
      FlushSendsScript(Put(waited, Hello).(connected := true));
    }
  }

  /** A send failure before the whole buffer is out leaves the buffer whole; after it, the buffer is empty. */
  lemma FailedFlushKeepsBuffer(c: Config, s: PhpState, ms: seq<Incoming>, budget: nat)
    requires budget > 0
    requires var (waited, authed) := Waiting(c, s, ms, budget); authed && waited.budget > 0
    ensures var waited := Waiting(c, s, ms, budget).0;
      var t := ConnectOnce(c, s, ms, budget).0;
      if |waited.buffer| < waited.budget then t.buffer == [] && t.committed == s.committed + waited.buffer
      else t.buffer == waited.buffer && t.committed == s.committed
  {
    WaitSendsOnlyPongs(c, Put(s.(up := true, connected := false, budget := budget, sent := []), Auth), ms);
    FlushSendsScript(Put(Waiting(c, s, ms, budget).0, Hello).(connected := true));
  }

  /* ---------- no payload is lost uncounted ---------- */

  /** The payloads the application and its control handler have handed over. */
  function Produced(c: Config, es: seq<Input>): seq<Payload> {
    if es == [] then []
    else
      var n := |es| - 1;
      Produced(c, es[..n]) +
      match es[n]
      case Produce(p) => [p]
      case Attempt(ms, budget) => if Run(c, es[..n]).up || budget == 0 then [] else Handled(c, ms, budget - 1)
      case ConnectionLost => []
  }

  /** Those for which the caller saw the transport throw. */
  function Refused(c: Config, es: seq<Input>): seq<Payload> {
    if es == [] then []
    else
      var n := |es| - 1;
      var s := Run(c, es[..n]);
      Refused(c, es[..n]) + (if es[n].Produce? && s.connected && s.up && s.budget == 0 then [es[n].p] else [])
  }

  /** What a step puts on the wire; an attempt begins a new connection. */
  function Frames(s: PhpState, i: Input, t: PhpState): seq<Frame> {
    if i.Attempt? && !s.up then t.sent
    else if |s.sent| <= |t.sent| then t.sent[|s.sent|..]
    else []
  }

  function Wire(c: Config, es: seq<Input>): seq<Frame> {
    if es == [] then []
    else
      var n := |es| - 1;
      Wire(c, es[..n]) + Frames(Run(c, es[..n]), es[n], Run(c, es))
  }

  function PayloadsOn(fs: seq<Frame>): seq<Payload> {
    if fs == [] then []
    else
      var n := |fs| - 1;
      PayloadsOn(fs[..n]) + (if fs[n].Carry? then [fs[n].p] else [])
  }

  function ReportedOn(fs: seq<Frame>): nat {
    if fs == [] then 0
    else
      var n := |fs| - 1;
      ReportedOn(fs[..n]) + (if fs[n].DropNotice? then fs[n].count else 0)
  }

  lemma {:induction false} FramesConcat(a: seq<Frame>, b: seq<Frame>)
    ensures PayloadsOn(a + b) == PayloadsOn(a) + PayloadsOn(b)
    ensures ReportedOn(a + b) == ReportedOn(a) + ReportedOn(b)
    decreases |b|
  {
    if b == [] {
      assert a + b == a;
    } else {
      var n := |b| - 1;
      assert (a + b)[..|a + b| - 1] == a + b[..n];
      FramesConcat(a, b[..n]);
    }
  }

  lemma OneFrame(f: Frame)
    ensures PayloadsOn([f]) == if f.Carry? then [f.p] else []
    ensures ReportedOn([f]) == if f.DropNotice? then f.count else 0
  {
    assert [f][..0] == [];
    assert PayloadsOn([f]) == PayloadsOn([f][..0]) + (if f.Carry? then [f.p] else []);
  }

  lemma {:induction false} CarriedPayloads(ps: seq<Payload>)
    ensures PayloadsOn(Carried(ps)) == ps && ReportedOn(Carried(ps)) == 0
  {
    if ps != [] {
      var n := |ps| - 1;
      CarriedPayloads(ps[..n]);
      assert Carried(ps)[..n] == Carried(ps[..n]);
    }
  }

  lemma {:induction false} PongsCarryNothing(n: nat)
    ensures PayloadsOn(Pongs(n)) == [] && ReportedOn(Pongs(n)) == 0
  {
    if n > 0 {
      PongsCarryNothing(n - 1);
      assert Pongs(n)[..n - 1] == Pongs(n - 1);
    }
  }

  /** The part of buffer-then-notice that the transport takes. */
  lemma TakenOfScript(s: PhpState, k: nat)
    ensures var taken := Take(FlushScript(s), k);
      PayloadsOn(taken) == Take(s.buffer, k) && ReportedOn(taken) == if |FlushScript(s)| <= k then s.dropped else 0
  {
    var kept := Take(s.buffer, k);
    CarriedPayloads(kept);
    if s.dropped > 0 && |s.buffer| < k {
      FramesConcat(Carried(kept), [DropNotice(s.dropped)]);
      OneFrame(DropNotice(s.dropped));
      assert kept + [] == kept;
    } else {
      assert Take(FlushScript(s), k) == Carried(kept);
    }
  }

  /** Nothing but auth, pongs and hello goes out before the flush. */
  lemma GreetingCarriesNothing(n: nat)
    ensures var waiting := [Auth] + Pongs(n);
      && PayloadsOn(waiting) == [] && ReportedOn(waiting) == 0
      && PayloadsOn(waiting + [Hello]) == [] && ReportedOn(waiting + [Hello]) == 0
  {
    OneFrame(Auth);
    OneFrame(Hello);
    PongsCarryNothing(n);
    FramesConcat([Auth], Pongs(n));
    FramesConcat([Auth] + Pongs(n), [Hello]);
  }

  /** The wire of an attempt, by what its flush delivered. */
  lemma AttemptCarries(c: Config, s: PhpState, ms: seq<Incoming>, budget: nat)
    ensures var t := ConnectOnce(c, s, ms, budget).0;
      && t.reported == s.reported + ReportedOn(t.sent)
      && s.committed <= t.committed && Subsequence(t.committed[|s.committed|..], PayloadsOn(t.sent))
  {
    var t := ConnectOnce(c, s, ms, budget).0;
    SubsequenceEmpty(PayloadsOn(t.sent));
    if budget > 0 {
      var (waited, authed) := Waiting(c, s, ms, budget);
      HandshakeGate(c, s, ms, budget);
      WaitSendsOnlyPongs(c, Put(s.(up := true, connected := false, budget := budget, sent := []), Auth), ms);
      GreetingCarriesNothing(Min(PingsBefore(ms), budget - 1));
      if authed && waited.budget > 0 {
        FlushCarries(waited, t);
      }
    }
  }

  lemma FlushCarries(waited: PhpState, t: PhpState)
    requires waited.budget > 0 && t == Flush(Put(waited, Hello).(connected := true)).0
    requires PayloadsOn(waited.sent + [Hello]) == [] && ReportedOn(waited.sent + [Hello]) == 0
    ensures t.reported == waited.reported + ReportedOn(t.sent)
    ensures waited.committed <= t.committed && Subsequence(t.committed[|waited.committed|..], PayloadsOn(t.sent))
  {
    var k := waited.budget - 1;
    var taken := Take(FlushScript(waited), k);
    FlushSendsScript(Put(waited, Hello).(connected := true));
    TakenOfScript(waited, k);
    FramesConcat(waited.sent + [Hello], taken);
    assert PayloadsOn(t.sent) == [] + Take(waited.buffer, k) == Take(waited.buffer, k);
    SubsequenceEmpty(PayloadsOn(t.sent));
    SubsequenceRefl(waited.buffer);
  }

  ghost predicate Retained(s: PhpState) {
    && |s.accepted| == |s.committed| + |s.buffer| + s.dropped + s.reported
    && Subsequence(s.committed + s.buffer, s.accepted)
  }

  lemma BufferedRetains(c: Config, s: PhpState, p: Payload)
    requires Retained(s) && c.bufferLimit > 0
    ensures Retained(Buffered(c, s, p))
  {
    KeepNewest(s.committed, s.buffer, if |s.buffer| >= c.bufferLimit then 1 else 0, p, s.accepted);
  }

  lemma {:induction false} WaitRetains(c: Config, s: PhpState, ms: seq<Incoming>)
    requires Retained(s) && c.bufferLimit > 0
    ensures Retained(Wait(c, s, ms).0)
    decreases |ms|
  {
    if ms != [] {
      match ms[0]
      case AuthSuccess =>
      case Ping => if s.budget > 0 { WaitRetains(c, Put(s, Pong), ms[1..]); }
      case ControlRequest(id, succeeds) =>
        if c.hasHandler {
          BufferedRetains(c, s, ControlResult(id, succeeds));
          WaitRetains(c, Buffered(c, s, ControlResult(id, succeeds)), ms[1..]);
        } else {
          WaitRetains(c, s, ms[1..]);
        }
      case Other => WaitRetains(c, s, ms[1..]);
    }
  }

  lemma AttemptRetains(c: Config, s: PhpState, ms: seq<Incoming>, budget: nat)
    requires Retained(s) && c.bufferLimit > 0
    ensures var (t, ok) := ConnectOnce(c, s, ms, budget);
      && Retained(t) && (ok ==> t.up && t.buffer == [])
      && t.accepted == s.accepted + (if budget == 0 then [] else Handled(c, ms, budget - 1))
  {
    if budget == 0 {
      assert s.accepted + [] == s.accepted;
    } else {
      var begun := Put(s.(up := true, connected := false, budget := budget, sent := []), Auth);
      HandshakeGate(c, s, ms, budget);
      WaitRetains(c, begun, ms);
      WaitSendsOnlyPongs(c, begun, ms);
      var (waited, authed) := Waiting(c, s, ms, budget);
      if authed && waited.budget > 0 {
        FlushSendsScript(Put(waited, Hello).(connected := true));
        assert waited.committed + waited.buffer == (waited.committed + waited.buffer) + [];
      }
    }
  }

  /** What is connected has nothing buffered, so that what is sent directly is in order. */
  ghost predicate Sound(s: PhpState) {
    Retained(s) && (s.connected ==> s.up && s.buffer == [])
  }

  lemma DirectIsSound(s: PhpState, p: Payload)
    requires Sound(s) && s.connected && s.budget > 0
    ensures Sound(Put(s, Carry(p)).(accepted := s.accepted + [p], committed := s.committed + [p]))
  {
    SubsequenceRefl([p]);
    assert s.committed + [] == s.committed && (s.committed + [p]) + [] == s.committed + [p];
    SubsequenceConcat(s.committed, s.accepted, [p], [p]);
  }

  lemma StepIsSound(c: Config, s: PhpState, i: Input)
    requires Sound(s) && c.bufferLimit > 0
    ensures Sound(Step(c, s, i))
  {
    match i
    case Produce(p) =>
      if s.connected {
        if s.budget > 0 { DirectIsSound(s, p); }
      } else {
        BufferedIsSound(c, s, p);
      }
    case Attempt(ms, budget) => if !s.up { AttemptIsSound(c, s, ms, budget); }
    case ConnectionLost => ClosedIsSound(s);
  }

  lemma BufferedIsSound(c: Config, s: PhpState, p: Payload)
    requires Sound(s) && !s.connected && c.bufferLimit > 0
    ensures Sound(Buffered(c, s, p))
  {
    BufferedRetains(c, s, p);
  }

  lemma ClosedIsSound(s: PhpState)
    requires Retained(s)
    ensures Sound(CloseSocket(s))
  {
  }

  lemma AttemptIsSound(c: Config, s: PhpState, ms: seq<Incoming>, budget: nat)
    requires Sound(s) && c.bufferLimit > 0 && !s.up
    ensures Sound(Step(c, s, Attempt(ms, budget)))
  {
    var (t, ok) := ConnectOnce(c, s, ms, budget);
    AttemptRetains(c, s, ms, budget);
    if !ok {
      ClosedIsSound(t);
    }
  }

  lemma StepTakesOn(c: Config, s: PhpState, i: Input)
    requires Sound(s) && c.bufferLimit > 0
    ensures Step(c, s, i).accepted == s.accepted +
            match i
            case Produce(p) => if s.connected && s.up && s.budget == 0 then [] else [p]
            case Attempt(ms, budget) => if s.up || budget == 0 then [] else Handled(c, ms, budget - 1)
            case ConnectionLost => []
  {
    assert s.accepted + [] == s.accepted;
    if i.Attempt? {
      AttemptTakesOn(c, s, i.ms, i.budget);
    }
  }

  lemma AttemptTakesOn(c: Config, s: PhpState, ms: seq<Incoming>, budget: nat)
    requires Sound(s) && c.bufferLimit > 0
    ensures Step(c, s, Attempt(ms, budget)).accepted ==
            s.accepted + (if s.up || budget == 0 then [] else Handled(c, ms, budget - 1))
  {
    assert s.accepted + [] == s.accepted;
    AttemptRetains(c, s, ms, budget);
  }

  lemma DirectDelivers(s: PhpState, p: Payload, t: PhpState)
    requires s.budget > 0 && t == Put(s, Carry(p)).(accepted := s.accepted + [p], committed := s.committed + [p])
    ensures t.reported == s.reported && ReportedOn(Frames(s, Produce(p), t)) == 0
    ensures Subsequence(t.committed[|s.committed|..], PayloadsOn(Frames(s, Produce(p), t)))
  {
    OneFrame(Carry(p));
    SubsequenceRefl([p]);
    assert Frames(s, Produce(p), t) == [Carry(p)];
    assert t.committed[|s.committed|..] == [p];
  }

  /** A step delivers only what it puts on the wire, and reports only by its notices. */
  lemma StepDelivers(c: Config, s: PhpState, i: Input)
    ensures var t := Step(c, s, i);
      && t.reported == s.reported + ReportedOn(Frames(s, i, t))
      && s.committed <= t.committed && Subsequence(t.committed[|s.committed|..], PayloadsOn(Frames(s, i, t)))
  {
    var t := Step(c, s, i);
    if i.Produce? && s.connected && s.up && s.budget > 0 {
      DirectDelivers(s, i.p, t);
    } else if i.Attempt? && !s.up {
      AttemptCarries(c, s, i.ms, i.budget);
    } else {
      assert t.committed == s.committed && t.reported == s.reported && Frames(s, i, t) == [];
    }
  }

  lemma {:induction false} RunIsSound(c: Config, es: seq<Input>)
    requires c.bufferLimit > 0
    ensures Sound(Run(c, es))
  {
    if es != [] {
      RunIsSound(c, es[..|es| - 1]);
      StepIsSound(c, Run(c, es[..|es| - 1]), es[|es| - 1]);
    }
  }

  lemma {:induction false} TakenOnOrRefused(c: Config, es: seq<Input>)
    requires c.bufferLimit > 0
    ensures Subsequence(Run(c, es).accepted, Produced(c, es))
    ensures |Produced(c, es)| == |Run(c, es).accepted| + |Refused(c, es)|
  {
    if es != [] {
      var n := |es| - 1;
      var s := Run(c, es[..n]);
      TakenOnOrRefused(c, es[..n]);
      RunIsSound(c, es[..n]);
      StepTakesOn(c, s, es[n]);
      var more := Run(c, es).accepted[|s.accepted|..];
      var handed := Produced(c, es)[|Produced(c, es[..n])|..];
      SubsequenceEmpty(handed);
      SubsequenceRefl(handed);
      SubsequenceConcat(s.accepted, Produced(c, es[..n]), more, handed);
    }
  }

  lemma {:induction false} DeliveredIsOnTheWire(c: Config, es: seq<Input>)
    ensures Subsequence(Run(c, es).committed, PayloadsOn(Wire(c, es)))
    ensures Run(c, es).reported == ReportedOn(Wire(c, es))
  {
    if es != [] {
      var n := |es| - 1;
      var s, t := Run(c, es[..n]), Run(c, es);
      DeliveredIsOnTheWire(c, es[..n]);
      StepDelivers(c, s, es[n]);
      FramesConcat(Wire(c, es[..n]), Frames(s, es[n], t));
      SubsequenceConcat(s.committed, PayloadsOn(Wire(c, es[..n])),
                        t.committed[|s.committed|..], PayloadsOn(Frames(s, es[n], t)));
      assert t.committed == s.committed + t.committed[|s.committed|..];
    }
  }

  /**
   Over every run of sends, connection attempts that may fail anywhere, and losses: what was produced is
   delivered, or buffered, or dropped and counted, or was refused to the caller's face; what is delivered is
   on the wire, followed by the buffer it is in the order of production, and the counts reported are those
   on the wire.
   */
  lemma NothingIsLostUncounted(c: Config, es: seq<Input>)
    requires c.bufferLimit > 0
    ensures var s := Run(c, es);
      && |Produced(c, es)| == |s.committed| + |s.buffer| + s.dropped + s.reported + |Refused(c, es)|
      && Subsequence(s.committed + s.buffer, Produced(c, es))
      && Subsequence(s.committed, PayloadsOn(Wire(c, es))) && s.reported == ReportedOn(Wire(c, es))
      && (s.connected ==> s.buffer == [])
  {
    RunIsSound(c, es);
    TakenOnOrRefused(c, es);
    DeliveredIsOnTheWire(c, es);
    var s := Run(c, es);
    SubsequenceTransitive(s.committed + s.buffer, s.accepted, Produced(c, es));
  }

  /** In particular a connected client sends each payload at once, and nothing else with it. */
  lemma ConnectedSendsAtOnce(c: Config, es: seq<Input>, p: Payload)
    requires Run(c, es).connected && Run(c, es).up && Run(c, es).budget > 0
    ensures Wire(c, es + [Produce(p)]) == Wire(c, es) + [Carry(p)]
    ensures Run(c, es + [Produce(p)]).buffer == Run(c, es).buffer
  {
    assert (es + [Produce(p)])[..|es|] == es;
  }

  /* ---------- the buffer holds the newest ---------- */

  /** The attempt authenticates and its transport takes the hello and everything that is buffered by then. */
  predicate FlushesAll(c: Config, s: PhpState, ms: seq<Incoming>, budget: nat) {
    && budget > 0 && AuthSuccess in ms
    && 1 + PingsBefore(ms) + 1 + |LastN(s.buffer + Handled(c, ms, budget - 1), c.bufferLimit)| <= budget
  }

  /** Everything taken on since the last flush that got the whole buffer out. */
  function Unsent(c: Config, es: seq<Input>): seq<Payload> {
    if es == [] then []
    else
      var n := |es| - 1;
      var s, before := Run(c, es[..n]), Unsent(c, es[..n]);
      match es[n]
      case Produce(p) => if s.connected && s.up then before else before + [p]
      case Attempt(ms, budget) =>
        if s.up || budget == 0 then before
        else if FlushesAll(c, s, ms, budget) then []
        else before + Handled(c, ms, budget - 1)
      case ConnectionLost => before
  }

  lemma NewestOfConcat(all: seq<Payload>, more: seq<Payload>, n: nat)
    ensures LastN(LastN(all, n) + more, n) == LastN(all + more, n)
  {
  }

  lemma BufferedIsNewest(c: Config, s: PhpState, p: Payload)
    requires c.bufferLimit > 0 && |s.buffer| <= c.bufferLimit
    ensures Buffered(c, s, p).buffer == LastN(s.buffer + [p], c.bufferLimit)
  {
  }

  lemma {:induction false} WaitKeepsNewest(c: Config, s: PhpState, ms: seq<Incoming>)
    requires c.bufferLimit > 0 && |s.buffer| <= c.bufferLimit
    ensures Wait(c, s, ms).0.buffer == LastN(s.buffer + Handled(c, ms, s.budget), c.bufferLimit)
    decreases |ms|
  {
    if ms == [] || ms[0].AuthSuccess? || (ms[0].Ping? && s.budget == 0) {
      assert s.buffer + [] == s.buffer;
    } else if ms[0].Ping? {
      WaitKeepsNewest(c, Put(s, Pong), ms[1..]);
      assert [] + Handled(c, ms[1..], s.budget - 1) == Handled(c, ms[1..], s.budget - 1);
    } else if ms[0].ControlRequest? && c.hasHandler {
      var p := ControlResult(ms[0].id, ms[0].succeeds);
      var later := Handled(c, ms[1..], s.budget);
      BufferedIsNewest(c, s, p);
      WaitKeepsNewest(c, Buffered(c, s, p), ms[1..]);
      NewestOfConcat(s.buffer + [p], later, c.bufferLimit);
      Associates(s.buffer, [p], later);
    } else {
      WaitKeepsNewest(c, s, ms[1..]);
      assert [] + Handled(c, ms[1..], s.budget) == Handled(c, ms[1..], s.budget);
    }
  }

  lemma AttemptKeepsNewest(c: Config, s: PhpState, ms: seq<Incoming>, budget: nat)
    requires c.bufferLimit > 0 && |s.buffer| <= c.bufferLimit && budget > 0
    ensures ConnectOnce(c, s, ms, budget).0.buffer ==
            if FlushesAll(c, s, ms, budget) then [] else LastN(s.buffer + Handled(c, ms, budget - 1), c.bufferLimit)
  {
    var begun := Put(s.(up := true, connected := false, budget := budget, sent := []), Auth);
    HandshakeGate(c, s, ms, budget);
    WaitKeepsNewest(c, begun, ms);
    var (waited, authed) := Waiting(c, s, ms, budget);
    if authed && waited.budget > 0 {
      FailedFlushKeepsBuffer(c, s, ms, budget);
    }
  }

  /** Over every run the buffer holds the newest of what is unsent, as many as the limit allows. */
  lemma {:induction false} BufferHoldsNewest(c: Config, es: seq<Input>)
    requires c.bufferLimit > 0
    ensures Run(c, es).buffer == LastN(Unsent(c, es), c.bufferLimit)
  {
    if es != [] {
      var n := |es| - 1;
      var s, before := Run(c, es[..n]), Unsent(c, es[..n]);
      BufferHoldsNewest(c, es[..n]);
      match es[n]
      case Produce(p) =>
        BufferedIsNewest(c, s, p);
        NewestOfConcat(before, [p], c.bufferLimit);
      case Attempt(ms, budget) =>
        if !s.up && budget > 0 {
          AttemptKeepsNewest(c, s, ms, budget);
          NewestOfConcat(before, Handled(c, ms, budget - 1), c.bufferLimit);
        }
      case ConnectionLost =>
    }
  }

  /* ---------- when the client is connected ---------- */

  /** The attempt authenticates and its transport takes the hello, the buffer, and the drop notice if there is one. */
  predicate Succeeds(c: Config, s: PhpState, ms: seq<Incoming>, budget: nat)
    requires budget > 0
  {
    var waiting := s.buffer + Handled(c, ms, budget - 1);
    && FlushesAll(c, s, ms, budget)
    && (s.dropped > 0 || |waiting| > c.bufferLimit ==>
          1 + PingsBefore(ms) + 1 + |LastN(waiting, c.bufferLimit)| + 1 <= budget)
  }

  /** Connected by a successful attempt, until the connection is lost; attempts in between are not made. */
  predicate ConnectedAfter(c: Config, es: seq<Input>) {
    es != [] &&
    var n := |es| - 1;
    match es[n]
    case Produce(_) => ConnectedAfter(c, es[..n])
    case Attempt(ms, budget) =>
      ConnectedAfter(c, es[..n]) || (budget > 0 && Succeeds(c, Run(c, es[..n]), ms, budget))
    case ConnectionLost => false
  }

  function Excess(n: nat, limit: nat): nat {
    if n > limit then n - limit else 0
  }

  lemma BufferedDropsExcess(c: Config, s: PhpState, p: Payload)
    requires c.bufferLimit > 0 && |s.buffer| <= c.bufferLimit
    ensures var t := Buffered(c, s, p);
      && t.dropped == s.dropped + Excess(|s.buffer| + 1, c.bufferLimit)
      && |t.buffer| == Min(|s.buffer| + 1, c.bufferLimit) && t.budget == s.budget
  {
  }

  lemma {:induction false} WaitDropsExcess(c: Config, s: PhpState, ms: seq<Incoming>)
    requires c.bufferLimit > 0 && |s.buffer| <= c.bufferLimit
    ensures Wait(c, s, ms).0.dropped == s.dropped + Excess(|s.buffer| + |Handled(c, ms, s.budget)|, c.bufferLimit)
    decreases |ms|
  {
    if ms == [] || ms[0].AuthSuccess? || (ms[0].Ping? && s.budget == 0) {
    } else if ms[0].Ping? {
      WaitDropsExcess(c, Put(s, Pong), ms[1..]);
    } else if ms[0].ControlRequest? && c.hasHandler {
      var p := ControlResult(ms[0].id, ms[0].succeeds);
      BufferedDropsExcess(c, s, p);
      WaitDropsExcess(c, Buffered(c, s, p), ms[1..]);
    } else {
      WaitDropsExcess(c, s, ms[1..]);
    }
  }

  /** What the waiting phase leaves for the flush. */
  lemma WaitedState(c: Config, s: PhpState, ms: seq<Incoming>, budget: nat)
    requires c.bufferLimit > 0 && |s.buffer| <= c.bufferLimit && budget > 0
    ensures var waited := Waiting(c, s, ms, budget).0;
      var all := s.buffer + Handled(c, ms, budget - 1);
      && waited.up
      && waited.buffer == LastN(all, c.bufferLimit)
      && waited.dropped == s.dropped + Excess(|all|, c.bufferLimit)
  {
    var begun := Put(s.(up := true, connected := false, budget := budget, sent := []), Auth);
    WaitKeepsNewest(c, begun, ms);
    WaitDropsExcess(c, begun, ms);
    WaitSendsOnlyPongs(c, begun, ms);
  }

  lemma AttemptSucceedsExactly(c: Config, s: PhpState, ms: seq<Incoming>, budget: nat)
    requires c.bufferLimit > 0 && |s.buffer| <= c.bufferLimit && budget > 0
    ensures var (t, ok) := ConnectOnce(c, s, ms, budget);
      (ok <==> Succeeds(c, s, ms, budget)) && (ok ==> t.up && t.connected)
  {
    HandshakeGate(c, s, ms, budget);
    WaitedState(c, s, ms, budget);
    var (waited, authed) := Waiting(c, s, ms, budget);
    assert |FlushScript(waited)| == |waited.buffer| + (if waited.dropped > 0 then 1 else 0);
    if authed && waited.budget > 0 {
      FlushSendsScript(Put(waited, Hello).(connected := true));
    }
  }

  /** Over every run: the client has a socket exactly while it is connected, and exactly then it sends directly. */
  lemma {:induction false} ConnectedExactly(c: Config, es: seq<Input>)
    requires c.bufferLimit > 0
    ensures Run(c, es).up == Run(c, es).connected == ConnectedAfter(c, es)
  {
    if es != [] {
      var n := |es| - 1;
      ConnectedExactly(c, es[..n]);
      BufferHoldsNewest(c, es[..n]);
      if es[n].Attempt? && es[n].budget > 0 {
        AttemptSucceedsExactly(c, Run(c, es[..n]), es[n].ms, es[n].budget);
      }
    }
  }
}
