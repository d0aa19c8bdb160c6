/** Control requests: a conservation law for the pending table, and who gets which result. */
module HostControl {
  import opened Common
  import opened Routing
  import opened HostModel
  import opened HostCoherence
  import opened HostFanOut

  /* ---------- the ledger and what it adds up to ---------- */

  type Book = map<ControlId, Pending>

  /** The effect of one entry on the open requests. */
  function Apply(b: Book, x: LedgerEntry): Book {
    match x
    case Registered(id, p) => b[id := p]
    case Answered(id, _) => b - {id}
    case Dropped(ids) => b - ids
  }

  /** Nothing is answered or dropped that is not open, and an answer goes to the registrant. */
  predicate Proper(b: Book, x: LedgerEntry) {
    match x
    case Registered(_, _) => true
    case Answered(id, to) => id in b && b[id].replyTo == to
    case Dropped(ids) => ids <= b.Keys
  }

  /** The open requests after the entries `l`, kept by book-keeping alone. */
  function Replay(b: Book, l: seq<LedgerEntry>): Book {
    if l == [] then b else Apply(Replay(b, l[..|l| - 1]), l[|l| - 1])
  }

  ghost predicate Disciplined(b: Book, l: seq<LedgerEntry>) {
    l != [] ==> Disciplined(b, l[..|l| - 1]) && Proper(Replay(b, l[..|l| - 1]), l[|l| - 1])
  }

  lemma {:induction false} ReplayConcat(b: Book, l: seq<LedgerEntry>, k: seq<LedgerEntry>)
    requires Disciplined(b, l) && Disciplined(Replay(b, l), k)
    ensures Replay(b, l + k) == Replay(Replay(b, l), k) && Disciplined(b, l + k)
    decreases |k|
  {
    if k == [] {
      assert l + k == l;
    } else {
      var n := |k| - 1;
      assert (l + k)[..|l + k| - 1] == l + k[..n];
      ReplayConcat(b, l, k[..n]);
    }
  }

  function Registrations(l: seq<LedgerEntry>): nat {
    Count(l, (x: LedgerEntry) => x.Registered?)
  }

  function Answers(l: seq<LedgerEntry>): nat {
    Count(l, (x: LedgerEntry) => x.Answered?)
  }

  function DroppedTotal(l: seq<LedgerEntry>): nat {
    if l == [] then 0
    else
      var n := |l| - 1;
      DroppedTotal(l[..n]) + (if l[n].Dropped? then |l[n].ids| else 0)
  }

  /** Registrations that displaced an open request with the same id. */
  function Overwrites(b: Book, l: seq<LedgerEntry>): nat {
    if l == [] then 0
    else
      var n := |l| - 1;
      Overwrites(b, l[..n]) + (if l[n].Registered? && l[n].id in Replay(b, l[..n]) then 1 else 0)
  }

  lemma {:induction false} BooksBalance(b: Book, l: seq<LedgerEntry>)
    requires Disciplined(b, l)
    ensures |b| + Registrations(l) == Answers(l) + |Replay(b, l)| + DroppedTotal(l) + Overwrites(b, l)
  {
    if l != [] {
      var n := |l| - 1;
      var before := Replay(b, l[..n]);
      BooksBalance(b, l[..n]);
      match l[n]
      case Registered(id, p) =>
        assert before[id := p].Keys == before.Keys + {id};
      case Answered(id, _) =>
        assert (before - {id}).Keys == before.Keys - {id};
      case Dropped(ids) => DropShrinks(before, ids);
    }
  }

  lemma DropShrinks(b: Book, ids: set<ControlId>)
    requires ids <= b.Keys
    ensures |b - ids| + |ids| == |b|
  {
    assert (b - ids).Keys == b.Keys - ids;
    assert |b.Keys - ids| == |b.Keys| - |ids|;
  }

  /* ---------- every step is booked ---------- */

  ghost predicate Booked(s: HostState, o: Outcome) {
    Disciplined(s.pending, o.log.ledger) && o.state.pending == Replay(s.pending, o.log.ledger)
  }

  lemma OneEntry(b: Book, x: LedgerEntry)
    ensures Replay(b, [x]) == Apply(b, x)
    ensures Disciplined(b, [x]) <==> Proper(b, x)
  {
    assert [x][..0] == [];
    assert Replay(b, []) == b && Disciplined(b, []);
  }

  lemma SettleBooked(s: HostState, id: ControlId, m: Msg)
    ensures Booked(s, Settle(s, id, m))
  {
    if id in s.pending {
      OneEntry(s.pending, Answered(id, s.pending[id].replyTo));
    }
  }

  lemma BridgeRequestBooked(s: HostState, ws: nat, m: Msg, now: nat)
    ensures Booked(s, BridgeRequest(s, ws, m, now))
  {
    OneEntry(s.pending, Registered(m.id, Pending(ws, FromBridge)));
  }

  lemma ConsumerRequestBooked(s: HostState, ws: nat, m: Msg, now: nat)
    ensures Booked(s, ConsumerRequest(s, ws, m, now))
  {
    var id := RequestId(m, if ws in s.conns then s.conns[ws].clientId else "", now);
    OneEntry(s.pending, Registered(id, Pending(ws, FromConsumer)));
  }

  lemma CloseBooked(s: HostState, ws: nat)
    requires ws in s.conns
    ensures Booked(s, OnClose(s, ws))
  {
    OneEntry(s.pending, Dropped(Abandoned(s.pending, ws)));
  }

  lemma {:induction false} DeliverAllQuiet(s: HostState, sid: nat, ms: seq<Msg>, now: nat)
    ensures var o := DeliverAll(s, sid, ms, now);
      o.log.ledger == [] && o.log.mail == [] && o.log.shots == [] && o.state == s.(window := o.state.window)
  {
    if ms != [] {
      DeliverAllQuiet(s, sid, ms[..|ms| - 1], now);
    }
  }

  lemma NothingBooked(s: HostState, o: Outcome)
    requires o.log.ledger == [] && o.state.pending == s.pending
    ensures Booked(s, o)
  {
  }

  lemma BridgeFrameBooked(s: HostState, ws: nat, m: Msg, now: nat)
    requires ws in s.conns
    ensures Booked(s, BridgeFrame(s, ws, m, now))
  {
    if m.typ == "hello" {
      NothingBooked(s, BridgeFrame(s, ws, m, now));
    } else if m.typ == "control_result" {
      SettleBooked(s, m.id, m);
    } else if m.typ == "control_request" {
      BridgeRequestBooked(s, ws, m, now);
    } else if m.typ == "screenshot" {
      ScreenshotChanges(s, ws, m, now);
      NothingBooked(s, Screenshot(s, ws, m, now));
    } else {
      NothingBooked(s, Deliver(s, Ws(ws), m, now));
    }
  }

  lemma ConsumerFrameBooked(s: HostState, ws: nat, m: Msg, now: nat)
    requires ws in s.conns
    ensures Booked(s, ConsumerFrame(s, ws, m, now))
  {
    SettleBooked(s, m.id, m);
    ConsumerRequestBooked(s, ws, m, now);
    if m.typ == "subscribe" {
      NothingBooked(s, ConsumerFrame(s, ws, m, now));
    }
  }

  lemma FrameBooked(s: HostState, secret: string, ws: nat, m: Msg, now: nat)
    requires ws in s.conns
    ensures Booked(s, OnMessage(s, secret, ws, m, now))
  {
    if s.conns[ws].role.None? {
      NothingBooked(s, Authenticate(s, secret, ws, m, now));
    } else if m.typ == "ping" {
      NothingBooked(s, OnMessage(s, secret, ws, m, now));
    } else if s.conns[ws].role == Some("bridge") {
      BridgeFrameBooked(s, ws, m, now);
    } else if s.conns[ws].role == Some("consumer") {
      ConsumerFrameBooked(s, ws, m, now);
    }
  }

  lemma SessionBooked(s: HostState, r: HttpRequest, now: nat)
    requires r.Hello? || r.Events? || r.ControlResult? || r.Poll? || r.Heartbeat?
    requires r.sid in s.sessions
    ensures Booked(s, OnSession(s, r, now))
  {
    match r
    case Events(sid, ms) => DeliverAllQuiet(s, sid, ms, now);
    case ControlResult(_, id, ok, payload) => SettleBooked(s, id, ResultMsg(id, ok, payload));
    case Hello(_, _) => NothingBooked(s, OnSession(s, r, now));
    case Poll(_) => NothingBooked(s, OnSession(s, r, now));
    case Heartbeat(_) => NothingBooked(s, OnSession(s, r, now));
  }

  lemma HttpBooked(s: HostState, secret: string, r: HttpRequest, now: nat)
    ensures Booked(s, OnHttp(s, secret, r, now))
  {
    if (r.Hello? || r.Events? || r.ControlResult? || r.Poll? || r.Heartbeat?) && r.sid in s.sessions {
      SessionBooked(Touch(s, r.sid, now), r, now);
    } else {
      NothingBooked(s, OnHttp(s, secret, r, now));
    }
  }

  lemma StepBooked(s: HostState, secret: string, e: Input)
    ensures Booked(s, Step(s, secret, e))
  {
    match e.what
    case Message(ws, m) => if ws in s.conns { FrameBooked(s, secret, ws, m, e.now); }
    case Closed(ws) => if ws in s.conns { CloseBooked(s, ws); }
    case HttpCall(r) => HttpBooked(s, secret, r, e.now);
    case _ => NothingBooked(s, Step(s, secret, e));
  }

  lemma {:induction false} RunBooked(s: HostState, secret: string, es: seq<Input>)
    ensures Booked(s, Run(s, secret, es))
  {
    if es != [] {
      var n := |es| - 1;
      var before := Run(s, secret, es[..n]);
      RunBooked(s, secret, es[..n]);
      StepBooked(before.state, secret, es[n]);
      ReplayConcat(s.pending, before.log.ledger, Step(before.state, secret, es[n]).log.ledger);
    }
  }

  /** Conservation over every run: registrations = forwarded + still pending + dropped by a close + overwritten. */
  lemma {:induction false} ControlIsConserved(start: nat, secret: string, es: seq<Input>)
    ensures var o := Run(Initial(start), secret, es);
      Registrations(o.log.ledger) ==
      Answers(o.log.ledger) + |o.state.pending| + DroppedTotal(o.log.ledger) + Overwrites(map[], o.log.ledger)
  {
    RunBooked(Initial(start), secret, es);
    BooksBalance(map[], Run(Initial(start), secret, es).log.ledger);
  }

  /* ---------- at most one answer, to the latest registrant ---------- */

  predicate Concerns(x: LedgerEntry, id: ControlId) {
    match x
    case Registered(i, _) => i == id
    case Answered(i, _) => i == id
    case Dropped(ids) => id in ids
  }

  /** Entry `j` opened the request `id` for `to`, and nothing happened to that id in l[j+1..k]. */
  ghost predicate OpenSince(l: seq<LedgerEntry>, j: nat, k: nat, id: ControlId, to: nat) {
    && j < k <= |l|
    && l[j].Registered? && l[j].id == id && l[j].pending.replyTo == to
    && forall i :: j < i < k ==> !Concerns(l[i], id)
  }

  lemma {:induction false} OpenMeansRegistered(l: seq<LedgerEntry>, id: ControlId)
    requires id in Replay(map[], l)
    ensures exists j :: OpenSince(l, j, |l|, id, Replay(map[], l)[id].replyTo)
  {
    var n := |l| - 1;
    if l[n].Registered? && l[n].id == id {
      assert OpenSince(l, n, |l|, id, l[n].pending.replyTo);
    } else {
      OpenMeansRegistered(l[..n], id);
      var j :| OpenSince(l[..n], j, n, id, Replay(map[], l[..n])[id].replyTo);
      assert OpenSince(l, j, |l|, id, Replay(map[], l)[id].replyTo);
    }
  }

  lemma {:induction false} DisciplinedPrefix(b: Book, l: seq<LedgerEntry>, k: nat)
    requires Disciplined(b, l) && k <= |l|
    ensures Disciplined(b, l[..k])
    decreases |l|
  {
    if k == |l| {
      assert l[..k] == l;
    } else {
      assert l[..|l| - 1][..k] == l[..k];
      DisciplinedPrefix(b, l[..|l| - 1], k);
    }
  }

  lemma AnswerHasRegistration(l: seq<LedgerEntry>, k: nat)
    requires Disciplined(map[], l) && k < |l| && l[k].Answered?
    ensures exists j :: OpenSince(l, j, k, l[k].id, l[k].replyTo)
  {
    DisciplinedPrefix(map[], l, k + 1);
    assert l[..k + 1][..k] == l[..k];
    OpenMeansRegistered(l[..k], l[k].id);
    var j :| OpenSince(l[..k], j, k, l[k].id, l[k].replyTo);
    assert OpenSince(l, j, k, l[k].id, l[k].replyTo);
  }

  /** Every answer settles the latest registration of its id, which nothing has settled before. */
  lemma {:induction false} AnsweredOnceToLatest(start: nat, secret: string, es: seq<Input>, k: nat)
    requires var l := Run(Initial(start), secret, es).log.ledger; k < |l| && l[k].Answered?
    ensures var l := Run(Initial(start), secret, es).log.ledger;
      exists j :: OpenSince(l, j, k, l[k].id, l[k].replyTo)
  {
    RunBooked(Initial(start), secret, es);
    AnswerHasRegistration(Run(Initial(start), secret, es).log.ledger, k);
  }

  /** Two answers never settle the same registration. */
  lemma NoRegistrationAnsweredTwice(l: seq<LedgerEntry>, j: nat, k1: nat, k2: nat, id: ControlId, to1: nat, to2: nat)
    requires k1 < |l| && k2 < |l| && l[k1] == Answered(id, to1) && l[k2] == Answered(id, to2)
    requires OpenSince(l, j, k1, id, to1) && OpenSince(l, j, k2, id, to2)
    ensures k1 == k2
  {
    assert Concerns(l[k1], id) && Concerns(l[k2], id);
  }

  /** What is booked as answered is what was put on the wire, in the same order. */
  function WireAnswers(wire: seq<Sent>): seq<(ControlId, nat)> {
    if wire == [] then []
    else
      var n := |wire| - 1;
      WireAnswers(wire[..n]) + (if wire[n].frame.Answer? then [(wire[n].frame.m.id, wire[n].ws)] else [])
  }

  function LedgerAnswers(l: seq<LedgerEntry>): seq<(ControlId, nat)> {
    if l == [] then []
    else
      var n := |l| - 1;
      LedgerAnswers(l[..n]) + (if l[n].Answered? then [(l[n].id, l[n].replyTo)] else [])
  }

  lemma {:induction false} WireAnswersConcat(a: seq<Sent>, b: seq<Sent>)
    ensures WireAnswers(a + b) == WireAnswers(a) + WireAnswers(b)
    decreases |b|
  {
    if b == [] {
      assert a + b == a;
    } else {
      assert (a + b)[..|a + b| - 1] == a + b[..|b| - 1];
      WireAnswersConcat(a, b[..|b| - 1]);
    }
  }

  lemma {:induction false} LedgerAnswersConcat(a: seq<LedgerEntry>, b: seq<LedgerEntry>)
    ensures LedgerAnswers(a + b) == LedgerAnswers(a) + LedgerAnswers(b)
    decreases |b|
  {
    if b == [] {
      assert a + b == a;
    } else {
      assert (a + b)[..|a + b| - 1] == a + b[..|b| - 1];
      LedgerAnswersConcat(a, b[..|b| - 1]);
    }
  }

  lemma {:induction false} NoWireAnswers(wire: seq<Sent>)
    requires forall x :: x in wire ==> !x.frame.Answer?
    ensures WireAnswers(wire) == []
  {
    if wire != [] {
      NoWireAnswers(wire[..|wire| - 1]);
    }
  }

  lemma {:induction false} DeliverAllFrames(s: HostState, sid: nat, ms: seq<Msg>, now: nat)
    ensures forall x :: x in DeliverAll(s, sid, ms, now).log.wire ==>
              x.frame.Event? && exists i :: 0 <= i < |ms| && x.frame.m == Defaulted(ms[i], now)
  {
    if ms != [] {
      var n := |ms| - 1;
      DeliverAllFrames(s, sid, ms[..n], now);
      var before := DeliverAll(s, sid, ms[..n], now);
      forall x | x in DeliverAll(s, sid, ms, now).log.wire
        ensures x.frame.Event? && exists i :: 0 <= i < |ms| && x.frame.m == Defaulted(ms[i], now)
      {
        if x in before.log.wire {
          var i :| 0 <= i < n && x.frame.m == Defaulted(ms[..n][i], now);
          assert x.frame.m == Defaulted(ms[i], now);
        } else {
          assert x.frame.m == Defaulted(ms[n], now);
        }
      }
    }
  }

  /** How a step that settles `id` with `m` looks; every other step sends no answer and books none. */
  predicate Settles(s: HostState, e: Input) {
    || (e.what.Message? && e.what.m.typ == "control_result"
        && (HasRole(s.conns, e.what.ws, "bridge") || HasRole(s.conns, e.what.ws, "consumer")))
    || (e.what.HttpCall? && e.what.r.ControlResult? && e.what.r.sid in s.sessions)
  }

  function Settled(e: Input): (ControlId, Msg)
    requires e.what.Message? || (e.what.HttpCall? && e.what.r.ControlResult?)
  {
    match e.what
    case Message(_, m) => (m.id, m)
    case HttpCall(r) => (r.id, ResultMsg(r.id, r.ok, r.payload))
  }

  /** Whichever path brings a result, it goes to the socket that registered its id, and the entry is closed. */
  lemma ResultReachesRegistrant(s: HostState, secret: string, e: Input)
    requires Settles(s, e)
    ensures var (id, m) := Settled(e);
      var o := Step(s, secret, e);
      && m.id == id && m.typ == "control_result"
      && (e.what.Message? ==> m == e.what.m)
      && (e.what.HttpCall? ==> id == e.what.r.id && m.rest.ok == e.what.r.ok && m.rest.payload == e.what.r.payload)
      && if id in s.pending && IsOpen(s.conns, s.pending[id].replyTo) then
        && o.log.wire == [Sent(s.pending[id].replyTo, Answer(m))]
        && o.log.ledger == [Answered(id, s.pending[id].replyTo)]
        && o.state.pending == s.pending - {id}
      else o.log.wire == [] && o.log.ledger == [] && o.state.pending == s.pending
  {
    assert "bridge"[0] != "consumer"[0] && "control_result"[0] == 'c';
    assert "ping"[0] == 'p' && "hello"[0] == 'h' && "subscribe"[0] == 's';
    assert |"control_result"| == 14 && |"control_request"| == 15 && |"control"| == 7;
  }

  lemma OthersSendNoAnswers(s: HostState, secret: string, e: Input)
    requires !Settles(s, e)
    ensures forall x :: x in Step(s, secret, e).log.wire ==> !x.frame.Answer?
    ensures forall x :: x in Step(s, secret, e).log.ledger ==> !x.Answered?
  {
    match e.what
    case Message(ws, m) => if ws in s.conns { FrameSendsNoAnswers(s, secret, ws, m, e.now); }
    case HttpCall(r) => HttpSendsNoAnswers(s, secret, r, e.now);
    case _ =>
  }

  ghost predicate AnswersNobody(o: Outcome) {
    && (forall x :: x in o.log.wire ==> !x.frame.Answer?)
    && (forall x :: x in o.log.ledger ==> !x.Answered?)
  }

  lemma FrameSendsNoAnswers(s: HostState, secret: string, ws: nat, m: Msg, now: nat)
    requires ws in s.conns && !Settles(s, Input(now, Message(ws, m)))
    ensures AnswersNobody(OnMessage(s, secret, ws, m, now))
  {
    if s.conns[ws].role == Some("bridge") && m.typ != "ping" {
      BridgeSendsNoAnswers(s, ws, m, now);
    } else if s.conns[ws].role == Some("consumer") && m.typ != "ping" {
      ConsumerSendsNoAnswers(s, ws, m, now);
    }
  }

  lemma BridgeSendsNoAnswers(s: HostState, ws: nat, m: Msg, now: nat)
    requires ws in s.conns && m.typ != "control_result"
    ensures AnswersNobody(BridgeFrame(s, ws, m, now))
  {
  }

  lemma ConsumerSendsNoAnswers(s: HostState, ws: nat, m: Msg, now: nat)
    requires ws in s.conns && m.typ != "control_result"
    ensures AnswersNobody(ConsumerFrame(s, ws, m, now))
  {
    RequestFramesNoEvents(Targets(s), m.(typ := "control_request", id := RequestId(m, s.conns[ws].clientId, now)));
  }

  lemma HttpSendsNoAnswers(s: HostState, secret: string, r: HttpRequest, now: nat)
    requires !Settles(s, Input(now, HttpCall(r)))
    ensures AnswersNobody(OnHttp(s, secret, r, now))
  {
    if r.Events? && r.sid in s.sessions {
      DeliverAllFrames(Touch(s, r.sid, now), r.sid, r.events, now);
      DeliverAllQuiet(Touch(s, r.sid, now), r.sid, r.events, now);
    }
  }

  lemma {:induction false} NoLedgerAnswers(l: seq<LedgerEntry>)
    requires forall x :: x in l ==> !x.Answered?
    ensures LedgerAnswers(l) == []
  {
    if l != [] {
      NoLedgerAnswers(l[..|l| - 1]);
    }
  }

  lemma StepAnswersMatch(s: HostState, secret: string, e: Input)
    ensures var o := Step(s, secret, e); WireAnswers(o.log.wire) == LedgerAnswers(o.log.ledger)
  {
    var o := Step(s, secret, e);
    if Settles(s, e) {
      ResultReachesRegistrant(s, secret, e);
      var id := Settled(e).0;
      if o.log.wire != [] {
        var to, m := s.pending[id].replyTo, Settled(e).1;
        assert [Sent(to, Answer(m))][..0] == [] && [Answered(id, to)][..0] == [];
        assert WireAnswers([Sent(to, Answer(m))]) == WireAnswers([]) + [(id, to)];
        assert LedgerAnswers([Answered(id, to)]) == LedgerAnswers([]) + [(id, to)];
      }
    } else {
      OthersSendNoAnswers(s, secret, e);
      NoWireAnswers(o.log.wire);
      NoLedgerAnswers(o.log.ledger);
    }
  }

  /** The ledger's answers are the result frames on the wire: nothing forwarded unbooked or booked unsent. */
  lemma {:induction false} LedgerIsWire(s: HostState, secret: string, es: seq<Input>)
    ensures var o := Run(s, secret, es); WireAnswers(o.log.wire) == LedgerAnswers(o.log.ledger)
  {
    if es != [] {
      var n := |es| - 1;
      var before := Run(s, secret, es[..n]);
      LedgerIsWire(s, secret, es[..n]);
      StepAnswersMatch(before.state, secret, es[n]);
      WireAnswersConcat(before.log.wire, Step(before.state, secret, es[n]).log.wire);
      LedgerAnswersConcat(before.log.ledger, Step(before.state, secret, es[n]).log.ledger);
    }
  }

  /* ---------- results never outnumber requests ---------- */

  /** What the receiver of the frame takes for the result of request `id`. */
  predicate LooksLikeResult(f: Frame, id: ControlId) {
    match f
    case Answer(m) => m.id == id
    case NoTarget(i) => i == id
    case Event(m) => m.typ == "control_result" && m.id == id
    case _ => false
  }

  function Results(wire: seq<Sent>, id: ControlId): nat {
    Count(wire, (x: Sent) => LooksLikeResult(x.frame, id))
  }

  /** The id of the control request the input makes, if it makes one. */
  function Requested(s: HostState, e: Input): Option<ControlId> {
    if e.what.Message? && HasRole(s.conns, e.what.ws, "bridge") && e.what.m.typ == "control_request" then
      Some(e.what.m.id)
    else if e.what.Message? && HasRole(s.conns, e.what.ws, "consumer")
            && (e.what.m.typ == "control_request" || e.what.m.typ == "control") then
      Some(RequestId(e.what.m, s.conns[e.what.ws].clientId, e.now))
    else None
  }

  function Requests(s: HostState, secret: string, es: seq<Input>, id: ControlId): nat {
    if es == [] then 0
    else
      var n := |es| - 1;
      Requests(s, secret, es[..n], id) + (if Requested(Run(s, secret, es[..n]).state, es[n]) == Some(id) then 1 else 0)
  }

  function Open(s: HostState, id: ControlId): nat {
    if id in s.pending then 1 else 0
  }

  /** HTTP bridges post results to the result route, not among their events. */
  predicate PostsNoResults(e: Input) {
    e.what.HttpCall? && e.what.r.Events? ==>
      forall i :: 0 <= i < |e.what.r.events| ==> e.what.r.events[i].typ != "control_result"
  }

  lemma {:induction false} NoResults(wire: seq<Sent>, id: ControlId)
    requires forall x :: x in wire ==> !LooksLikeResult(x.frame, id)
    ensures Results(wire, id) == 0
  {
    if wire != [] {
      NoResults(wire[..|wire| - 1], id);
    }
  }

  lemma OneResult(x: Sent, id: ControlId)
    ensures Results([x], id) == if LooksLikeResult(x.frame, id) then 1 else 0
  {
    CountOne(x, (y: Sent) => LooksLikeResult(y.frame, id));
  }

  lemma SettleCounts(s: HostState, secret: string, e: Input, id: ControlId)
    requires Settles(s, e)
    ensures var o := Step(s, secret, e); Results(o.log.wire, id) + Open(o.state, id) == Open(s, id)
  {
    ResultReachesRegistrant(s, secret, e);
    var o := Step(s, secret, e);
    if o.log.wire != [] {
      OneResult(o.log.wire[0], id);
    }
  }

  lemma BridgeRequestCounts(s: HostState, ws: nat, m: Msg, now: nat, id: ControlId)
    ensures var o := BridgeRequest(s, ws, m, now);
      Results(o.log.wire, id) + Open(o.state, id) <= Open(s, id) + (if m.id == id then 1 else 0)
  {
    var o := BridgeRequest(s, ws, m, now);
    if o.log.ledger == [] {
      OneResult(Sent(ws, NoTarget(m.id)), id);
    } else {
      NoResults(o.log.wire, id);
    }
  }

  lemma ConsumerRequestCounts(s: HostState, ws: nat, m: Msg, now: nat, id: ControlId)
    requires ws in s.conns
    ensures var o := ConsumerRequest(s, ws, m, now);
      Results(o.log.wire, id) + Open(o.state, id) <=
      Open(s, id) + (if RequestId(m, s.conns[ws].clientId, now) == id then 1 else 0)
  {
    var o := ConsumerRequest(s, ws, m, now);
    var rid := RequestId(m, s.conns[ws].clientId, now);
    if Targets(s) == [] {
      OneResult(Sent(ws, NoTarget(rid)), id);
    } else {
      RequestFramesNoEvents(Targets(s), m.(typ := "control_request", id := rid));
      NoResults(o.log.wire, id);
    }
  }

  /** Steps that neither settle nor request leave the id alone and send no result for it. */
  lemma OthersCount(s: HostState, secret: string, e: Input, id: ControlId)
    requires !Settles(s, e) && Requested(s, e).None? && PostsNoResults(e)
    ensures var o := Step(s, secret, e); Results(o.log.wire, id) == 0 && Open(o.state, id) <= Open(s, id)
  {
    match e.what
    case Message(ws, m) =>
      QuietFrames(s, secret, ws, m, e.now, id);
      NoResults(Step(s, secret, e).log.wire, id);
    case HttpCall(r) => HttpCount(s, secret, r, e.now, id);
    case _ => TimersCount(s, secret, e, id);
  }

  lemma TimersCount(s: HostState, secret: string, e: Input, id: ControlId)
    requires !e.what.Message? && !e.what.HttpCall?
    ensures var o := Step(s, secret, e); o.log.wire == [] && Open(o.state, id) <= Open(s, id)
  {
    match e.what
    case Closed(ws) => if ws in s.conns { CloseCount(s, ws, id); }
    case PruneTick => assert RemoveSessions(s, Expired(s, e.now)).pending == s.pending;
    case _ =>
  }

  lemma CloseCount(s: HostState, ws: nat, id: ControlId)
    requires ws in s.conns
    ensures var o := OnClose(s, ws); o.log.wire == [] && Open(o.state, id) <= Open(s, id)
  {
  }

  lemma HttpCount(s: HostState, secret: string, r: HttpRequest, now: nat, id: ControlId)
    requires var e := Input(now, HttpCall(r)); !Settles(s, e) && PostsNoResults(e)
    ensures var o := OnHttp(s, secret, r, now); Results(o.log.wire, id) == 0 && o.state.pending == s.pending
  {
    if r.Events? && r.sid in s.sessions {
      var t := Touch(s, r.sid, now);
      DeliverAllFrames(t, r.sid, r.events, now);
      DeliverAllQuiet(t, r.sid, r.events, now);
      forall x | x in DeliverAll(t, r.sid, r.events, now).log.wire
        ensures !LooksLikeResult(x.frame, id)
      {
        var i :| 0 <= i < |r.events| && x.frame.m == Defaulted(r.events[i], now);
        assert "log"[0] == 'l' && "control_result"[0] == 'c';
      }
      NoResults(DeliverAll(t, r.sid, r.events, now).log.wire, id);
    }
  }

  lemma QuietFrames(s: HostState, secret: string, ws: nat, m: Msg, now: nat, id: ControlId)
    requires var e := Input(now, Message(ws, m)); !Settles(s, e) && Requested(s, e).None?
    ensures var o := Step(s, secret, Input(now, Message(ws, m)));
      o.state.pending == s.pending && forall x :: x in o.log.wire ==> !LooksLikeResult(x.frame, id)
  {
    if ws !in s.conns {
    } else if s.conns[ws].role.None? {
      AuthenticateChanges(s, secret, ws, m, now);
      NewcomersGetNoResult(s, secret, ws, m, now, id);
    } else if m.typ == "ping" {
    } else if s.conns[ws].role == Some("bridge") {
      QuietBridgeFrame(s, ws, m, now, id);
    } else if s.conns[ws].role == Some("consumer") {
      QuietConsumerFrame(s, ws, m, now, id);
    }
  }

  lemma NewcomersGetNoResult(s: HostState, secret: string, ws: nat, m: Msg, now: nat, id: ControlId)
    requires ws in s.conns
    ensures forall x :: x in Authenticate(s, secret, ws, m, now).log.wire ==> !LooksLikeResult(x.frame, id)
  {
  }

  lemma QuietConsumerFrame(s: HostState, ws: nat, m: Msg, now: nat, id: ControlId)
    requires ws in s.conns && m.typ != "control_result" && m.typ != "control_request" && m.typ != "control"
    ensures var o := ConsumerFrame(s, ws, m, now);
      o.state.pending == s.pending && forall x :: x in o.log.wire ==> !LooksLikeResult(x.frame, id)
  {
  }

  lemma QuietBridgeFrame(s: HostState, ws: nat, m: Msg, now: nat, id: ControlId)
    requires ws in s.conns && m.typ != "control_result" && m.typ != "control_request"
    ensures var o := BridgeFrame(s, ws, m, now);
      o.state.pending == s.pending && forall x :: x in o.log.wire ==> !LooksLikeResult(x.frame, id)
  {
    if m.typ == "screenshot" {
      assert Completed(m, now).typ == m.typ;
    }
  }

  lemma StepCounts(s: HostState, secret: string, e: Input, id: ControlId)
    requires PostsNoResults(e)
    ensures var o := Step(s, secret, e);
      Results(o.log.wire, id) + Open(o.state, id) <= Open(s, id) + (if Requested(s, e) == Some(id) then 1 else 0)
  {
    if Settles(s, e) {
      SettleCounts(s, secret, e, id);
    } else if Requested(s, e).Some? {
      RequestStep(s, secret, e);
      if HasRole(s.conns, e.what.ws, "bridge") && e.what.m.typ == "control_request" {
        BridgeRequestCounts(s, e.what.ws, e.what.m, e.now, id);
      } else {
        ConsumerRequestCounts(s, e.what.ws, e.what.m, e.now, id);
      }
    } else {
      OthersCount(s, secret, e, id);
    }
  }

  lemma RequestStep(s: HostState, secret: string, e: Input)
    requires Requested(s, e).Some?
    ensures Step(s, secret, e) ==
            if HasRole(s.conns, e.what.ws, "bridge") && e.what.m.typ == "control_request"
            then BridgeRequest(s, e.what.ws, e.what.m, e.now)
            else ConsumerRequest(s, e.what.ws, e.what.m, e.now)
  {
    assert "bridge"[0] != "consumer"[0] && "control"[0] == 'c' && "control_request"[0] == 'c' && "ping"[0] == 'p'
        && "hello"[0] == 'h' && "subscribe"[0] == 's';
    assert |"control_result"| == 14 && |"control_request"| == 15;
  }

  /** For every id and every run: results sent plus requests still open never exceed requests made. */
  lemma {:induction false} ResultsNeverOutnumberRequests(s: HostState, secret: string, es: seq<Input>, id: ControlId)
    requires forall i :: 0 <= i < |es| ==> PostsNoResults(es[i])
    ensures var o := Run(s, secret, es);
      Results(o.log.wire, id) + Open(o.state, id) <= Open(s, id) + Requests(s, secret, es, id)
  {
    if es != [] {
      var n := |es| - 1;
      var before := Run(s, secret, es[..n]);
      ResultsNeverOutnumberRequests(s, secret, es[..n], id);
      StepCounts(before.state, secret, es[n], id);
      CountConcat(before.log.wire, Step(before.state, secret, es[n]).log.wire,
                  (x: Sent) => LooksLikeResult(x.frame, id));
      assert Results(before.log.wire + Step(before.state, secret, es[n]).log.wire, id) ==
             Results(before.log.wire, id) + Results(Step(before.state, secret, es[n]).log.wire, id);
    }
  }

  /* ---------- requests from bridges ---------- */

  function Copies(wire: seq<Sent>, ws: nat, f: Frame): nat {
    Count(wire, (x: Sent) => x == Sent(ws, f))
  }

  lemma {:induction false} CopiesOfSendAll(rs: seq<nat>, f: Frame, c: nat)
    requires NoDup(rs)
    ensures Copies(SendAll(rs, f), c, f) == if c in rs then 1 else 0
  {
    if rs != [] {
      var n := |rs| - 1;
      CopiesOfSendAll(rs[..n], f, c);
      MemberOfAppended(rs[..n], rs[n], true, c);
      assert rs == rs[..n] + [rs[n]] && rs[n] !in rs[..n];
      assert SendAll(rs, f)[..n] == SendAll(rs[..n], f) && SendAll(rs, f)[n] == Sent(rs[n], f);
    }
  }

  lemma BridgeRequestCopies(s: HostState, ws: nat, m: Msg, now: nat, c: nat)
    requires NoDup(s.consumers)
    ensures var r := Offer(s, s.consumers, Ws(ws), m.(level := "info"), now).recipients;
      Copies(BridgeRequest(s, ws, m, now).log.wire, c, Frame.Request(m)) == if c in r then 1 else 0
  {
    var r, o := Offer(s, s.consumers, Ws(ws), m.(level := "info"), now).recipients, BridgeRequest(s, ws, m, now);
    FanOutIsRouting(s, s.consumers, Ws(ws), m.(level := "info"), now);
    CopiesOfSendAll(r, Frame.Request(m), c);
    if r == [] && o.log.wire != [] {
      assert o.log.wire == [Sent(ws, NoTarget(m.id))] && o.log.wire[..0] == [];
    }
  }

  /** A bridge's request: one copy for each consumer the rule admits at level info, filed if there is one. */
  lemma BridgeRequestReachesExactly(s: HostState, ws: nat, m: Msg, now: nat, i: nat)
    requires Coherent(s) && i < |s.consumers|
    ensures var o := BridgeRequest(s, ws, m, now);
      && Copies(o.log.wire, s.consumers[i], Frame.Request(m)) ==
           (if Receives(s, s.consumers, i, Ws(ws), m.(level := "info"), now) then 1 else 0)
      && (Receives(s, s.consumers, i, Ws(ws), m.(level := "info"), now) ==>
            o.state.pending == s.pending[m.id := Pending(ws, FromBridge)])
  {
    FanOutDecides(s, s.consumers, i, Ws(ws), m.(level := "info"), now);
    BridgeRequestCopies(s, ws, m, now, s.consumers[i]);
  }

  /** Nobody else gets a copy. */
  lemma BridgeRequestOnlyToConsumers(s: HostState, ws: nat, m: Msg, now: nat, c: nat)
    requires Coherent(s) && c !in s.consumers
    ensures Copies(BridgeRequest(s, ws, m, now).log.wire, c, Frame.Request(m)) == 0
  {
    FanOutInOrder(s, s.consumers, Ws(ws), m.(level := "info"), now);
    SubsequenceMembers(Offer(s, s.consumers, Ws(ws), m.(level := "info"), now).recipients, s.consumers);
    BridgeRequestCopies(s, ws, m, now, c);
  }

  /** With no such consumer the bridge is told so, and nothing is filed. */
  lemma BridgeRequestUnheard(s: HostState, ws: nat, m: Msg, now: nat)
    requires Coherent(s)
    requires forall i :: 0 <= i < |s.consumers| ==> !Receives(s, s.consumers, i, Ws(ws), m.(level := "info"), now)
    ensures var o := BridgeRequest(s, ws, m, now);
      o.log.wire == Send(s.conns, ws, NoTarget(m.id)) && o.state.pending == s.pending && o.log.ledger == []
  {
    var f := Offer(s, s.consumers, Ws(ws), m.(level := "info"), now);
    FanOutIsRouting(s, s.consumers, Ws(ws), m.(level := "info"), now);
    SubsequenceMembers(f.recipients, s.consumers);
    assert forall c :: c in f.recipients ==> c in s.consumers;
    assert forall c :: c in s.consumers ==> c !in f.recipients;
    NoMembersIsEmpty(f.recipients);
  }
}
