/** The client object: its fields and the handlers that update them, proved against ClientModel. */
module BridgeWebSocket {
  import opened Common
  import opened ClientModel

  class Bridge {
    var ready: Option<Ready>
    var reconnectTimeout: Option<nat>
    var reconnectDelay: nat
    var attempt: bool
    var rejected: bool
    var helloSent: bool
    var buffer: seq<Event>
    var dropped: nat
    var wires: seq<seq<Frame>>

    ghost function State(): ClientState
      reads this
    {
      ClientState(ready, reconnectTimeout, reconnectDelay, attempt, rejected, helloSent, buffer, dropped, wires)
    }

    constructor ()
      ensures State() == INITIAL
    {
      ready, reconnectTimeout, reconnectDelay := None, None, RECONNECT_INITIAL_DELAY_MS;
      attempt, rejected, helloSent := false, false, false;
      buffer, dropped, wires := [], 0, [];
    }

    method SendRaw(f: Frame)
      modifies `wires
      ensures State() == Transmit(old(State()), f)
    {
      if ready == Some(Open) && wires != [] {
        var n := |wires| - 1;
        wires := wires[..n] + [wires[n] + [f]];
      }
    }

    method EnqueueEvent(ev: Event)
      modifies `buffer, `dropped
      ensures State() == Enqueue(old(State()), ev)
    {
      if |buffer| >= BUFFER_LIMIT {
        buffer := buffer[1..];
        dropped := dropped + 1;
      }
      buffer := buffer + [ev];
    }

    /** Sends the buffered events, oldest first. */
    method DrainBuffer()
      requires ready == Some(Open)
      modifies `buffer, `wires
      ensures State() == TransmitAll(old(State()), Carried(old(buffer))).(buffer := [])
    {
      ghost var s0 := State();
      ghost var done: seq<Event> := [];
      assert Carried([]) == [];
      while |buffer| > 0
        invariant done + buffer == s0.buffer
        invariant wires == TransmitAll(s0, Carried(done)).wires
        decreases |buffer|
      {
        var ev := buffer[0];
        assert (done + [ev]) + buffer[1..] == s0.buffer;
        buffer := buffer[1..];
        CarryOneMore(s0, State(), done, ev);
        SendRaw(Carry(ev));
        done := done + [ev];
      }
      assert done == s0.buffer;
      OnlyWires(s0, Carried(done));
    }

    /** Then the drop notice, if anything was dropped. */
    method FlushBuffer()
      requires ready == Some(Open)
      modifies `buffer, `dropped, `wires
      ensures State() == Flush(old(State()))
    {
      FlushInTwo(State());
      OnlyWires(State(), Carried(buffer));
      DrainBuffer();
      if dropped > 0 {
        SendRaw(DropNotice(dropped));
        dropped := 0;
      }
    }

    method SendHello()
      modifies `wires, `helloSent
      ensures State() == if old(helloSent) then old(State()) else Transmit(old(State()), Hello).(helloSent := true)
    {
      if helloSent {
        return;
      }
      SendRaw(Hello);
      helloSent := true;
    }

    method OnOpenEvent()
      modifies this
      ensures State() == OnOpen(old(State()))
    {
      ready, attempt, wires := Some(Open), false, wires + [[]];
      reconnectDelay := RECONNECT_INITIAL_DELAY_MS;
      helloSent := false;
      assert State() == NewlyOpen(old(State()));
      Handshake(State());
      SendRaw(Auth);
      SendHello();
      assert State() == TransmitAll(NewlyOpen(old(State())), [Auth, Hello]).(helloSent := true);
      FlushBuffer();
    }

    method ScheduleReconnect()
      modifies `reconnectTimeout
      ensures reconnectTimeout == if old(reconnectTimeout).Some? then old(reconnectTimeout) else Some(reconnectDelay)
    {
      if reconnectTimeout.Some? {
        return;
      }
      reconnectTimeout := Some(reconnectDelay);
    }

    method OnCloseEvent()
      modifies this
      ensures State() == OnClose(old(State()))
    {
      ready := None;
      helloSent := false;
      ScheduleReconnect();
    }

    method SendEvent(ev: Event)
      modifies this
      ensures State() == Step(old(State()), Send(ev))
    {
      if ready == Some(Open) {
        SendRaw(Carry(ev));
      } else {
        EnqueueEvent(ev);
      }
    }

    method DisconnectClient()
      modifies this
      ensures State() == Step(old(State()), Disconnect)
    {
      reconnectTimeout := None;
      if ready.Some? {
        ready := Some(Closing);
      }
    }

    /** Any enabled input is a step of the model. */
    method Handle(i: Input)
      requires Enabled(State(), i)
      modifies this
      ensures State() == Step(old(State()), i)
    {
      match i
      case Connect => ready, attempt := Some(Connecting), false;
      case ConnectThrows =>
      case Opened => OnOpenEvent();
      case Errored => rejected, attempt := rejected || attempt, false;
      case CloseBegins => ready := Some(Closing);
      case Closed => OnCloseEvent();
      case TimerFires => reconnectTimeout, ready, attempt := None, Some(Connecting), true;
      case TimerFiresAndThrows => reconnectTimeout, rejected := None, true;
      case CatchRuns =>
        rejected := false;
        var doubled := reconnectDelay * 2;
        reconnectDelay := if doubled < RECONNECT_MAX_DELAY_MS then doubled else RECONNECT_MAX_DELAY_MS;
      case Disconnect => DisconnectClient();
      case Send(ev) => SendEvent(ev);
      case Raw(f) => SendRaw(f);
    }
  }

  /** Transmitting changes the wires only. */
  lemma {:induction false} OnlyWires(s: ClientState, fs: seq<Frame>)
    ensures TransmitAll(s, fs) == s.(wires := TransmitAll(s, fs).wires)
  {
    if fs != [] {
      OnlyWires(s, fs[..|fs| - 1]);
    }
  }

  /** `t` is what `s` has become after the events `done`. */
  lemma CarryOneMore(s: ClientState, t: ClientState, done: seq<Event>, ev: Event)
    requires t.socket == s.socket && t.wires == TransmitAll(s, Carried(done)).wires
    ensures TransmitAll(s, Carried(done + [ev])).wires == Transmit(t, Carry(ev)).wires
  {
    var fs := Carried(done + [ev]);
    assert fs[..|fs| - 1] == Carried(done) && fs[|fs| - 1] == Carry(ev);
    OnlyWires(s, Carried(done));
  }

  lemma FlushInTwo(s: ClientState)
    ensures var t := TransmitAll(s, Carried(s.buffer)).(buffer := []);
      Flush(s) == (if s.dropped > 0 then Transmit(t, DropNotice(s.dropped)) else t).(dropped := 0)
  {
    var carried := Carried(s.buffer);
    if s.dropped > 0 {
      var fs := carried + [DropNotice(s.dropped)];
      assert fs[..|fs| - 1] == carried;
    } else {
      assert carried + [] == carried;
    }
  }

  lemma Handshake(s: ClientState)
    ensures TransmitAll(s, [Auth, Hello]) == Transmit(Transmit(s, Auth), Hello)
  {
    assert [Auth, Hello][..1] == [Auth] && [Auth][..0] == [];
    assert TransmitAll(s, [Auth]) == Transmit(TransmitAll(s, []), Auth);
    assert TransmitAll(s, [Auth, Hello]) == Transmit(TransmitAll(s, [Auth]), Hello);
  }
}
