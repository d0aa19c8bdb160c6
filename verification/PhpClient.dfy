/** The PHP client object, proved against PhpModel. */
module PhpClient {
  import opened Common
  import opened PhpModel

  class Client {
    const config: Config
    var up: bool
    var connected: bool
    var budget: nat
    var buffer: seq<Payload>
    var dropped: nat
    var sent: seq<Frame>
    ghost var accepted: seq<Payload>
    ghost var committed: seq<Payload>
    ghost var reported: nat

    ghost function State(): PhpState
      reads this
    {
      PhpState(up, connected, budget, buffer, dropped, sent, accepted, committed, reported)
    }

    constructor (config: Config)
      ensures State() == INITIAL && this.config == config
    {
      this.config := config;
      up, connected, budget, buffer, dropped, sent := false, false, 0, [], 0, [];
      accepted, committed, reported := [], [], 0;
    }

    /** Returns false where the transport throws. */
    method SendRaw(f: Frame) returns (ok: bool)
      requires up
      modifies `sent, `budget
      ensures ok == (old(budget) > 0)
      ensures State() == if ok then Put(old(State()), f) else old(State())
    {
      if budget == 0 {
        return false;
      }
      sent := sent + [f];
      budget := budget - 1;
      ok := true;
    }

    method Enqueue(p: Payload) returns (ok: bool)
      modifies this
      ensures State() == Step(config, old(State()), Produce(p))
      ensures ok == !(old(connected) && old(up) && old(budget) == 0)
    {
      if connected && up {
        ok := SendRaw(Carry(p));
        if ok {
          accepted, committed := accepted + [p], committed + [p];
        }
        return;
      }
      accepted := accepted + [p];
      if |buffer| >= config.bufferLimit {
        buffer := if buffer == [] then [] else buffer[1..];
        dropped := dropped + 1;
      }
      buffer := buffer + [p];
      ok := true;
    }

    method FlushBuffer() returns (ok: bool)
      requires up
      modifies `sent, `budget, `buffer, `dropped, `committed, `reported
      ensures (State(), ok) == Flush(old(State()))
    {
      ghost var s0 := State();
      var i := 0;
      while i < |buffer|
        invariant 0 <= i <= |buffer|
        invariant State() == s0.(sent := sent, budget := budget)
        invariant SendPayloads(s0, buffer) == SendPayloads(State(), buffer[i..])
      {
        assert buffer[i..] == [buffer[i]] + buffer[i + 1..];
        ok := SendRaw(Carry(buffer[i]));
        if !ok {
          return;
        }
        i := i + 1;
      }
      committed := committed + buffer;
      buffer := [];
      if dropped > 0 {
        ok := SendRaw(DropNotice(dropped));
        if ok {
          reported := reported + dropped;
          dropped := 0;
        }
        return;
      }
      ok := true;
    }

    method WaitForAuthSuccess(ms: seq<Incoming>) returns (ok: bool)
      requires up && !connected
      modifies this
      ensures (State(), ok) == Wait(config, old(State()), ms)
      ensures up && !connected
    {
      ghost var s0 := State();
      var i := 0;
      assert ms[0..] == ms;
      while i < |ms|
        invariant 0 <= i <= |ms| && up && !connected
        invariant Wait(config, s0, ms) == Wait(config, State(), ms[i..])
      {
        assert ms[i..][1..] == ms[i + 1..];
        match ms[i] {
          case AuthSuccess => return true;
          case Ping =>
            var sentPong := SendRaw(Pong);
            if !sentPong {
              return false;
            }
          case ControlRequest(id, succeeds) =>
            if config.hasHandler {
              var queued := Enqueue(ControlResult(id, succeeds));
            }
          case Other =>
        }
        i := i + 1;
      }
      ok := false;
    }

    method Connect(ms: seq<Incoming>, budget: nat) returns (ok: bool)
      modifies this
      ensures (State(), ok) == ConnectOnce(config, old(State()), ms, budget)
    {
      up, connected, this.budget, sent := true, false, budget, [];
      ok := SendRaw(Auth);
      if !ok {
        return;
      }
      ok := WaitForAuthSuccess(ms);
      if !ok {
        return;
      }
      ok := SendRaw(Hello);
      if !ok {
        return;
      }
      connected := true;
      ok := FlushBuffer();
    }

    method Close()
      modifies `up, `connected
      ensures State() == CloseSocket(old(State()))
    {
      up, connected := false, false;
    }
  }
}
