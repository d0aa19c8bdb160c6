/** The consumer's connection object: the methods that insert, clear and delete pending requests. */
module Consumer {
  import opened Common
  import opened ConsumerModel

  class HostConsumer {
    var connected: bool
    var pendingControls: map<string, nat>
    var timers: map<nat, Promise>
    var outbox: seq<string>
    var emitted: seq<Option<string>>
    ghost var issued: seq<Promise>
    var settled: seq<Settlement>
    var nextTicket: nat

    ghost function State(): ConsumerState
      reads this
    {
      ConsumerState(connected, pendingControls, timers, issued, settled, outbox, emitted)
    }

    ghost predicate Valid()
      reads this
    {
      Consistent(State()) && nextTicket == |issued|
    }

    constructor ()
      ensures Valid() && State() == FRESH
    {
      connected, pendingControls, timers := true, map[], map[];
      outbox, emitted, issued, settled, nextTicket := [], [], [], [], 0;
    }

    /** Returns the promise's ticket, or nothing when the call throws. */
    method SendControl(id: string, timeoutMs: nat, now: nat) returns (ticket: Option<nat>)
      requires Valid()
      modifies this
      ensures Valid() && State() == Step(old(State()), Input(now, ConsumerModel.SendControl(id, timeoutMs)))
      ensures ticket == if old(connected) then Some(|old(issued)|) else None
    {
      StepConsistent(State(), Input(now, ConsumerModel.SendControl(id, timeoutMs)));
      if !connected {
        return None;
      }
      var t := nextTicket;
      nextTicket := nextTicket + 1;
      issued := issued + [Promise(id, now + timeoutMs)];
      timers := timers[t := Promise(id, now + timeoutMs)];
      pendingControls := pendingControls[id := t];
      outbox := outbox + [id];
      ticket := Some(t);
    }

    method OnTimer(ticket: nat, now: nat)
      requires Valid()
      modifies this
      ensures Valid() && State() == Step(old(State()), Input(now, Fire(ticket)))
    {
      StepConsistent(State(), Input(now, Fire(ticket)));
      if ticket in timers {
        var id := timers[ticket].id;
        timers := timers - {ticket};
        pendingControls := pendingControls - {id};
        settled := settled + [Settlement(ticket, id, now, TimedOut)];
      }
    }

    method HandleResult(id: Option<string>, ok: bool, now: nat)
      requires Valid()
      modifies this
      ensures Valid() && State() == Step(old(State()), Input(now, Result(id, ok)))
    {
      StepConsistent(State(), Input(now, Result(id, ok)));
      if id.Some? && id.value in pendingControls {
        var ticket := pendingControls[id.value];
        timers := timers - {ticket};
        pendingControls := pendingControls - {id.value};
        settled := settled + [Settlement(ticket, id.value, now, if ok then Resolved else Rejected)];
      }
      emitted := emitted + [id];
    }

    /** Clears the timer of every entry of the pending table. */
    method ClearTimers()
      modifies `timers
      ensures timers == old(timers) - pendingControls.Values
    {
      ghost var done: set<nat> := {};
      var todo := pendingControls.Keys;
      while todo != {}
        invariant todo <= pendingControls.Keys
        invariant done == set id | id in pendingControls && id !in todo :: pendingControls[id]
        invariant timers == old(timers) - done
        decreases todo
      {
        var id :| id in todo;
        todo := todo - {id};
        timers := timers - {pendingControls[id]};
        done := done + {pendingControls[id]};
      }
      assert done == pendingControls.Values;
    }

    /** Clears the timers and the table; the promises themselves are left alone. */
    method CloseConnection(now: nat)
      requires Valid()
      modifies this
      ensures Valid() && State() == Step(old(State()), Input(now, Close))
    {
      StepConsistent(State(), Input(now, Close));
      ClearTimers();
      pendingControls := map[];
      connected := false;
    }
  }
}
