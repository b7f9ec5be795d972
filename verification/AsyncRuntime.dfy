/** The event as an object whose fields are assigned one by one, with the waiter resumed between the
    assignments, and coroutines as activations that run until they suspend. Every method is proved to
    leave the state that the functions of `Events` compute. */
module AsyncRuntime {
  import opened Common
  import opened Events
  import EventTheorems

  class AutoResetEvent {
    var signaled: bool
    var data: Option<Value>
    var waiter: Option<nat>

    constructor ()
      ensures !signaled && data.None? && waiter.None?
    {
      signaled, data, waiter := false, None, None;
    }

    ghost function View(): Event
      reads this
    {
      Event(signaled, data, waiter)
    }

    method Reset()
      modifies this`signaled
      ensures !signaled
    {
      signaled := false;
    }
  }

  class Runtime {
    const events: seq<AutoResetEvent>
    var cos: seq<Coroutine>
    var log: seq<Entry>

    ghost predicate Valid() {
      forall i, j | 0 <= i < j < |events| :: events[i] != events[j]
    }

    ghost function View(): (s: State)
      reads this, events
      ensures |s.events| == |events|
      ensures forall e | 0 <= e < |events| :: s.events[e] == events[e].View()
    {
      State(seq(|events|, i requires 0 <= i < |events| reads this, events => events[i].View()), cos, log)
    }

    constructor (events: seq<AutoResetEvent>, scripts: seq<Coroutine>)
      requires forall i, j | 0 <= i < j < |events| :: events[i] != events[j]
      ensures Valid() && this.events == events && cos == scripts && log == []
    {
      this.events, cos, log := events, scripts, [];
    }

    /** `co_await`: ready when the event is signalled (which stays so), else the handle is stored. */
    method AwaitEvent(c: nat, e: nat) returns (suspended: bool)
      requires Valid() && Inv(View()) && c < |cos| && cos[c].status.Running? && e < |events|
      modifies this, events
      ensures suspended == !old(events[e].signaled)
      ensures View() == if suspended then Park(old(View()), c, e)
                        else old(View()).(log := old(log) + [Read(c, e, old(View()).events[e].data.value)])
    {
      var event := events[e];
      if event.signaled {
        log := log + [Read(c, e, event.data.value)];
        return false;
      }
      event.waiter := Some(c);
      cos := cos[c := cos[c].(status := Suspended(e))];
      log := log + [Parked(c, e)];
      return true;
    }

    /** The assignments of `set_or` in their order, with the resume between them. */
    method SetOr(e: nat, v: Value)
      requires Valid() && Inv(View()) && e < |events|
      modifies this, events
      ensures View() == Events.SetOr(old(View()), e, v)
      decreases Work(cos), 2
    {
      ghost var s := View();
      var event := events[e];
      if event.signaled {
        log := log + [Refused(e, v)];
        assert View() == Events.SetOr(s, e, v);
        return;
      }
      event.data := Some(v);
      event.signaled := true;
      log := log + [Accepted(e, v)];
      if event.waiter.Some? {
        Resume(s, event.waiter.value, e, v);
        event.waiter := None;
        event.signaled := false;
        log := log + [Reset(e)];
      }
      assert View() == Events.SetOr(s, e, v);
    }

    /** `waiter_handle.resume()`: the coroutine continues in `await_resume`, which reads the data. */
    method Resume(ghost s: State, c: nat, e: nat, v: Value)
      requires Valid() && Inv(s) && e < |s.events| && !s.events[e].signaled && s.events[e].waiter == Some(c)
      requires View() == s.(events := s.events[e := s.events[e].(data := Some(v), signaled := true)],
                            log := s.log + [Accepted(e, v)])
      modifies this, events
      ensures View() == Run(Accept(s, e, v), c)
      decreases Work(cos), 1
    {
      WorkUpdate(cos, c, cos[c].(status := Running));
      cos := cos[c := cos[c].(status := Running)];
      log := log + [Resumed(c, e), Read(c, e, events[e].data.value)];
      assert log == Accept(s, e, v).log;
      assert View() == Accept(s, e, v);
      RunToSuspension(c);
    }

    /** The body of a coroutine from its current point to its next suspension or its end. */
    method RunToSuspension(c: nat)
      requires Valid() && Inv(View()) && c < |cos| && cos[c].status.Running?
      modifies this, events
      ensures View() == Run(old(View()), c)
      decreases Work(cos), 0, 1
    {
      ghost var s := View();
      var suspended := false;
      while !suspended && cos[c].script != []
        invariant c < |cos| && Work(cos) <= Work(s.cos)
        invariant if suspended then View() == Run(s, c)
                  else Inv(View()) && cos[c].status.Running? && Run(View(), c) == Run(s, c)
        decreases !suspended, Work(cos)
      {
        suspended := ExecuteOp(c);
      }
      if !suspended {
        ghost var last := View();
        cos := cos[c := cos[c].(status := Finished)];
        assert View() == Finish(last, c);
      }
    }

    method ExecuteOp(c: nat) returns (suspended: bool)
      requires Valid() && Inv(View()) && c < |cos| && cos[c].status.Running? && cos[c].script != []
      modifies this, events
      ensures c < |cos| && Work(cos) < old(Work(cos))
      ensures if suspended then View() == Run(old(View()), c)
              else Inv(View()) && cos[c].status.Running? && Run(View(), c) == Run(old(View()), c)
      decreases Work(cos), 0, 0
    {
      ghost var s := View();
      var op := cos[c].script[0];
      WorkUpdate(cos, c, cos[c].(script := cos[c].script[1..]));
      cos := cos[c := cos[c].(script := cos[c].script[1..])];
      assert View() == Step(s, c);
      match op
      case Set(e, v) =>
        SetOr(e, v);
        suspended := false;
      case Await(e) =>
        suspended := AwaitEvent(c, e);
    }

    /** `reset` of an event, called from outside. */
    method Clear(e: nat)
      requires Valid() && Inv(View()) && EventTheorems.CallOk(View(), EventTheorems.Clear(e))
      modifies this`log, events
      ensures View() == EventTheorems.Drive1(old(View()), EventTheorems.Clear(e))
    {
      if events[e].signaled {
        log := log + [Events.Reset(e)];
      }
      events[e].Reset();
      assert View().events == EventTheorems.Drive1(old(View()), EventTheorems.Clear(e)).events;
    }

    /** A coroutine function is called: it starts to run at once. */
    method Start(c: nat)
      requires Valid() && Inv(View()) && c < |cos|
      modifies this, events
      ensures View() == EventTheorems.Drive1(old(View()), EventTheorems.Start(c))
    {
      if cos[c].status.Fresh? {
        ghost var s := View();
        cos := cos[c := cos[c].(status := Running)];
        assert View() == EventTheorems.Started(s, c);
        RunToSuspension(c);
      }
    }
  }
}
