/** The receive loop of the hello-world client and the network beside it, interleaved in every way: probe,
    progress, and in the sleeping modes arm and wait.

    The worker is given by its contract. Events arrive from the network at any time and are handled only
    by progress, which alone puts messages into the probe queue. Arm succeeds only when no event is
    unhandled; once armed, the next event makes the event fd readable. */
module WakeLoop {

  datatype Mode = BusyPoll | Wait | EventFd

  datatype Pc =
    | CheckEp | Probe | Progress
    | WorkerWait               // blocked in ucp_worker_wait
    | GetEfd | EpollCtl | Arm
    | EpollWait                // blocked in epoll_wait
    | ErrFd(ok: bool)          // close(epoll_fd_local)
    | Received | Failed

  datatype State = State(mode: Mode, pc: Pc, epOk: bool, queue: nat, events: nat, armed: bool, readable: bool,
                         localFd: bool)

  datatype Action =
    | Arrive                                    // network: an event reaches the worker
    | Check
    | ProbeQueue
    | ProgressSome(events: nat, messages: nat, epOk: bool, readable: bool)
    | ProgressNone
    | WorkerWaitReturns(ok: bool)
    | GetFd(ok: bool)
    | AddFd(ok: bool)
    | ArmBusy
    | ArmOk(drain: bool)
    | ArmError
    | EpollInterrupted
    | EpollReturns(error: bool)
    | CloseFd

  ghost predicate Enabled(s: State, a: Action) {
    match a
    case Arrive => true
    case Check => s.pc.CheckEp?
    case ProbeQueue => s.pc.Probe?
    // some events were handled: some of them were messages, any may have failed the endpoint
    case ProgressSome(events, messages, epOk, readable) =>
      s.pc.Progress? && 0 < events <= s.events && messages <= events
    case ProgressNone => s.pc.Progress?
    // ucp_worker_wait wakes up on an event, and fails only on its own errors
    case WorkerWaitReturns(ok) => s.pc.WorkerWait? && (ok ==> s.events > 0)
    case GetFd(_) => s.pc.GetEfd?
    case AddFd(_) => s.pc.EpollCtl?
    case ArmBusy => s.pc.Arm? && s.events > 0
    case ArmOk(_) => s.pc.Arm? && s.events == 0
    case ArmError => s.pc.Arm?
    case EpollInterrupted => s.pc.EpollWait?
    case EpollReturns(error) => s.pc.EpollWait? && (s.readable || error)
    case CloseFd => s.pc.ErrFd?
  }

  ghost function Next(s: State, a: Action): State
    requires Enabled(s, a)
  {
    match a
    case Arrive => s.(events := s.events + 1, readable := s.readable || s.armed)
    case Check => s.(pc := if s.epOk then Probe else Failed)
    case ProbeQueue => s.(pc := if s.queue > 0 then Received else Progress)
    case ProgressSome(events, messages, epOk, readable) =>
      s.(pc := CheckEp, events := s.events - events, queue := s.queue + messages,
         epOk := s.epOk && epOk, readable := s.readable && readable, armed := false)
    case ProgressNone =>
      s.(pc := match s.mode case BusyPoll => CheckEp case Wait => WorkerWait case EventFd => GetEfd)
    case WorkerWaitReturns(ok) => s.(pc := if ok then CheckEp else Failed)
    case GetFd(ok) => if ok then s.(pc := EpollCtl, localFd := true) else s.(pc := Failed)
    case AddFd(ok) => s.(pc := if ok then Arm else ErrFd(false))
    case ArmBusy => s.(pc := ErrFd(true))
    case ArmOk(drain) => s.(pc := EpollWait, armed := true, readable := s.readable && !drain)
    case ArmError => s.(pc := ErrFd(false))
    case EpollInterrupted => s
    case EpollReturns(_) => s.(pc := ErrFd(true))
    case CloseFd => s.(pc := if s.pc.ok then CheckEp else Failed, localFd := false)
  }

  ghost predicate Init(s: State) {
    s.pc.CheckEp? && !s.armed && !s.localFd
  }

  ghost predicate Inv(s: State) {
    && (s.queue > 0 ==> s.pc.CheckEp? || s.pc.Probe? || s.pc.Received? || s.pc.Failed?)
    && (s.pc.EpollWait? ==> s.armed && (s.events == 0 || s.readable))
    && (s.localFd <==> s.pc.EpollCtl? || s.pc.Arm? || s.pc.EpollWait? || s.pc.ErrFd?)
    && (s.pc.Received? ==> s.queue > 0)
    && (s.epOk || s.pc.CheckEp? || s.pc.Failed?)
    && (s.pc.WorkerWait? ==> s.mode.Wait?)
    && (s.pc.EpollWait? ==> s.mode.EventFd?)
    && (s.pc.GetEfd? || s.pc.EpollCtl? || s.pc.Arm? || s.pc.ErrFd? ==> s.mode.EventFd?)
  }

  ghost predicate IsRun(states: seq<State>, actions: seq<Action>) {
    && |states| == |actions| + 1 && Init(states[0])
    && forall i | 0 <= i < |actions| :: Enabled(states[i], actions[i]) && states[i + 1] == Next(states[i], actions[i])
  }

  lemma InvNext(s: State, a: Action)
    requires Inv(s) && Enabled(s, a)
    ensures Inv(Next(s, a))
  {
  }

  lemma {:induction false} Reachable(states: seq<State>, actions: seq<Action>, i: nat)
    requires IsRun(states, actions) && i < |states|
    ensures Inv(states[i])
  {
    if i > 0 {
      Reachable(states, actions, i - 1);
      InvNext(states[i - 1], actions[i - 1]);
    }
  }

  /** No lost wakeup: a client blocked in epoll_wait has nothing in its probe queue, and if any event is
      unhandled, the fd is readable and epoll_wait can return without another event; it then closes its
      fd and goes back to the probe. */
  lemma NoLostWakeup(states: seq<State>, actions: seq<Action>, i: nat)
    requires IsRun(states, actions) && i < |states| && states[i].pc.EpollWait?
    ensures states[i].queue == 0
    ensures states[i].events == 0 || states[i].readable
    ensures states[i].events > 0 ==> Enabled(states[i], EpollReturns(false))
  {
    Reachable(states, actions, i);
  }

  /** A message in the probe queue is never slept on: from any state with one, the client cannot reach a
      blocked state before it has probed again, and that probe takes it. */
  lemma {:induction false} QueuedMeansAwake(states: seq<State>, actions: seq<Action>, i: nat, j: nat)
    requires IsRun(states, actions) && i <= j < |states| && states[i].queue > 0
    ensures states[j].queue > 0
    ensures states[j].pc.CheckEp? || states[j].pc.Probe? || states[j].pc.Received? || states[j].pc.Failed?
    decreases j
  {
    Reachable(states, actions, j);
    if i < j {
      QueuedMeansAwake(states, actions, i, j - 1);
    }
  }

  /** The loop is left with a message only while the endpoint has not failed, and after a failure the client
      does nothing but notice it. */
  lemma ReceivesOnlyConnected(states: seq<State>, actions: seq<Action>, i: nat)
    requires IsRun(states, actions) && i < |states|
    ensures states[i].pc.Received? ==> states[i].queue > 0 && states[i].epOk
    ensures !states[i].epOk ==> states[i].pc.CheckEp? || states[i].pc.Failed?
    ensures !states[i].epOk && Enabled(states[i], Check) ==> Next(states[i], Check).pc.Failed?
  {
    Reachable(states, actions, i);
  }

  /** The epoll fd the client creates is open exactly inside the poll and closed on every way out of it. */
  lemma FdClosedOutsidePoll(states: seq<State>, actions: seq<Action>, i: nat)
    requires IsRun(states, actions) && i < |states|
    requires var pc := states[i].pc; pc.CheckEp? || pc.Probe? || pc.Progress? || pc.Received? || pc.Failed?
    ensures !states[i].localFd
  {
    Reachable(states, actions, i);
  }

  // ---------------------------------------------------------------- how the loop goes round

  /** A blocked epoll_wait ends only by returning; an interrupted one is entered again. */
  lemma BlockedUntilReturn(states: seq<State>, actions: seq<Action>, i: nat)
    requires IsRun(states, actions) && i < |actions| && states[i].pc.EpollWait?
    ensures states[i + 1].pc.EpollWait? <==> !actions[i].EpollReturns?
  {
  }

  /** A poll that ended without an error, because arm was busy or epoll_wait returned, closes its fd and goes
      back to the probe; one that ended with an error leaves the loop. */
  lemma PollGoesBack(states: seq<State>, actions: seq<Action>, i: nat)
    requires IsRun(states, actions) && i < |actions|
    ensures actions[i].ArmBusy? || actions[i].EpollReturns? ==> states[i + 1].pc == ErrFd(true)
    ensures states[i].pc.ErrFd? && states[i + 1].pc != states[i].pc ==>
              && actions[i].CloseFd? && !states[i + 1].localFd
              && states[i + 1].pc == if states[i].pc.ok then CheckEp else Failed
  {
  }

  /** The fd becomes readable only by an event that arrives while the worker is armed; arm alone arms it, and
      progress that handles events disarms it. */
  lemma ReadableOnlyWhenArmed(states: seq<State>, actions: seq<Action>, i: nat)
    requires IsRun(states, actions) && i < |actions|
    ensures !states[i].readable && states[i + 1].readable ==> actions[i].Arrive? && states[i].armed
    ensures !states[i].armed && states[i + 1].armed ==> actions[i].ArmOk?
    ensures actions[i].ProgressSome? ==> !states[i + 1].armed
  {
  }

  /** The calls whose error ends the loop. */
  predicate IsError(a: Action) {
    a == WorkerWaitReturns(false) || a == GetFd(false) || a == AddFd(false) || a.ArmError?
  }

  /** The loop ends, or is about to end, with an error of its own calls. */
  ghost predicate InError(s: State) {
    s.pc == ErrFd(false) || (s.pc.Failed? && s.epOk)
  }

  lemma ErrorStep(s: State, a: Action)
    requires Inv(s) && Enabled(s, a)
    ensures InError(Next(s, a)) <==> InError(s) || IsError(a)
  {
  }

  lemma ErrorAt(states: seq<State>, actions: seq<Action>, i: nat)
    requires IsRun(states, actions) && 0 < i < |states|
    ensures InError(states[i]) <==> InError(states[i - 1]) || IsError(actions[i - 1])
  {
    Reachable(states, actions, i - 1);
    ErrorStep(states[i - 1], actions[i - 1]);
  }

  /** It does so exactly if one of its calls returned an error. */
  lemma {:induction false} FailsIffError(states: seq<State>, actions: seq<Action>, i: nat)
    requires IsRun(states, actions) && i < |states|
    ensures InError(states[i]) <==> exists j :: 0 <= j < i && IsError(actions[j])
  {
    if i > 0 {
      FailsIffError(states, actions, i - 1);
      ErrorAt(states, actions, i);
      hide IsRun, InError;
    }
  }

  lemma Extend(states: seq<State>, actions: seq<Action>, a: Action) returns (states': seq<State>, actions': seq<Action>)
    requires IsRun(states, actions) && Enabled(states[|states| - 1], a)
    ensures IsRun(states', actions') && states <= states'
    ensures |states'| == |states| + 1 && states'[|states|] == Next(states[|states| - 1], a)
  {
    states', actions' := states + [Next(states[|states| - 1], a)], actions + [a];
    forall i | 0 <= i < |actions'|
      ensures Enabled(states'[i], actions'[i]) && states'[i + 1] == Next(states'[i], actions'[i])
    {
      if i < |actions| {
        assert states'[i] == states[i] && states'[i + 1] == states[i + 1] && actions'[i] == actions[i];
      }
    }
  }

  /** Events that arrived, events that progress handled, and messages it put into the probe queue. */
  function Arrived(actions: seq<Action>): nat {
    if actions == [] then 0
    else Arrived(actions[..|actions| - 1]) + if actions[|actions| - 1].Arrive? then 1 else 0
  }

  function Handled(actions: seq<Action>): nat {
    if actions == [] then 0
    else
      Handled(actions[..|actions| - 1])
      + if actions[|actions| - 1].ProgressSome? then actions[|actions| - 1].events else 0
  }

  function Queued(actions: seq<Action>): nat {
    if actions == [] then 0
    else
      Queued(actions[..|actions| - 1])
      + if actions[|actions| - 1].ProgressSome? then actions[|actions| - 1].messages else 0
  }

  /** No event is lost or handled twice, every message that progress found is in the queue, and the endpoint
      has failed exactly if progress once said so. */
  lemma {:induction false} NothingIsLost(states: seq<State>, actions: seq<Action>, i: nat)
    requires IsRun(states, actions) && i < |states|
    ensures states[i].events + Handled(actions[..i]) == states[0].events + Arrived(actions[..i])
    ensures states[i].queue == states[0].queue + Queued(actions[..i])
    ensures states[i].epOk <==> states[0].epOk && forall j | 0 <= j < i && actions[j].ProgressSome? :: actions[j].epOk
    ensures states[i].mode == states[0].mode
  {
    if i > 0 {
      NothingIsLost(states, actions, i - 1);
      assert actions[..i][..i - 1] == actions[..i - 1];
      assert states[i] == Next(states[i - 1], actions[i - 1]);
    }
  }

  /** The client is at the top of its loop with nothing to do. */
  ghost predicate NothingToDo(s: State) {
    s.pc.CheckEp? && s.epOk && s.queue == 0 && s.events == 0
  }

  lemma FindsNothing(states: seq<State>, actions: seq<Action>) returns (states': seq<State>, actions': seq<Action>)
    requires IsRun(states, actions) && NothingToDo(states[|states| - 1])
    ensures IsRun(states', actions') && states <= states'
    ensures var s, t := states[|states| - 1], states'[|states'| - 1];
            t == s.(pc := match s.mode case BusyPoll => CheckEp case Wait => WorkerWait case EventFd => GetEfd)
  {
    states', actions' := Extend(states, actions, Check);
    states', actions' := Extend(states', actions', ProbeQueue);
    states', actions' := Extend(states', actions', ProgressNone);
  }

  /** In each sleeping mode a client with nothing to do goes to sleep; in the busy mode it never does. */
  lemma GoesToSleep(s: State) returns (states: seq<State>, actions: seq<Action>)
    requires Init(s) && NothingToDo(s)
    ensures IsRun(states, actions) && states[0] == s
    ensures var t := states[|states| - 1];
            match s.mode
            case BusyPoll => NothingToDo(t)
            case Wait => t.pc.WorkerWait? && t.queue == t.events == 0 && t.epOk
            case EventFd => t.pc.EpollWait? && t.armed && t.queue == t.events == 0 && t.epOk
  {
    states, actions := FindsNothing([s], []);
    if s.mode.EventFd? {
      states, actions := Extend(states, actions, GetFd(true));
      states, actions := Extend(states, actions, AddFd(true));
      states, actions := Extend(states, actions, ArmOk(true));
    }
  }

  lemma WakesUp(states: seq<State>, actions: seq<Action>) returns (states': seq<State>, actions': seq<Action>)
    requires IsRun(states, actions) && states[|states| - 1].epOk && states[|states| - 1].queue == 0
    requires states[|states| - 1].pc.WorkerWait? || (states[|states| - 1].pc.EpollWait? && states[|states| - 1].armed)
    ensures IsRun(states', actions') && states <= states'
    ensures var t := states'[|states'| - 1]; t.pc.CheckEp? && t.epOk && t.queue == 0 && t.events > 0 && !t.localFd
  {
    Reachable(states, actions, |states| - 1);
    states', actions' := Extend(states, actions, Arrive);
    if states[|states| - 1].pc.WorkerWait? {
      states', actions' := Extend(states', actions', WorkerWaitReturns(true));
    } else {
      states', actions' := Extend(states', actions', EpollReturns(false));
      states', actions' := Extend(states', actions', CloseFd);
    }
    Reachable(states', actions', |states'| - 1);
  }

  lemma TakesMessage(states: seq<State>, actions: seq<Action>) returns (states': seq<State>, actions': seq<Action>)
    requires IsRun(states, actions)
    requires var t := states[|states| - 1]; t.pc.CheckEp? && t.epOk && t.queue == 0 && t.events > 0
    ensures IsRun(states', actions') && states <= states' && states'[|states'| - 1].pc.Received?
  {
    states', actions' := Extend(states, actions, Check);
    states', actions' := Extend(states', actions', ProbeQueue);
    states', actions' := Extend(states', actions', ProgressSome(1, 1, true, false));
    states', actions' := Extend(states', actions', Check);
    states', actions' := Extend(states', actions', ProbeQueue);
  }

  /** A sleeping client is woken by the message it waits for, and receives it. */
  lemma SleepsAndReceives(s: State) returns (states: seq<State>, actions: seq<Action>, i: nat)
    requires Init(s) && NothingToDo(s) && !s.mode.BusyPoll?
    ensures IsRun(states, actions) && states[0] == s && states[|states| - 1].pc.Received?
    ensures i < |states| && if s.mode.Wait? then states[i].pc.WorkerWait? else states[i].pc.EpollWait?
  {
    states, actions := GoesToSleep(s);
    i := |states| - 1;
    states, actions := WakesUp(states, actions);
    states, actions := TakesMessage(states, actions);
  }
}
