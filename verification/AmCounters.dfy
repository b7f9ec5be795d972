/** The counters of the AM receiver belong to the process: they count over all its sessions. */
module AmCounters {
  import opened AmSession

  function Deliveries(actions: seq<Action>): nat {
    if actions == [] then 0
    else Deliveries(actions[..|actions| - 1]) + if actions[|actions| - 1].DeliverMessage? then 1 else 0
  }

  function WaitsLeft(actions: seq<Action>): nat {
    if actions == [] then 0
    else WaitsLeft(actions[..|actions| - 1]) + if actions[|actions| - 1].LeaveWait? then 1 else 0
  }

  function Sessions(actions: seq<Action>): nat {
    if actions == [] then 0
    else Sessions(actions[..|actions| - 1]) + if actions[|actions| - 1].NewSession? then 1 else 0
  }

  /** What one step does to the counters. */
  ghost predicate Counts(s: State, a: Action, t: State) {
    && t.server.complete == s.server.complete + (if a.DeliverMessage? then 1 else 0)
    && t.server.last == s.server.last + (if a.LeaveWait? then 1 else 0)
    && t.net.session == s.net.session + (if a.NewSession? then 1 else 0)
  }

  lemma ProgressCounts(s: State, a: Action, t: State)
    requires IsStep(s, a, t) && InProgress(a)
    ensures Counts(s, a, t)
  {
  }

  lemma FlowCounts(s: State, a: Action, t: State)
    requires IsStep(s, a, t) && InFlow(a)
    ensures Counts(s, a, t)
  {
  }

  lemma RestCounts(s: State, a: Action, t: State)
    requires IsStep(s, a, t) && !InProgress(a) && !InFlow(a)
    ensures Counts(s, a, t)
  {
  }

  lemma StepCounts(s: State, a: Action, t: State)
    requires IsStep(s, a, t)
    ensures Counts(s, a, t)
  {
    hide IsStep, Counts;
    if InProgress(a) {
      ProgressCounts(s, a, t);
    } else if InFlow(a) {
      FlowCounts(s, a, t);
    } else {
      RestCounts(s, a, t);
    }
  }

  /** `complete` counts the AM callbacks and `last` the waits that were left, over all sessions so far. */
  lemma {:induction false} CountersAreProcessWide(states: seq<State>, actions: seq<Action>, i: nat)
    requires IsRun(states, actions) && i < |states|
    ensures states[i].server.complete == Deliveries(actions[..i])
    ensures states[i].server.last == WaitsLeft(actions[..i])
    ensures states[i].net.session == Sessions(actions[..i])
  {
    if i > 0 {
      CountersAreProcessWide(states, actions, i - 1);
      assert actions[..i][..i - 1] == actions[..i - 1];
      StepCounts(states[i - 1], actions[i - 1], states[i]);
    }
  }

  /** What the sessions before this one have counted. */
  ghost predicate Accumulated(s: State) {
    && (s.net.session == 0 ==> s.server.pc.Boundary? && s.server.last == 0)
    && (s.net.session > 0 ==> s.base == (s.net.session - 1) * s.n)
    && (s.server.pc.Boundary? ==> s.server.last == s.net.session * s.n)
  }

  lemma AccumulatedStep(s: State, a: Action, t: State)
    requires Inv(s) && Accumulated(s) && IsStep(s, a, t)
    ensures Accumulated(t)
  {
    if a.CloseDone? {
      assert (s.net.session - 1) * s.n + s.n == s.net.session * s.n;
    }
  }

  lemma {:induction false} AlwaysAccumulated(states: seq<State>, actions: seq<Action>, i: nat)
    requires IsRun(states, actions) && i < |states|
    ensures Accumulated(states[i])
  {
    if i > 0 {
      AlwaysAccumulated(states, actions, i - 1);
      Reachable(states, actions, i - 1);
      AccumulatedStep(states[i - 1], actions[i - 1], states[i]);
    }
  }

  /** At a boundary after s sessions of n messages both counters are s * n: n callbacks and n waits for each. */
  lemma BoundaryCounters(states: seq<State>, actions: seq<Action>, i: nat)
    requires IsRun(states, actions) && i < |states| && states[i].server.pc.Boundary?
    ensures states[i].server.last == states[i].server.complete == Sessions(actions[..i]) * states[0].n
    ensures Deliveries(actions[..i]) == WaitsLeft(actions[..i]) == Sessions(actions[..i]) * states[0].n
  {
    CountersAreProcessWide(states, actions, i);
    AlwaysAccumulated(states, actions, i);
    Reachable(states, actions, i);
  }
}
