/** Runs of `StreamSession`: every session can succeed on both sides, and what a side returns is decided by
    whether one of its calls failed. */
module StreamRuns {
  import opened StreamSession

  /** The first k payloads have been sent, received and finalised, and nothing is under way. */
  function Exchanged(s: State, k: nat): State
    requires k <= |s.payloads|
  {
    s.(sent := k, received := s.payloads[..k])
  }

  lemma SendNext(s: State, k: nat, states: seq<State>, actions: seq<Action>)
    returns (states': seq<State>, actions': seq<Action>)
    requires Init(s) && k < |s.payloads|
    requires IsRun(states, actions) && states[0] == s && states[|states| - 1] == Exchanged(s, k)
    ensures IsRun(states', actions') && states'[0] == s
    ensures states'[|states'| - 1] == Exchanged(s, k).(sent := k + 1, toServer := s.payloads[k])
  {
    states', actions' := Extend(states, actions, ClientPost);
    states', actions' := Extend(states', actions', ClientPush(s.len));
    assert [] + s.payloads[k][0..s.len] == s.payloads[k];
    states', actions' := Extend(states', actions', ClientSendDone);
  }

  lemma ReceiveNext(s: State, k: nat, states: seq<State>, actions: seq<Action>)
    returns (states': seq<State>, actions': seq<Action>)
    requires Init(s) && k < |s.payloads| && IsRun(states, actions) && states[0] == s
    requires states[|states| - 1] == Exchanged(s, k).(sent := k + 1, toServer := s.payloads[k])
    ensures IsRun(states', actions') && states'[0] == s
    ensures states'[|states'| - 1] == Exchanged(s, k + 1)
  {
    states', actions' := Extend(states, actions, ServerPost);
    states', actions' := Extend(states', actions', ServerPull(s.len));
    assert [] + s.payloads[k][..s.len] == s.payloads[k] && s.payloads[k][s.len..] == [];
    states', actions' := Extend(states', actions', ServerReceiveDone);
    assert s.payloads[..k] + [s.payloads[k]] == s.payloads[..k + 1];
  }

  lemma {:induction false} ExchangeAll(s: State, k: nat) returns (states: seq<State>, actions: seq<Action>)
    requires Init(s) && k <= |s.payloads|
    ensures IsRun(states, actions) && states[0] == s && states[|states| - 1] == Exchanged(s, k)
  {
    if k == 0 {
      states, actions := [s], [];
    } else {
      states, actions := ExchangeAll(s, k - 1);
      states, actions := SendNext(s, k - 1, states, actions);
      states, actions := ReceiveNext(s, k - 1, states, actions);
    }
  }

  lemma SendFin(s: State, states: seq<State>, actions: seq<Action>)
    returns (states': seq<State>, actions': seq<Action>)
    requires Init(s) && IsRun(states, actions) && states[0] == s
    requires states[|states| - 1] == Exchanged(s, |s.payloads|)
    ensures IsRun(states', actions') && states'[0] == s
    ensures states'[|states'| - 1] ==
            Exchanged(s, |s.payloads|).(server := WaitClose, finOff := s.len, toClient := s.fin)
  {
    states', actions' := Extend(states, actions, ServerFinPost);
    states', actions' := Extend(states', actions', ServerFinPush(s.len));
    assert [] + s.fin[0..s.len] == s.fin;
    states', actions' := Extend(states', actions', ServerFinDone);
  }

  lemma TakeFin(s: State, states: seq<State>, actions: seq<Action>)
    returns (states': seq<State>, actions': seq<Action>)
    requires Init(s) && IsRun(states, actions) && states[0] == s
    requires states[|states| - 1] ==
             Exchanged(s, |s.payloads|).(server := WaitClose, finOff := s.len, toClient := s.fin)
    ensures IsRun(states', actions') && states'[0] == s
    ensures var t := states'[|states'| - 1];
            && t.client == Returned(0) && t.server == Ended(0)
            && t.received == s.payloads && t.finReceived == [s.fin]
  {
    states', actions' := Extend(states, actions, ClientFinPost);
    states', actions' := Extend(states', actions', ClientFinPull(s.len));
    assert [] + s.fin[..s.len] == s.fin;
    states', actions' := Extend(states', actions', ClientFinDone);
    states', actions' := Extend(states', actions', ServerSeesClose);
    assert s.payloads[..|s.payloads|] == s.payloads;
  }

  /** Whatever the payloads, there is a run in which both sides return 0 with everything delivered. */
  lemma SessionCanSucceed(s: State) returns (states: seq<State>, actions: seq<Action>)
    requires Init(s)
    ensures IsRun(states, actions) && states[0] == s
    ensures var t := states[|states| - 1];
            && t.client == Returned(0) && t.server == Ended(0)
            && t.received == s.payloads && t.finReceived == [s.fin]
  {
    states, actions := ExchangeAll(s, |s.payloads|);
    states, actions := SendFin(s, states, actions);
    states, actions := TakeFin(s, states, actions);
  }

  // ---------------------------------------------------------------- what a side returns

  lemma ReturnStep(s: State, a: Action, t: State)
    requires IsStep(s, a, t)
    ensures t.client.Returned? ==> s.client == t.client || (!s.client.Returned? && t.client.ret == -1 && a.ClientFail?)
                                   || (!s.client.Returned? && t.client.ret == 0 && a.ClientFinDone?)
    ensures s.client.Returned? ==> t.client == s.client && !a.ClientFail?
    ensures a.ClientFail? ==> t.client == Returned(-1)
    ensures t.server.Ended? ==> s.server == t.server || (!s.server.Ended? && t.server.ret == -1 && a.ServerFail?)
                                || (!s.server.Ended? && t.server.ret == 0 && a.ServerSeesClose?)
    ensures s.server.Ended? ==> t.server == s.server && !a.ServerFail?
    ensures a.ServerFail? ==> t.server == Ended(-1)
  {
  }

  /** On every run, a side that has returned has returned 0 if none of its calls failed, and -1 if one did;
      a side whose call failed has returned. */
  lemma {:induction false} ReturnsMinusOneIffFailed(states: seq<State>, actions: seq<Action>, i: nat)
    requires IsRun(states, actions) && i < |states|
    ensures var c := states[i].client;
            && (c.Returned? ==> c.ret == 0 || c.ret == -1)
            && (c == Returned(-1) <==> ClientFail in actions[..i])
    ensures var v := states[i].server;
            && (v.Ended? ==> v.ret == 0 || v.ret == -1)
            && (v == Ended(-1) <==> ServerFail in actions[..i])
  {
    if i > 0 {
      ReturnsMinusOneIffFailed(states, actions, i - 1);
      assert actions[..i] == actions[..i - 1] + [actions[i - 1]];
      ReturnStep(states[i - 1], actions[i - 1], states[i]);
    }
  }
}
