/** The server: it admits one client at a time, and on every return it has torn down what it built. What
    it does is recorded in `log`; `Scan` is the automaton that says which logs are acceptable. */
module Server {
  import opened Common

  datatype Resource = DataWorker | Listener | Endpoint(request: nat)

  datatype Event =
    | Created(r: Resource)
    | Destroyed(r: Resource)
    | Delivered(q: nat)
    | Accepted(q: nat)
    | Rejected(q: nat)

  // ---------------------------------------------------------------- what an acceptable log is

  /** `stack`: what is alive, in order of creation. `slot`: the admitted request. `undecided`: a request
      that was delivered and neither admitted nor rejected yet. */
  datatype Scanned = Bad | Fine(stack: seq<Resource>, slot: Option<nat>, undecided: Option<nat>)

  const LISTENING: seq<Resource> := [DataWorker, Listener]

  function Advance(s: Scanned, x: Event): Scanned {
    if s.Bad? then Bad
    else
      match x
      case Created(r) =>
        if s.undecided.None?
           && match r
              case DataWorker => s.stack == []
              case Listener => s.stack == [DataWorker]
              case Endpoint(q) => s.stack == LISTENING && s.slot == Some(q)
        then s.(stack := s.stack + [r]) else Bad
      case Destroyed(r) =>
        if s.undecided.None? && s.stack != [] && s.stack[|s.stack| - 1] == r
        then Fine(s.stack[..|s.stack| - 1], if r.Endpoint? then None else s.slot, None) else Bad
      case Delivered(q) =>
        if s.undecided.None? && s.stack == LISTENING then s.(undecided := Some(q)) else Bad
      case Accepted(q) =>
        if s.undecided == Some(q) && s.slot.None? then Fine(s.stack, Some(q), None) else Bad
      case Rejected(q) =>
        if s.undecided == Some(q) && s.slot.Some? then s.(undecided := None) else Bad
  }

  function Scan(log: seq<Event>): Scanned {
    if log == [] then Fine([], None, None) else Advance(Scan(log[..|log| - 1]), log[|log| - 1])
  }

  lemma ScanSnoc(log: seq<Event>, x: Event)
    ensures Scan(log + [x]) == Advance(Scan(log), x)
  {
    assert (log + [x])[..|log|] == log;
  }

  lemma {:induction false} ScanPrefix(log: seq<Event>, k: nat)
    requires Scan(log).Fine? && k <= |log|
    ensures Scan(log[..k]).Fine?
    decreases |log|
  {
    if k == |log| {
      assert log[..k] == log;
    } else {
      ScanPrefix(log[..|log| - 1], k);
      assert log[..|log| - 1][..k] == log[..k];
    }
  }

  function Created1(x: Event): multiset<Resource> {
    if x.Created? then multiset{x.r} else multiset{}
  }

  function Destroyed1(x: Event): multiset<Resource> {
    if x.Destroyed? then multiset{x.r} else multiset{}
  }

  function CreatedIn(log: seq<Event>): multiset<Resource> {
    if log == [] then multiset{} else CreatedIn(log[..|log| - 1]) + Created1(log[|log| - 1])
  }

  function DestroyedIn(log: seq<Event>): multiset<Resource> {
    if log == [] then multiset{} else DestroyedIn(log[..|log| - 1]) + Destroyed1(log[|log| - 1])
  }

  function DeliveredIn(log: seq<Event>): multiset<nat> {
    if log == [] then multiset{} else
      DeliveredIn(log[..|log| - 1]) + (if log[|log| - 1].Delivered? then multiset{log[|log| - 1].q} else multiset{})
  }

  function DecidedIn(log: seq<Event>): multiset<nat> {
    if log == [] then multiset{} else
      DecidedIn(log[..|log| - 1])
      + (if log[|log| - 1].Accepted? || log[|log| - 1].Rejected? then multiset{log[|log| - 1].q} else multiset{})
  }

  lemma StackGrows(s: Scanned, r: Resource)
    requires s.Fine? && Advance(s, Created(r)).Fine?
    ensures multiset(Advance(s, Created(r)).stack) == multiset(s.stack) + multiset{r}
  {
    assert Advance(s, Created(r)).stack == s.stack + [r];
  }

  lemma StackShrinks(s: Scanned, r: Resource)
    requires s.Fine? && Advance(s, Destroyed(r)).Fine?
    ensures multiset(Advance(s, Destroyed(r)).stack) + multiset{r} == multiset(s.stack)
  {
    assert s.stack == Advance(s, Destroyed(r)).stack + [r];
  }

  lemma StackStays(s: Scanned, x: Event)
    requires s.Fine? && Advance(s, x).Fine? && !x.Created? && !x.Destroyed?
    ensures Advance(s, x).stack == s.stack
  {
  }

  lemma StackChange(s: Scanned, x: Event)
    requires s.Fine? && Advance(s, x).Fine?
    ensures multiset(Advance(s, x).stack) + Destroyed1(x) == multiset(s.stack) + Created1(x)
  {
    match x
    case Created(r) => StackGrows(s, r);
    case Destroyed(r) => StackShrinks(s, r);
    case _ => StackStays(s, x);
  }

  lemma Balance(c: multiset<Resource>, d: multiset<Resource>, s: multiset<Resource>, t: multiset<Resource>,
                plus: multiset<Resource>, minus: multiset<Resource>)
    requires c == d + s && t + minus == s + plus
    ensures c + plus == (d + minus) + t
  {
    assert c + plus == d + (s + plus);
  }

  /** What was created is what was destroyed plus what is alive: nothing is destroyed twice. */
  lemma {:induction false} ResourcesConserved(log: seq<Event>)
    requires Scan(log).Fine?
    ensures CreatedIn(log) == DestroyedIn(log) + multiset(Scan(log).stack)
  {
    if log != [] {
      var before, x := log[..|log| - 1], log[|log| - 1];
      ResourcesConserved(before);
      StackChange(Scan(before), x);
      Balance(CreatedIn(before), DestroyedIn(before), multiset(Scan(before).stack), multiset(Scan(log).stack),
              Created1(x), Destroyed1(x));
    }
  }

  /** Every request that was delivered was admitted or rejected, exactly once. */
  lemma {:induction false} RequestsConserved(log: seq<Event>)
    requires Scan(log).Fine?
    ensures DeliveredIn(log) == DecidedIn(log) +
              (if Scan(log).undecided.Some? then multiset{Scan(log).undecided.value} else multiset{})
  {
    if log != [] {
      RequestsConserved(log[..|log| - 1]);
    }
  }

  /** While endpoint `q` is alive after entry `i`, it is on top of worker and listener. */
  lemma {:induction false} EndpointStays(log: seq<Event>, i: nat, j: nat)
    requires Scan(log).Fine? && i < j <= |log| && log[i].Created? && log[i].r.Endpoint?
    requires forall k | i < k < j :: log[k] != Destroyed(log[i].r)
    ensures Scan(log[..j]).Fine? && Scan(log[..j]).stack == LISTENING + [log[i].r]
    decreases j
  {
    ScanPrefix(log, j);
    assert log[..j][..j - 1] == log[..j - 1];
    if i < j - 1 {
      EndpointStays(log, i, j - 1);
    }
  }

  lemma OnlyWhileListening(log: seq<Event>, j: nat)
    requires Scan(log).Fine? && j < |log|
    requires (log[j].Created? && log[j].r.Endpoint?) || log[j].Delivered?
    ensures Scan(log[..j]).Fine? && Scan(log[..j]).stack == LISTENING
  {
    ScanPrefix(log, j + 1);
    assert log[..j + 1][..j] == log[..j];
  }

  /** At most one client: between two endpoint creations the first endpoint is closed, and while an
      endpoint is alive no connection request is even looked at. */
  lemma OneClientAtATime(log: seq<Event>, i: nat, j: nat)
    requires Scan(log).Fine? && i < j < |log| && log[i].Created? && log[i].r.Endpoint?
    requires (log[j].Created? && log[j].r.Endpoint?) || log[j].Delivered?
    ensures exists k :: i < k < j && log[k] == Destroyed(log[i].r)
  {
    OnlyWhileListening(log, j);
    if forall k | i < k < j :: log[k] != Destroyed(log[i].r) {
      hide Scan;
      EndpointStays(log, i, j);
    }
  }

  // ---------------------------------------------------------------- the server

  /** One turn of the server loop: the batches of connection callbacks that successive progress calls
      run, whether the endpoint can be created, and how the work with the client ends. */
  datatype Turn = Turn(batches: seq<seq<nat>>, epOk: bool, work: Outcome)

  datatype World = World(workerOk: bool, isAm: bool, registerOk: bool, listenOk: bool, queryOk: bool, turns: seq<Turn>)

  datatype Exit = Returned(ret: int) | Running

  /** The batch in which the wait for a client ends. */
  function FirstBatch(batches: seq<seq<nat>>): seq<nat> {
    if batches == [] then [] else if batches[0] != [] then batches[0] else FirstBatch(batches[1..])
  }

  function TurnOutcome(turn: Turn): Outcome {
    if FirstBatch(turn.batches) == [] then StillWaiting
    else if !turn.epOk then Failure
    else turn.work
  }

  predicate TurnsFail(turns: seq<Turn>) {
    turns != [] &&
    match TurnOutcome(turns[0])
    case Success => TurnsFail(turns[1..])
    case Failure => true
    case StillWaiting => false
  }

  /** The log of one batch of callbacks that finds the slot empty: the first is admitted. */
  function BatchLog(batch: seq<nat>): seq<Event> {
    if batch == [] then []
    else if |batch| == 1 then [Delivered(batch[0]), Accepted(batch[0])]
    else BatchLog(batch[..|batch| - 1]) + [Delivered(batch[|batch| - 1]), Rejected(batch[|batch| - 1])]
  }

  /** The log of one turn that starts with an empty slot. */
  function TurnLog(turn: Turn): seq<Event> {
    var batch := FirstBatch(turn.batches);
    BatchLog(batch)
    + (if batch == [] || !turn.epOk then []
       else if turn.work.StillWaiting? then [Created(Endpoint(batch[0]))]
       else [Created(Endpoint(batch[0])), Destroyed(Endpoint(batch[0]))])
  }

  /** The log of the turns up to the first that does not succeed. */
  function TurnsLog(turns: seq<Turn>): seq<Event> {
    if turns == [] then []
    else TurnLog(turns[0]) + (if TurnOutcome(turns[0]).Success? then TurnsLog(turns[1..]) else [])
  }

  predicate SetupOk(w: World) {
    w.workerOk && (w.isAm ==> w.registerOk) && w.listenOk && w.queryOk
  }

  predicate Fails(w: World) {
    !SetupOk(w) || TurnsFail(w.turns)
  }

  function SetupLog(w: World): seq<Event> {
    if !w.workerOk then []
    else if w.isAm && !w.registerOk then [Created(DataWorker), Destroyed(DataWorker)]
    else if !w.listenOk then [Created(DataWorker), Destroyed(DataWorker)]
    else if !w.queryOk then [Created(DataWorker), Created(Listener), Destroyed(Listener), Destroyed(DataWorker)]
    else [Created(DataWorker), Created(Listener)]
  }

  /** Everything the server does, in order. */
  function ServerLog(w: World): seq<Event> {
    if !SetupOk(w) then SetupLog(w)
    else
      SetupLog(w) + TurnsLog(w.turns)
      + (if TurnsFail(w.turns) then [Destroyed(Listener), Destroyed(DataWorker)] else [])
  }

  /** After one more turn: what the log becomes, and whether the turns that are left decide the outcome. */
  lemma Unfold(log: seq<Event>, turns: seq<Turn>, i: nat)
    requires i < |turns|
    ensures log + TurnsLog(turns[i..]) == log + TurnLog(turns[i])
              + (if TurnOutcome(turns[i]).Success? then TurnsLog(turns[i + 1..]) else [])
    ensures TurnsFail(turns[i..]) == match TurnOutcome(turns[i])
                                     case Success => TurnsFail(turns[i + 1..])
                                     case Failure => true
                                     case StillWaiting => false
  {
    assert turns[i..][1..] == turns[i + 1..];
  }

  /** The wait for a client ends with the first batch of callbacks that has a request. */
  lemma {:induction false} FirstBatchIsFirst(batches: seq<seq<nat>>)
    ensures FirstBatch(batches) == [] <==> forall j | 0 <= j < |batches| :: batches[j] == []
    ensures FirstBatch(batches) != [] ==>
              exists j :: 0 <= j < |batches| && batches[j] == FirstBatch(batches)
                          && forall i | 0 <= i < j :: batches[i] == []
  {
    if batches != [] && batches[0] == [] {
      FirstBatchIsFirst(batches[1..]);
      if FirstBatch(batches) != [] {
        var j :| 0 <= j < |batches[1..]| && batches[1..][j] == FirstBatch(batches[1..])
                 && forall i | 0 <= i < j :: batches[1..][i] == [];
        assert batches[j + 1] == FirstBatch(batches);
        forall i | 0 <= i < j + 1 ensures batches[i] == [] {
          assert i > 0 ==> batches[i] == batches[1..][i - 1];
        }
      } else {
        forall j | 0 <= j < |batches| ensures batches[j] == [] {
          assert j > 0 ==> batches[j] == batches[1..][j - 1];
        }
      }
    } else if batches != [] {
      assert batches[0] == FirstBatch(batches);
    }
  }

  lemma DeliveredPair(log: seq<Event>, q: nat, x: Event)
    requires !x.Delivered?
    ensures DeliveredIn(log + [Delivered(q), x]) == DeliveredIn(log) + multiset{q}
  {
    var l := log + [Delivered(q)];
    assert l[..|log|] == log;
    assert log + [Delivered(q), x] == l + [x] && (l + [x])[..|l|] == l;
  }

  /** Every request of the batch is delivered. */
  lemma {:induction false} BatchIsDelivered(batch: seq<nat>)
    ensures DeliveredIn(BatchLog(batch)) == multiset(batch)
  {
    if batch != [] {
      var before, q := batch[..|batch| - 1], batch[|batch| - 1];
      BatchIsDelivered(before);
      assert batch == before + [q];
      if |batch| == 1 {
        DeliveredPair([], q, Accepted(q));
        assert [] + [Delivered(q), Accepted(q)] == BatchLog(batch);
      } else {
        DeliveredPair(BatchLog(before), q, Rejected(q));
      }
    }
  }

  /** Only the first request of the batch is admitted. */
  lemma {:induction false} FirstIsAdmitted(batch: seq<nat>)
    requires batch != []
    ensures |BatchLog(batch)| > 1 && BatchLog(batch)[1] == Accepted(batch[0])
    ensures forall k | 0 <= k < |BatchLog(batch)| && BatchLog(batch)[k].Accepted? :: k == 1
  {
    if |batch| > 1 {
      FirstIsAdmitted(batch[..|batch| - 1]);
    }
  }

  lemma {:induction false} NoResources(batch: seq<nat>)
    ensures forall x | x in BatchLog(batch) :: !x.Created? && !x.Destroyed?
  {
    if |batch| > 1 {
      NoResources(batch[..|batch| - 1]);
    }
  }

  /** An endpoint is created for the admitted request alone, if it can be, and closed exactly if the work
      with the client ends. */
  lemma TurnEndpoints(turn: Turn, q: nat)
    ensures Created(Endpoint(q)) in TurnLog(turn)
       <==> FirstBatch(turn.batches) != [] && q == FirstBatch(turn.batches)[0] && turn.epOk
    ensures Destroyed(Endpoint(q)) in TurnLog(turn)
       <==> FirstBatch(turn.batches) != [] && q == FirstBatch(turn.batches)[0] && turn.epOk && !turn.work.StillWaiting?
  {
    NoResources(FirstBatch(turn.batches));
  }

  /** A client comes, its endpoint can be created, and the work with it succeeds. */
  predicate Served(turn: Turn) {
    (exists j :: 0 <= j < |turn.batches| && turn.batches[j] != []) && turn.epOk && turn.work == Success
  }

  /** A client comes, and its endpoint or the work with it fails. */
  predicate Broken(turn: Turn) {
    (exists j :: 0 <= j < |turn.batches| && turn.batches[j] != []) && (!turn.epOk || turn.work == Failure)
  }

  lemma LaterTurn(turns: seq<Turn>)
    requires turns != [] && Served(turns[0])
    ensures (exists j :: 0 <= j < |turns| && Broken(turns[j]) && forall i | 0 <= i < j :: Served(turns[i]))
       <==> exists j :: 0 <= j < |turns| - 1 && Broken(turns[1..][j]) && forall i | 0 <= i < j :: Served(turns[1..][i])
  {
    if j :| 0 <= j < |turns| && Broken(turns[j]) && forall i | 0 <= i < j :: Served(turns[i]) {
      assert Broken(turns[1..][j - 1]);
      forall i | 0 <= i < j - 1 ensures Served(turns[1..][i]) {
        assert turns[1..][i] == turns[i + 1];
      }
    }
    if j :| 0 <= j < |turns| - 1 && Broken(turns[1..][j]) && forall i | 0 <= i < j :: Served(turns[1..][i]) {
      assert Broken(turns[j + 1]);
      forall i | 0 <= i < j + 1 ensures Served(turns[i]) {
        assert i > 0 ==> turns[i] == turns[1..][i - 1];
      }
    }
  }

  lemma {:induction false} TurnsFailIff(turns: seq<Turn>)
    ensures TurnsFail(turns)
       <==> exists j :: 0 <= j < |turns| && Broken(turns[j]) && forall i | 0 <= i < j :: Served(turns[i])
  {
    if turns != [] {
      FirstBatchIsFirst(turns[0].batches);
      assert TurnOutcome(turns[0]).Success? <==> Served(turns[0]);
      assert TurnOutcome(turns[0]).Failure? <==> Broken(turns[0]);
      TurnsFailIff(turns[1..]);
      if Served(turns[0]) {
        LaterTurn(turns);
      }
    }
  }

  /** The server ends exactly if its start fails, or the first client that is not served with success fails. */
  lemma EndsIff(w: World)
    ensures Fails(w)
       <==> || !w.workerOk || (w.isAm && !w.registerOk) || !w.listenOk || !w.queryOk
            || exists j :: 0 <= j < |w.turns| && Broken(w.turns[j]) && forall i | 0 <= i < j :: Served(w.turns[i])
  {
    TurnsFailIff(w.turns);
  }

  class ServerProcess {
    var connRequest: Option<nat>
    var log: seq<Event>

    constructor ()
      ensures connRequest.None? && log == []
    {
      connRequest, log := None, [];
    }

    ghost predicate Idle()
      reads this
    {
      Scan(log) == Fine(LISTENING, connRequest, None)
    }

    method Record(x: Event)
      modifies this`log
      ensures log == old(log) + [x] && Scan(log) == Advance(Scan(old(log)), x)
    {
      ScanSnoc(log, x);
      log := log + [x];
    }

    /** The connection callback: the first request is kept, later ones are rejected. */
    method ConnHandleCb(q: nat)
      requires Idle()
      modifies this
      ensures Idle()
      ensures old(connRequest).None? ==>
                connRequest == Some(q) && log == old(log) + [Delivered(q), Accepted(q)]
      ensures old(connRequest).Some? ==>
                connRequest == old(connRequest) && log == old(log) + [Delivered(q), Rejected(q)]
    {
      Record(Delivered(q));
      if connRequest.None? {
        connRequest := Some(q);
        Record(Accepted(q));
      } else {
        Record(Rejected(q));
      }
    }

    method ProgressConnections(batch: seq<nat>)
      requires Idle() && connRequest.None?
      modifies this
      ensures Idle() && log == old(log) + BatchLog(batch)
      ensures connRequest == if batch == [] then None else Some(batch[0])
    {
      for j := 0 to |batch|
        invariant Idle() && log == old(log) + BatchLog(batch[..j])
        invariant connRequest == if j == 0 then None else Some(batch[0])
      {
        assert batch[..j + 1][..j] == batch[..j];
        ConnHandleCb(batch[j]);
        assert log == old(log) + BatchLog(batch[..j + 1]);
      }
      assert batch[..|batch|] == batch;
    }

    /** while (conn_request == NULL) progress: ends with the first request of the first batch that has one. */
    method WaitForClient(batches: seq<seq<nat>>)
      requires Idle() && connRequest.None?
      modifies this
      ensures Idle() && log == old(log) + BatchLog(FirstBatch(batches))
      ensures connRequest == if FirstBatch(batches) == [] then None else Some(FirstBatch(batches)[0])
    {
      var i := 0;
      while connRequest.None? && i < |batches|
        invariant i <= |batches| && Idle()
        invariant if connRequest.None? then log == old(log) && FirstBatch(batches) == FirstBatch(batches[i..])
                  else FirstBatch(batches) != [] && connRequest == Some(FirstBatch(batches)[0])
                       && log == old(log) + BatchLog(FirstBatch(batches))
        decreases |batches| - i
      {
        assert batches[i..][1..] == batches[i + 1..];
        ProgressConnections(batches[i]);
        i := i + 1;
      }
      assert old(log) + [] == old(log);
    }

    /** The data worker with its AM handler; it is destroyed when the handler cannot be registered. */
    method InitDataWorker(w: World) returns (ok: bool)
      requires log == []
      modifies this`log
      ensures ok == (w.workerOk && (w.isAm ==> w.registerOk))
      ensures log == if !w.workerOk then [] else if ok then [Created(DataWorker)]
                     else [Created(DataWorker), Destroyed(DataWorker)]
      ensures Scan(log) == Fine(if ok then [DataWorker] else [], None, None)
    {
      if !w.workerOk {
        return false;
      }
      assert Scan(log) == Fine([], None, None);
      hide Scan;
      Record(Created(DataWorker));
      if w.isAm && !w.registerOk {
        Record(Destroyed(DataWorker));
        return false;
      }
      return true;
    }

    /** Creates the listener, and destroys it itself when the query fails. */
    method StartServer(w: World) returns (ok: bool)
      requires Scan(log) == Fine([DataWorker], None, None) && connRequest.None?
      modifies this`log
      ensures ok == (w.listenOk && w.queryOk)
      ensures Scan(log) == Fine(if ok then LISTENING else [DataWorker], None, None)
      ensures log == old(log) + if !w.listenOk then [] else if ok then [Created(Listener)]
                                else [Created(Listener), Destroyed(Listener)]
    {
      if !w.listenOk {
        return false;
      }
      Record(Created(Listener));
      assert Scan(log) == Fine([DataWorker] + [Listener], None, None) == Fine(LISTENING, None, None);
      if !w.queryOk {
        assert LISTENING[..1] == [DataWorker];
        Record(Destroyed(Listener));
        return false;
      }
      return true;
    }

    /** Worker and listener, undone on the first failure. */
    method Setup(w: World) returns (ok: bool)
      requires log == []
      modifies this
      ensures ok == SetupOk(w) && log == SetupLog(w)
      ensures if ok then Idle() && connRequest.None? else Scan(log) == Fine([], None, None)
    {
      hide Scan;
      connRequest := None;
      ok := InitDataWorker(w);
      if ok {
        ok := StartServer(w);
        if !ok {
          Record(Destroyed(DataWorker));
        }
      }
    }

    method ServeOne(turn: Turn) returns (r: Outcome)
      requires Idle() && connRequest.None?
      modifies this
      ensures r == TurnOutcome(turn) && log == old(log) + TurnLog(turn)
      ensures r.Success? ==> Idle() && connRequest.None?
      ensures r.Failure? ==> Scan(log).Fine? && Scan(log).stack == LISTENING && Scan(log).undecided.None?
      ensures r.StillWaiting? ==> Scan(log).Fine? && Scan(log).undecided.None?
                                  && LISTENING <= Scan(log).stack && |Scan(log).stack| <= 3
    {
      WaitForClient(turn.batches);
      if connRequest.None? {
        return StillWaiting;
      }
      var request := connRequest.value;
      if !turn.epOk {
        return Failure;
      }
      Record(Created(Endpoint(request)));
      if turn.work.StillWaiting? {
        return StillWaiting;
      }
      Record(Destroyed(Endpoint(request)));
      if turn.work.Success? {
        connRequest := None;
      }
      return turn.work;
    }

    /** The server loop; on failure only worker and listener are left. */
    method ServeClients(turns: seq<Turn>) returns (failed: bool)
      requires Idle() && connRequest.None?
      modifies this
      ensures failed <==> TurnsFail(turns)
      ensures log == old(log) + TurnsLog(turns)
      ensures Scan(log).Fine? && Scan(log).undecided.None? && LISTENING <= Scan(log).stack
      ensures |Scan(log).stack| <= if failed then 2 else 3
    {
      hide Scan;
      ghost var end, fails := log + TurnsLog(turns), TurnsFail(turns);
      assert turns[0..] == turns;
      var i := 0;
      while i < |turns|
        invariant 0 <= i <= |turns| && Idle() && connRequest.None?
        invariant log + TurnsLog(turns[i..]) == end && TurnsFail(turns[i..]) == fails
        decreases |turns| - i
      {
        Unfold(log, turns, i);
        var outcome := ServeOne(turns[i]);
        if !outcome.Success? {
          assert end == log;
          return outcome.Failure?;
        }
        i := i + 1;
      }
      assert end == log;
      return false;
    }

    /** The whole life of the server. It returns only after a failure, and then everything it created has
        been destroyed; until then exactly worker, listener and at most one endpoint are alive. */
    method RunServer(w: World) returns (exit: Exit)
      requires log == []
      modifies this
      ensures log == ServerLog(w)
      ensures Scan(log).Fine? && Scan(log).undecided.None?
      ensures exit == if Fails(w) then Returned(-1) else Running
      ensures exit.Returned? ==> Scan(log).stack == []
      ensures exit.Running? ==> LISTENING <= Scan(log).stack && |Scan(log).stack| <= 3
    {
      var ok := Setup(w);
      if !ok {
        return Returned(-1);
      }
      var failed := ServeClients(w.turns);
      if failed {
        Record(Destroyed(Listener));
        Record(Destroyed(DataWorker));
        return Returned(-1);
      }
      return Running;
    }
  }
}
