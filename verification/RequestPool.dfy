/** The request memory of the hello-world program: UCX hands out blocks, old or new, that carry the
    program's `completed` flag. The initialiser runs only for new memory, so a recycled block is fit for
    use only because `ucx_wait` clears the flag before it gives the block back. */
module RequestPool {
  import opened Common

  datatype Request = Null | Error | Block(b: nat)

  /** What a program and UCX can do with the pool, in any order. */
  datatype Command =
    | Send(posted: Posted, reuse: Option<nat>)
    | RunHandlers(handlers: seq<nat>)
    | WaitFor(op: nat, schedule: seq<seq<nat>>, statusOk: bool)
    | StartInternal(reuse: Option<nat>)
    | EndInternal(b: nat)

  // ---------------------------------------------------------------- what a sequence of commands means

  /** Operations by number, without blocks and flags. `open`: their handler is still to run; `ran`: it has
      run; `kept`: posted with a request that was not given back; `waited`: given back by a wait. */
  datatype Ledger = Ledger(next: nat, open: set<nat>, ran: set<nat>, kept: set<nat>, waited: set<nat>)

  function Numbers(handlers: seq<nat>): set<nat> {
    set j | 0 <= j < |handlers| :: handlers[j]
  }

  /** A progress call runs the handlers of those operations that are still open. */
  function Handled(l: Ledger, handlers: seq<nat>): Ledger {
    l.(open := l.open - Numbers(handlers), ran := l.ran + (l.open * Numbers(handlers)))
  }

  /** Progress calls until the operation's own handler has run, or there are no more. */
  function Polled(l: Ledger, op: nat, schedule: seq<seq<nat>>): Ledger
    decreases |schedule|
  {
    if op in l.ran || schedule == [] then l else Polled(Handled(l, schedule[0]), op, schedule[1..])
  }

  lemma {:induction false} PolledFrame(l: Ledger, op: nat, schedule: seq<seq<nat>>)
    ensures var m := Polled(Ledger(0, l.open, l.ran, {}, {}), op, schedule);
            Polled(l, op, schedule) == l.(open := m.open, ran := m.ran)
    decreases |schedule|
  {
    if op !in l.ran && schedule != [] {
      PolledFrame(Handled(l, schedule[0]), op, schedule[1..]);
    }
  }

  lemma NumbersNext(handlers: seq<nat>, j: nat)
    requires j < |handlers|
    ensures Numbers(handlers[..j + 1]) == Numbers(handlers[..j]) + {handlers[j]}
  {
    assert handlers[..j + 1][j] == handlers[j];
    forall o | o in Numbers(handlers[..j]) ensures o in Numbers(handlers[..j + 1]) {
      var i :| 0 <= i < j && handlers[..j][i] == o;
      assert handlers[..j + 1][i] == o;
    }
  }

  function Execute(l: Ledger, command: Command): Ledger {
    match command
    case Send(posted, _) =>
      var op := l.next;
      match posted {
        case Immediate => l.(next := op + 1)
        case Failed => l.(next := op + 1)
        case Pending(false) => l.(next := op + 1, open := l.open + {op}, kept := l.kept + {op})
        case Pending(true) => l.(next := op + 1, ran := l.ran + {op}, kept := l.kept + {op})
      }
    case RunHandlers(handlers) => Handled(l, handlers)
    case WaitFor(op, schedule, _) =>
      if op !in l.kept then l
      else
        var m := Polled(l, op, schedule);
        if op in m.ran then m.(kept := m.kept - {op}, waited := m.waited + {op}) else m
    case StartInternal(_) => l
    case EndInternal(_) => l
  }

  function ExecuteAll(l: Ledger, commands: seq<Command>): Ledger {
    if commands == [] then l
    else Execute(ExecuteAll(l, commands[..|commands| - 1]), commands[|commands| - 1])
  }

  // ---------------------------------------------------------------- what the ledger promises

  ghost predicate Sound(l: Ledger) {
    && l.open !! l.ran && l.kept !! l.waited && l.kept <= l.open + l.ran && l.waited <= l.ran
    && forall o | o in l.open + l.ran :: o < l.next
  }

  /** Nothing is taken back: a handler that has run has run, and an operation that was posted with a request
      is either waited for or still kept. */
  ghost predicate Grows(l: Ledger, m: Ledger) {
    && Sound(m) && l.next <= m.next && l.ran <= m.ran && l.waited <= m.waited && l.kept <= m.kept + m.waited
  }

  lemma {:induction false} PolledGrows(l: Ledger, op: nat, schedule: seq<seq<nat>>)
    requires Sound(l)
    ensures var m := Polled(l, op, schedule);
            && Grows(l, m) && m.kept == l.kept && m.waited == l.waited && m.next == l.next
            && (op in l.open + l.ran ==>
                  (op in m.ran <==> op in l.ran || exists b :: 0 <= b < |schedule| && op in schedule[b]))
    decreases |schedule|
  {
    if op !in l.ran && schedule != [] {
      var m := Handled(l, schedule[0]);
      PolledGrows(m, op, schedule[1..]);
      assert op in Numbers(schedule[0]) <==> op in schedule[0];
      if b :| 0 <= b < |schedule| && op in schedule[b] {
        assert b > 0 ==> op in schedule[1..][b - 1];
      }
      if b :| 0 <= b < |schedule[1..]| && op in schedule[1..][b] {
        assert op in schedule[b + 1];
      }
    }
  }

  lemma ExecuteGrows(l: Ledger, command: Command)
    requires Sound(l)
    ensures Grows(l, Execute(l, command))
  {
    if command.WaitFor? {
      PolledGrows(l, command.op, command.schedule);
    }
  }

  lemma {:induction false} AllGrow(l: Ledger, commands: seq<Command>, i: nat)
    requires Sound(l) && i <= |commands|
    ensures Sound(ExecuteAll(l, commands[..i])) && Grows(ExecuteAll(l, commands[..i]), ExecuteAll(l, commands))
    decreases |commands|
  {
    if i == |commands| {
      assert commands[..i] == commands;
      if i > 0 {
        AllGrow(l, commands[..i - 1], i - 1);
        assert commands[..i - 1][..i - 1] == commands[..i - 1];
        ExecuteGrows(ExecuteAll(l, commands[..i - 1]), commands[i - 1]);
      }
    } else {
      var before := commands[..|commands| - 1];
      AllGrow(l, before, i);
      assert before[..i] == commands[..i];
      ExecuteGrows(ExecuteAll(l, before), commands[|commands| - 1]);
    }
  }

  /** The operation that command `i` posts, if it is a send. */
  function NumberAt(l: Ledger, commands: seq<Command>, i: nat): nat
    requires i <= |commands|
  {
    ExecuteAll(l, commands[..i]).next
  }

  /** Sends are numbered in order, whatever else happens. */
  lemma {:induction false} NumberedInOrder(l: Ledger, commands: seq<Command>, i: nat)
    requires Sound(l) && i < |commands|
    ensures NumberAt(l, commands, i + 1) == NumberAt(l, commands, i) + if commands[i].Send? then 1 else 0
  {
    AllGrow(l, commands, i);
    assert commands[..i + 1][..i] == commands[..i];
    if commands[i].WaitFor? {
      PolledGrows(ExecuteAll(l, commands[..i]), commands[i].op, commands[i].schedule);
    }
  }

  lemma StepAt(l: Ledger, commands: seq<Command>, i: nat)
    requires Sound(l) && i < |commands|
    ensures Sound(ExecuteAll(l, commands[..i]))
    ensures ExecuteAll(l, commands[..i + 1]) == Execute(ExecuteAll(l, commands[..i]), commands[i])
  {
    AllGrow(l, commands, i);
    assert commands[..i + 1][..i] == commands[..i];
  }

  lemma Between(l: Ledger, commands: seq<Command>, i: nat, j: nat)
    requires Sound(l) && i <= j <= |commands|
    ensures Grows(ExecuteAll(l, commands[..i]), ExecuteAll(l, commands[..j]))
  {
    AllGrow(l, commands[..j], i);
    assert commands[..j][..i] == commands[..i];
  }

  /** A wait on a request returns if the operation's handler ran in the call that posted it, or in a progress
      call between, or runs in one of the wait's own. */
  lemma WaitReturns(l: Ledger, commands: seq<Command>, i: nat, j: nat)
    requires Sound(l) && i < j < |commands| && commands[i].Send? && commands[i].posted.Pending?
    requires commands[j].WaitFor? && commands[j].op == NumberAt(l, commands, i)
    requires var o := commands[j].op;
             || commands[i].posted.inCall
             || (exists b :: 0 <= b < |commands[j].schedule| && o in commands[j].schedule[b])
             || exists m :: i < m < j && commands[m].RunHandlers? && o in commands[m].handlers
    ensures commands[j].op in ExecuteAll(l, commands).waited
  {
    var o := commands[j].op;
    StepAt(l, commands, i);
    StepAt(l, commands, j);
    Between(l, commands, i + 1, j);
    if m :| i < m < j && commands[m].RunHandlers? && o in commands[m].handlers {
      StepAt(l, commands, m);
      Between(l, commands, i + 1, m);
      Between(l, commands, m + 1, j);
      assert o in Numbers(commands[m].handlers);
    }
    PolledGrows(ExecuteAll(l, commands[..j]), o, commands[j].schedule);
    AllGrow(l, commands, j + 1);
  }

  /** And only a wait gives an operation back, one that was posted with a request before it. */
  lemma {:induction false} WaitedWasPosted(l: Ledger, commands: seq<Command>, o: nat)
    requires Sound(l) && l.kept == l.waited == {}
    ensures o in ExecuteAll(l, commands).waited ==>
              exists i, j :: 0 <= i < j < |commands| && commands[i].Send? && commands[i].posted.Pending?
                             && NumberAt(l, commands, i) == o && commands[j].WaitFor? && commands[j].op == o
    ensures o in ExecuteAll(l, commands).kept ==>
              exists i :: 0 <= i < |commands| && commands[i].Send? && commands[i].posted.Pending?
                          && NumberAt(l, commands, i) == o
  {
    if commands != [] {
      var n := |commands| - 1;
      var before := commands[..n];
      WaitedWasPosted(l, before, o);
      AllGrow(l, before, n);
      assert before[..n] == before;
      assert forall i | 0 <= i <= n :: before[..i] == commands[..i];
      assert forall i | 0 <= i < n :: NumberAt(l, before, i) == NumberAt(l, commands, i) && before[i] == commands[i];
      if commands[n].WaitFor? {
        PolledGrows(ExecuteAll(l, before), commands[n].op, commands[n].schedule);
      }
    }
  }

  class Pool {
    var completed: map<nat, int>   // flag of every block that was ever initialised
    var free: set<nat>             // blocks UCX may hand out again
    var owner: map<nat, nat>       // operation a block in use belongs to
    var pending: map<nat, nat>     // operation whose handler is still to run, and its block
    var internal: set<nat>         // blocks of flush and close: no handler
    var ran: set<nat>              // operations whose handler has run
    var nextOp: nat
    var nextBlock: nat             // memory from here on was never initialised

    ghost predicate Valid()
      reads this
    {
      && free + owner.Keys + internal == completed.Keys
      && (forall b | b in completed :: b < nextBlock)
      && free !! owner.Keys !! internal
      && (forall b | b in free :: completed[b] == 0)
      && (forall b | b in internal :: completed[b] == 0)
      && (forall b | b in owner :: owner[b] < nextOp && (completed[b] != 0 <==> owner[b] in ran))
      && (forall b | b in owner && owner[b] !in ran :: owner[b] in pending && pending[owner[b]] == b)
      && (forall o | o in pending :: o !in ran && pending[o] in owner && owner[pending[o]] == o)
      && (forall o | o in ran || o in pending :: o < nextOp)
    }

    constructor ()
      ensures Valid() && free == {} && owner == map[] && pending == map[] && ran == {}
    {
      completed, free, owner, pending, internal, ran := map[], {}, map[], map[], {}, {};
      nextOp, nextBlock := 0, 0;
    }

    /** UCX takes a block: `reuse` names a free one, otherwise new memory is initialised. */
    method Allocate(reuse: Option<nat>) returns (b: nat)
      requires Valid() && (reuse.Some? ==> reuse.value in free)
      modifies this`completed, this`free, this`nextBlock
      ensures b !in owner && b !in internal && b < nextBlock && old(nextBlock) <= nextBlock
      ensures free == old(free) - {b}
      ensures completed == old(completed)[b := 0]
    {
      match reuse
      case Some(r) =>
        b := r;
        free := free - {b};
        assert completed == completed[b := 0];
      case None =>
        b := nextBlock;
        nextBlock := nextBlock + 1;
        completed := completed[b := 0];  // request_init
    }

    method Bind(op: nat, reuse: Option<nat>) returns (b: nat)
      requires Valid() && (reuse.Some? ==> reuse.value in free)
      requires op < nextOp && op !in ran && op !in pending && forall b | b in owner :: owner[b] != op
      modifies this`completed, this`free, this`nextBlock, this`owner, this`pending
      ensures Valid() && b !in old(owner) && owner == old(owner)[b := op] && pending == old(pending)[op := b]
    {
      b := Allocate(reuse);
      owner := owner[b := op];
      pending := pending[op := b];
    }

    /** send_handler, recv_handler */
    method Handler(op: nat)
      requires Valid() && op in pending
      modifies this`completed, this`pending, this`ran
      ensures Valid() && ran == old(ran) + {op} && op !in pending && pending.Keys == old(pending.Keys) - {op}
    {
      completed := completed[pending[op] := 1];
      ran := ran + {op};
      pending := map o | o in pending && o != op :: pending[o];
    }

    /** A send or receive with a handler: at once, in error, or with a block that is this operation's. */
    method Post(posted: Posted, reuse: Option<nat>) returns (r: Request, op: nat)
      requires Valid() && (reuse.Some? ==> reuse.value in free)
      modifies this
      ensures Valid() && op == old(nextOp) && op !in old(ran)
      ensures posted.Immediate? ==> r.Null?
      ensures posted.Failed? ==> r.Error?
      ensures posted.Pending? ==> r.Block? && r.b !in old(owner) && owner == old(owner)[r.b := op]
      ensures !posted.Pending? ==> owner == old(owner)
      ensures nextOp == op + 1 && op !in old(pending) && op !in old(owner).Values
      ensures pending.Keys == if posted == Pending(false) then old(pending.Keys) + {op} else old(pending.Keys)
      ensures ran == if posted == Pending(true) then old(ran) + {op} else old(ran)
    {
      op := nextOp;
      nextOp := nextOp + 1;
      match posted
      case Immediate => r := Null;
      case Failed => r := Error;
      case Pending(inCall) =>
        var b := Bind(op, reuse);
        if inCall {
          Handler(op);
        }
        r := Block(b);
    }

    /** Flush or close: a request without a handler. */
    method PostInternal(reuse: Option<nat>) returns (b: nat)
      requires Valid() && (reuse.Some? ==> reuse.value in free)
      modifies this
      ensures Valid() && b in internal && b !in old(internal)
      ensures owner == old(owner) && ran == old(ran) && pending == old(pending) && nextOp == old(nextOp)
    {
      b := Allocate(reuse);
      internal := internal + {b};
    }

    method FreeInternal(b: nat)
      requires Valid() && b in internal
      modifies this
      ensures Valid() && b in free && owner == old(owner) && ran == old(ran) && pending == old(pending)
      ensures nextOp == old(nextOp)
    {
      internal := internal - {b};
      free := free + {b};
    }

    /** One progress call runs the handlers of any operations that are pending. */
    method Progress(handlers: seq<nat>)
      requires Valid()
      modifies this`completed, this`pending, this`ran
      ensures Valid()
      ensures pending.Keys == old(pending.Keys) - Numbers(handlers)
      ensures ran == old(ran) + (old(pending.Keys) * Numbers(handlers))
    {
      for j := 0 to |handlers|
        invariant Valid() && pending.Keys == old(pending.Keys) - Numbers(handlers[..j])
        invariant ran == old(ran) + (old(pending.Keys) * Numbers(handlers[..j]))
      {
        NumbersNext(handlers, j);
        if handlers[j] in pending {
          Handler(handlers[j]);
        }
      }
      assert handlers[..|handlers|] == handlers;
    }

    /** Clears the flag and gives the block back to UCX. */
    method Release(b: nat)
      requires Valid() && b in owner && owner[b] in ran
      modifies this`completed, this`owner, this`free
      ensures Valid() && b in free && completed == old(completed)[b := 0] && owner == old(owner) - {b}
    {
      completed := completed[b := 0];
      owner := owner - {b};
      free := free + {b};
    }

    /** ucx_wait: on a real request it returns only after that operation's own handler has run, whatever
        other handlers ran meanwhile, and it gives the block back with a clear flag. */
    method UcxWait(r: Request, op: nat, schedule: seq<seq<nat>>, statusOk: bool) returns (status: Outcome)
      requires Valid() && (r.Block? ==> r.b in owner && owner[r.b] == op)
      modifies this
      ensures Valid() && ran >= old(ran) && nextOp == old(nextOp)
      ensures r.Error? ==> status.Failure? && unchanged(this)
      ensures r.Null? ==> status.Success? && unchanged(this)
      ensures r.Block? && !status.StillWaiting? ==>
                op in ran && r.b in free && completed[r.b] == 0 && status == (if statusOk then Success else Failure)
      ensures r.Block? ==> (status.StillWaiting? <==> op !in ran)
      ensures r.Block? && status.StillWaiting? ==> forall k | 0 <= k < |schedule| :: op !in schedule[k]
      ensures r.Block? ==>
                var l := Polled(Ledger(0, old(pending.Keys), old(ran), {}, {}), op, schedule);
                pending.Keys == l.open && ran == l.ran
      ensures owner == if r.Block? && !status.StillWaiting? then old(owner) - {r.b} else old(owner)
    {
      if r.Error? {
        return Failure;
      }
      if r.Null? {
        return Success;
      }
      var i := 0;
      while completed[r.b] == 0 && i < |schedule|
        invariant i <= |schedule| && Valid() && ran >= old(ran) && owner == old(owner) && r.b in owner
        invariant completed[r.b] == 0 ==> forall k | 0 <= k < i :: op !in schedule[k]
        invariant nextOp == old(nextOp)
        invariant Polled(Ledger(0, old(pending.Keys), old(ran), {}, {}), op, schedule)
               == Polled(Ledger(0, pending.Keys, ran, {}, {}), op, schedule[i..])
        decreases |schedule| - i
      {
        assert op in pending;
        assert schedule[i..][1..] == schedule[i + 1..];
        Progress(schedule[i]);
        i := i + 1;
      }
      if completed[r.b] == 0 {
        return StillWaiting;
      }
      Release(r.b);
      return if statusOk then Success else Failure;
    }

    /** The operations as the ledger has them. */
    ghost predicate Agrees(l: Ledger)
      reads this
    {
      nextOp == l.next && pending.Keys == l.open && ran == l.ran
    }

    /** One command. `requests` are the operations not waited for yet, with their blocks. */
    method Do(command: Command, requests: map<nat, nat>, waited: set<nat>)
      returns (requests': map<nat, nat>, waited': set<nat>)
      requires Valid() && waited <= ran
      requires forall o | o in requests :: requests[o] in owner && owner[requests[o]] == o
      modifies this
      ensures Valid() && waited' <= ran
      ensures forall o | o in requests' :: requests'[o] in owner && owner[requests'[o]] == o
      ensures var l := Execute(Ledger(old(nextOp), old(pending.Keys), old(ran), requests.Keys, waited), command);
              Agrees(l) && waited' == l.waited && requests'.Keys == l.kept
    {
      requests', waited' := requests, waited;
      match command
      case Send(posted, reuse) =>
        var r, op := Post(posted, if reuse.Some? && reuse.value in free then reuse else None);
        if r.Block? {
          requests' := requests[op := r.b];
        }
      case RunHandlers(handlers) =>
        Progress(handlers);
      case WaitFor(op, schedule, statusOk) =>
        if op in requests {
          PolledFrame(Ledger(nextOp, pending.Keys, ran, requests.Keys, waited), op, schedule);
          var status := UcxWait(Block(requests[op]), op, schedule, statusOk);
          if !status.StillWaiting? {
            waited' := waited + {op};
            requests' := requests - {op};
          }
        }
      case StartInternal(reuse) =>
        var b := PostInternal(if reuse.Some? && reuse.value in free then reuse else None);
      case EndInternal(b) =>
        if b in internal {
          FreeInternal(b);
        }
    }

    /** Any sequence of posts, handler runs, waits and frees, with any reuse of free blocks: a free block
        always has a clear flag, and the blocks and flags give exactly the operations whose handler has run
        and the waits that have returned as the ledger of operations has them. */
    method AnySequence(commands: seq<Command>) returns (waited: set<nat>)
      requires Valid()
      modifies this
      ensures Valid() && waited <= ran && (forall b | b in free :: completed[b] == 0)
      ensures var l := ExecuteAll(Ledger(old(nextOp), old(pending.Keys), old(ran), {}, {}), commands);
              Agrees(l) && waited == l.waited
    {
      waited := {};
      var requests: map<nat, nat> := map[];
      ghost var l := Ledger(nextOp, pending.Keys, ran, {}, {});
      ghost var l0 := l;
      for i := 0 to |commands|
        invariant Valid() && waited <= ran && l == ExecuteAll(l0, commands[..i])
        invariant Agrees(l) && waited == l.waited && requests.Keys == l.kept
        invariant forall o | o in requests :: requests[o] in owner && owner[requests[o]] == o
      {
        assert commands[..i + 1][..i] == commands[..i];
        assert l == Ledger(nextOp, pending.Keys, ran, requests.Keys, waited);
        l := Execute(l, commands[i]);
        requests, waited := Do(commands[i], requests, waited);
      }
      assert commands[..|commands|] == commands;
    }
  }
}
