/** Statements and their iterators on one connection: the busy flag, the statement locks and the
    iterator counter, under any sequence of calls, calls made while a query is running included. */
module Iterators {
  import opened Values

  const USHRT_MAX := 65535

  type StmtId = nat
  type IterId = nat

  datatype Work = Iterating(id: IterId) | Running(stmt: StmtId) | Script

  /** `work`: what SQLite is doing while `busy` is set. `alive`: iterators not cleaned up, with their
      statement; `dead`: those that are. */
  datatype State = State(
    open: bool, busy: bool, unsafe: bool, iterators: nat, locked: set<StmtId>,
    work: Option<Work>, alive: map<IterId, StmtId>, dead: set<IterId>)

  const INIT := State(true, false, false, 0, {}, None, map[], {})

  datatype Outcome = Row | Done | Failure

  datatype Call =
    | Iterate(stmt: StmtId, id: IterId, bindOk: bool)  // a new iterator object
    | Next(id: IterId)
    | Stepped(outcome: Outcome)  // SQLite comes back from the query it was running
    | Return(id: IterId)
    | Run(stmt: StmtId, bindOk: bool)
    | Exec
    | Close
    | UnsafeMode(on: bool)

  /** A row of the guards: statement free, connection open and not busy. */
  predicate Ready(s: State, stmt: StmtId) {
    s.open && !s.busy && stmt !in s.locked
  }

  predicate NoIteratorsUnlessUnsafe(s: State) {
    s.unsafe || s.iterators == 0
  }

  function Cleanup(s: State, id: IterId): State
    requires id in s.alive
  {
    s.(locked := s.locked - {s.alive[id]}, iterators := if s.iterators > 0 then s.iterators - 1 else USHRT_MAX,
       alive := s.alive - {id}, dead := s.dead + {id})
  }

  /** The call takes effect; `None`: it throws, or SQLite is not running anything that could come back. */
  function Effect(s: State, call: Call): Option<State> {
    match call
    case Iterate(stmt, id, bindOk) =>
      if Ready(s, stmt) && s.iterators != USHRT_MAX && bindOk && id !in s.alive && id !in s.dead
      then Some(s.(locked := s.locked + {stmt}, iterators := s.iterators + 1, alive := s.alive[id := stmt]))
      else None
    case Next(id) =>
      if s.busy then None
      else if id in s.alive then Some(s.(busy := true, work := Some(Iterating(id))))
      else Some(s)
    case Stepped(outcome) =>
      if s.work.None? then None
      else
        var free := s.(busy := false, work := None);
        (match s.work.value
         case Running(_) => Some(free)
         case Script => Some(free)
         case Iterating(id) => if outcome.Row? || id !in s.alive then Some(free) else Some(Cleanup(free, id)))
    case Return(id) =>
      if s.busy then None
      else if id in s.alive then Some(Cleanup(s, id))
      else Some(s)
    case Run(stmt, bindOk) =>
      if Ready(s, stmt) && NoIteratorsUnlessUnsafe(s) && bindOk
      then Some(s.(busy := true, work := Some(Running(stmt))))
      else None
    case Exec =>
      if s.open && !s.busy && NoIteratorsUnlessUnsafe(s)
      then Some(s.(busy := true, work := Some(Script)))
      else None
    case Close =>
      if !s.open then Some(s)
      else if s.busy || s.iterators != 0 then None
      else Some(s.(open := false))
    case UnsafeMode(on) => Some(s.(unsafe := on))
  }

  /** A call that throws changes nothing. */
  function After(calls: seq<Call>): State {
    if calls == [] then INIT
    else
      var s := After(calls[..|calls| - 1]);
      match Effect(s, calls[|calls| - 1]) case None => s case Some(s') => s'
  }

  // ---------------------------------------------------------------------------
  // Invariant
  // ---------------------------------------------------------------------------

  ghost predicate Counted(s: State) {
    s.iterators == |s.alive| && s.iterators <= USHRT_MAX
  }

  /** Each locked statement has one iterator alive, and each iterator alive a locked statement of its own. */
  ghost predicate Owned(s: State) {
    && (forall id :: id in s.alive ==> s.alive[id] in s.locked)
    && (forall st :: st in s.locked ==> exists id :: id in s.alive && s.alive[id] == st)
    && (forall a, b :: a in s.alive && b in s.alive && s.alive[a] == s.alive[b] ==> a == b)
  }

  ghost predicate Working(s: State) {
    && (s.busy <==> s.work.Some?)
    && (s.work.Some? ==> s.open)
    && (s.work.Some? && s.work.value.Iterating? ==> s.work.value.id in s.alive)
  }

  ghost predicate Inv(s: State) {
    Counted(s) && Owned(s) && Working(s) && (s.alive != map[] ==> s.open)
  }

  lemma CleanupKeeps(s: State, id: IterId)
    requires Inv(s) && id in s.alive && (s.work.Some? && s.work.value.Iterating? ==> s.work.value.id != id)
    ensures Inv(Cleanup(s, id))
  {
    var s' := Cleanup(s, id);
    assert s.alive == s'.alive[id := s.alive[id]];
    forall st | st in s'.locked ensures exists i :: i in s'.alive && s'.alive[i] == st {
      var i :| i in s.alive && s.alive[i] == st;
      assert i in s'.alive;
    }
  }

  lemma IterateKeeps(s: State, call: Call)
    requires Inv(s) && call.Iterate? && Effect(s, call).Some?
    ensures Inv(Effect(s, call).value)
  {
    var s' := Effect(s, call).value;
    assert s'.alive[call.id] == call.stmt;
    forall st | st in s'.locked ensures exists i :: i in s'.alive && s'.alive[i] == st {
      if st != call.stmt {
        var i :| i in s.alive && s.alive[i] == st;
        assert i in s'.alive && s'.alive[i] == st;
      }
    }
  }

  lemma EffectKeeps(s: State, call: Call)
    requires Inv(s) && Effect(s, call).Some?
    ensures Inv(Effect(s, call).value)
  {
    match call {
      case Iterate(_, _, _) => IterateKeeps(s, call);
      case Return(id) => if id in s.alive { CleanupKeeps(s, id); }
      case Stepped(outcome) =>
        var free := s.(busy := false, work := None);
        if s.work.value.Iterating? && !outcome.Row? { CleanupKeeps(free, s.work.value.id); }
      case Close => if s.open { assert s.alive == map[]; }
      case _ =>
    }
  }

  lemma {:induction false} RunKeeps(calls: seq<Call>)
    ensures Inv(After(calls))
  {
    if calls != [] {
      var front, call := calls[..|calls| - 1], calls[|calls| - 1];
      RunKeeps(front);
      if Effect(After(front), call).Some? { EffectKeeps(After(front), call); }
    }
  }

  // ---------------------------------------------------------------------------
  // Results
  // ---------------------------------------------------------------------------

  /** In every reachable state the counter is the number of iterators not cleaned up, and fits 16 bits. */
  lemma CounterIsExact(calls: seq<Call>)
    ensures After(calls).iterators == |After(calls).alive| <= USHRT_MAX
  {
    RunKeeps(calls);
  }

  /** A locked statement owns exactly one iterator. */
  lemma LockOwner(calls: seq<Call>, st: StmtId) returns (id: IterId)
    requires st in After(calls).locked
    ensures id in After(calls).alive && After(calls).alive[id] == st
    ensures forall other :: other in After(calls).alive && After(calls).alive[other] == st ==> other == id
  {
    RunKeeps(calls);
    id :| id in After(calls).alive && After(calls).alive[id] == st;
  }

  /** Outside unsafe mode no `run` or `exec` gets through while an iterator is alive, and `close` never does. */
  lemma AliveExcludes(calls: seq<Call>, id: IterId, stmt: StmtId, bindOk: bool)
    requires id in After(calls).alive
    ensures var s := After(calls);
            && s.open && Effect(s, Close).None?
            && (!s.unsafe ==> Effect(s, Run(stmt, bindOk)).None? && Effect(s, Exec).None?)
  {
    RunKeeps(calls);
    AliveRefused(After(calls), id, stmt, bindOk);
  }

  lemma AliveRefused(s: State, id: IterId, stmt: StmtId, bindOk: bool)
    requires Inv(s) && id in s.alive
    ensures s.open && Effect(s, Close).None?
    ensures !s.unsafe ==> Effect(s, Run(stmt, bindOk)).None? && Effect(s, Exec).None?
  {
  }

  /** While SQLite is running something, the only call that changes anything but the mode is its return. */
  lemma BusyRefuses(calls: seq<Call>, call: Call)
    requires After(calls).work.Some? && !call.Stepped? && !call.UnsafeMode?
    ensures Effect(After(calls), call).None?
  {
    RunKeeps(calls);
  }

  /** In every reachable state: which calls get through. */
  lemma GetsThrough(calls: seq<Call>, stmt: StmtId, id: IterId, bindOk: bool)
    ensures var s := After(calls);
            var ready := s.open && s.work.None?;
            var unused := forall other :: other in s.alive ==> s.alive[other] != stmt;
            && (Effect(s, Iterate(stmt, id, bindOk)).Some? <==>
                ready && unused && bindOk && |s.alive| < USHRT_MAX && id !in s.alive && id !in s.dead)
            && (Effect(s, Run(stmt, bindOk)).Some? <==>
                ready && unused && bindOk && (s.unsafe || s.alive == map[]))
            && (Effect(s, Exec).Some? <==> ready && (s.unsafe || s.alive == map[]))
            && (Effect(s, Next(id)).Some? <==> s.work.None?)
            && (Effect(s, Return(id)).Some? <==> s.work.None?)
  {
    RunKeeps(calls);
    InUse(After(calls), stmt);
  }

  lemma InUse(s: State, stmt: StmtId)
    requires Inv(s)
    ensures stmt in s.locked <==> exists other :: other in s.alive && s.alive[other] == stmt
    ensures s.iterators == |s.alive| && (s.alive == map[] <==> s.iterators == 0) && (s.busy <==> s.work.Some?)
  {
    assert s.alive == map[] <==> |s.alive| == 0;
  }

  /** And what those that do are followed by: SQLite works on that statement or iterator until it comes back. */
  lemma WorksOn(calls: seq<Call>, call: Call)
    requires Effect(After(calls), call).Some?
    requires call.Run? || call.Exec? || (call.Next? && call.id in After(calls).alive)
    ensures After(calls + [call]).work ==
            Some(match call case Run(stmt, _) => Running(stmt) case Next(id) => Iterating(id) case _ => Script)
    ensures After(calls + [call]).alive == After(calls).alive
  {
    assert (calls + [call])[..|calls|] == calls;
  }

  function AliveAfter(s: State, call: Call, through: bool): map<IterId, StmtId> {
    if call.Iterate? && through then s.alive[call.id := call.stmt]
    else if call.Return? && through then s.alive - {call.id}
    else if call.Stepped? && !call.outcome.Row? && s.work.Some? && s.work.value.Iterating? then
      s.alive - {s.work.value.id}
    else s.alive
  }

  /** How iterators come and go: one is alive from the call that creates it until it is returned or SQLite has no
      further row for it. */
  lemma AliveNext(calls: seq<Call>, call: Call)
    ensures After(calls + [call]).alive == AliveAfter(After(calls), call, Effect(After(calls), call).Some?)
    ensures call.Stepped? ==> After(calls + [call]).work.None?
    ensures call.Close? && Effect(After(calls), call).Some? ==> !After(calls + [call]).open
  {
    assert (calls + [call])[..|calls|] == calls;
    RunKeeps(calls);
  }

  /** Once every iterator has ended, nothing is locked and the connection can be closed. */
  lemma AllEnded(calls: seq<Call>)
    requires After(calls).alive == map[] && !After(calls).busy
    ensures After(calls).locked == {} && Effect(After(calls), Close).Some?
  {
    RunKeeps(calls);
    var s := After(calls);
    assert forall st :: st in s.locked ==> exists id :: id in s.alive;
  }

  // ---------------------------------------------------------------------------
  // The code: guards first, then fields one by one
  // ---------------------------------------------------------------------------

  ghost predicate Does(before: State, call: Call, threw: bool, after: State) {
    threw == Effect(before, call).None? && after == match Effect(before, call) case None => before case Some(s) => s
  }

  class Connection {
    var open: bool
    var busy: bool
    var unsafe: bool
    var iterators: nat
    var locked: set<StmtId>
    var work: Option<Work>
    var alive: map<IterId, StmtId>
    var dead: set<IterId>

    ghost function View(): State
      reads this
    {
      State(open, busy, unsafe, iterators, locked, work, alive, dead)
    }

    constructor ()
      ensures View() == INIT
    {
      open, busy, unsafe, iterators, locked := true, false, false, 0, {};
      work, alive, dead := None, map[], {};
    }

    method Iterate(stmt: StmtId, id: IterId, bindOk: bool) returns (threw: bool)
      requires id !in alive && id !in dead
      modifies this
      ensures Does(old(View()), Call.Iterate(stmt, id, bindOk), threw, View())
    {
      if !open || busy || stmt in locked {
        return true;
      }
      if iterators == USHRT_MAX || !bindOk {
        return true;
      }
      locked := locked + {stmt};
      iterators := iterators + 1;
      alive := alive[id := stmt];
      threw := false;
    }

    /** The first half of `next`, up to the call into SQLite. */
    method Next(id: IterId) returns (threw: bool)
      modifies this
      ensures Does(old(View()), Call.Next(id), threw, View())
    {
      if busy {
        return true;
      }
      if id in alive {
        busy := true;
        work := Some(Iterating(id));
      }
      threw := false;
    }

    /** The second half of `next`, `run` or `exec`, once SQLite is back. */
    method Stepped(outcome: Outcome)
      requires work.Some? && Inv(View())
      modifies this
      ensures Does(old(View()), Call.Stepped(outcome), false, View()) && Inv(View())
    {
      EffectKeeps(View(), Call.Stepped(outcome));
      var was := work.value;
      if was.Iterating? { CounterPositive(View(), was.id); }
      busy := false;
      work := None;
      if was.Iterating? && !outcome.Row? {
        CleanUp(was.id);
      }
    }

    method CleanUp(id: IterId)
      requires id in alive && iterators > 0
      modifies this
      ensures View() == Cleanup(old(View()), id)
    {
      locked := locked - {alive[id]};
      iterators := iterators - 1;
      alive, dead := alive - {id}, dead + {id};
    }

    method Return(id: IterId) returns (threw: bool)
      requires Inv(View())
      modifies this
      ensures Does(old(View()), Call.Return(id), threw, View()) && Inv(View())
    {
      if busy {
        return true;
      }
      if id in alive {
        EffectKeeps(View(), Call.Return(id));
        CounterPositive(View(), id);
        CleanUp(id);
      }
      threw := false;
    }

    /** The first half of `run`. */
    method Run(stmt: StmtId, bindOk: bool) returns (threw: bool)
      modifies this
      ensures Does(old(View()), Call.Run(stmt, bindOk), threw, View())
    {
      if !open || busy || stmt in locked {
        return true;
      }
      if !unsafe && iterators != 0 {
        return true;
      }
      if !bindOk {
        return true;
      }
      busy := true;
      work := Some(Running(stmt));
      threw := false;
    }

    /** The first half of `exec`: the connection is busy until the whole script is done. */
    method Exec() returns (threw: bool)
      modifies this
      ensures Does(old(View()), Call.Exec, threw, View())
    {
      if !open || busy {
        return true;
      }
      if !unsafe && iterators != 0 {
        return true;
      }
      busy := true;
      work := Some(Script);
      threw := false;
    }

    method Close() returns (threw: bool)
      modifies this
      ensures Does(old(View()), Call.Close, threw, View())
    {
      if open {
        if busy || iterators != 0 {
          return true;
        }
        open := false;
      }
      threw := false;
    }
  }

  lemma CounterPositive(s: State, id: IterId)
    requires Inv(s) && id in s.alive
    ensures s.iterators > 0
  {
  }
}
