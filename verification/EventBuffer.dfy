/** Change events held back until their transaction commits. */
module EventBuffer {
  import opened Values

  datatype Event =
    | Insert(table: string, newRow: Row)
    | Delete(table: string, oldRow: Row)
    | Update(table: string, oldRow: Row, newRow: Row)

  /** How the text of a statement begins; `Plain` is everything else. */
  datatype Text = Begin | Commit | Rollback | Plain

  /** One call: its text, whether it comes through `execute_batch`, and how SQLite takes it.
      `ok` false: an error, after which `aborts` says whether SQLite rolled the transaction back.
      `events`: the row changes of a plain statement, `rows`: the count SQLite reports for it. */
  datatype Call = Call(text: Text, batch: bool, ok: bool, aborts: bool, events: seq<Event>, rows: nat)

  datatype State = State(open: bool, pending: seq<Event>, applied: seq<Event>)

  /** BEGIN is an error inside a transaction, COMMIT and ROLLBACK outside; otherwise SQLite decides. */
  predicate Succeeds(open: bool, c: Call) {
    c.ok && match c.text case Begin => !open case Plain => true case _ => open
  }

  function OpenAfter(open: bool, c: Call): bool {
    if Succeeds(open, c) then c.text.Begin? || (open && c.text.Plain?)
    else open && !(c.text.Plain? && c.aborts)
  }

  /** Changes seen by the per-statement session; only plain statements through `execute` have any. */
  function Captured(c: Call): seq<Event> {
    if c.text.Plain? && !c.batch && c.rows > 0 then c.events else []
  }

  function Step(s: State, c: Call): State {
    var open := OpenAfter(s.open, c);
    if !Succeeds(s.open, c) then s.(open := open)
    else
      match c.text
      case Begin => State(open, if c.batch then s.pending else [], s.applied)
      case Rollback => State(open, [], s.applied)
      case Commit => State(open, [], s.applied + s.pending)
      case Plain =>
        if open then s.(pending := s.pending + Captured(c)) else s.(applied := s.applied + Captured(c))
  }

  function After(s: State, calls: seq<Call>): State
    decreases calls
  {
    if calls == [] then s else After(Step(s, calls[0]), calls[1..])
  }

  const INIT := State(false, [], [])

  // ---------------------------------------------------------------------------
  // The code
  // ---------------------------------------------------------------------------

  class Database {
    var open: bool
    var pending: seq<Event>
    var applied: seq<Event>  // what the engine has been given

    ghost function View(): State
      reads this
    {
      State(open, pending, applied)
    }

    constructor ()
      ensures View() == INIT
    {
      open, pending, applied := false, [], [];
    }

    /** Events reach the engine one by one, in order. */
    method ApplyEvents(events: seq<Event>)
      modifies `applied
      ensures applied == old(applied) + events
    {
      for i := 0 to |events|
        invariant applied == old(applied) + events[..i]
      {
        applied := applied + [events[i]];
        assert events[..i + 1] == events[..i] + [events[i]];
      }
      assert events[..|events|] == events;
    }

    method Execute(c: Call) returns (ok: bool)
      requires !c.batch
      modifies this
      ensures ok == Succeeds(old(open), c) && View() == Step(old(View()), c)
      ensures ok && c.text.Plain? && c.rows > 0 ==>
                if old(open) then pending == old(pending) + c.events && applied == old(applied)
                else applied == old(applied) + c.events && pending == old(pending)
      ensures ok && c.text.Commit? ==> applied == old(applied) + old(pending) && pending == []
      ensures ok && (c.text.Begin? || c.text.Rollback?) ==> applied == old(applied) && pending == []
      ensures !ok || (c.text.Plain? && c.rows == 0) ==> applied == old(applied) && pending == old(pending)
    {
      var wasInTransaction := open;
      ok := Succeeds(open, c);
      open := OpenAfter(open, c);
      if !ok {
        return;
      }
      var events := if c.rows > 0 && c.text.Plain? then c.events else [];
      var shouldApplyPending := wasInTransaction && !open && c.text.Commit?;
      if c.text.Rollback? {
        pending := [];
      } else if c.text.Begin? {
        pending := [];
      } else if events != [] {
        if open {
          pending := pending + events;
        } else {
          ApplyEvents(events);
        }
      }
      if shouldApplyPending {
        var held := pending;
        pending := [];
        if held != [] {
          ApplyEvents(held);
        }
      }
    }

    method ExecuteBatch(c: Call) returns (ok: bool)
      requires c.batch
      modifies this
      ensures ok == Succeeds(old(open), c) && View() == Step(old(View()), c)
      ensures ok && c.text.Commit? ==> applied == old(applied) + old(pending) && pending == []
      ensures ok && c.text.Rollback? ==> applied == old(applied) && pending == []
      ensures !ok || c.text.Begin? || c.text.Plain? ==> applied == old(applied) && pending == old(pending)
    {
      var wasInTransaction := open;
      ok := Succeeds(open, c);
      open := OpenAfter(open, c);
      if !ok {
        return;
      }
      if c.text.Rollback? {
        pending := [];
      } else if c.text.Commit? && wasInTransaction {
        var held := pending;
        pending := [];
        if held != [] {
          ApplyEvents(held);
        }
      }
    }
  }

  // ---------------------------------------------------------------------------
  // The promise: committed events, in the order they were executed
  // ---------------------------------------------------------------------------

  /** The transaction open now will be committed. */
  predicate Commits(calls: seq<Call>) {
    calls != [] &&
    var c := calls[0];
    if !OpenAfter(true, c) then c.text.Commit? else Commits(calls[1..])
  }

  /** Events of the statements that are committed, those of the open transaction included if it will be. */
  function Committed(calls: seq<Call>, open: bool): seq<Event>
    decreases calls
  {
    if calls == [] then []
    else
      var c, rest := calls[0], calls[1..];
      var open' := OpenAfter(open, c);
      (if Succeeds(open, c) && (open' ==> Commits(rest)) then Captured(c) else []) + Committed(rest, open')
  }

  /** Stale events: left over from a transaction SQLite rolled back by itself, and committed by a later
      one because a BEGIN through `execute_batch` does not clear the buffer. */
  function Stale(s: State, calls: seq<Call>): nat
    decreases calls
  {
    if calls == [] then 0
    else
      var c, rest := calls[0], calls[1..];
      (if c.text.Begin? && c.batch && Succeeds(s.open, c) && Commits(rest) then |s.pending| else 0)
      + Stale(Step(s, c), rest)
  }

  /** What the open transaction contributes when it is committed. */
  function Held(s: State, calls: seq<Call>): seq<Event> {
    if s.open && Commits(calls) then s.pending else []
  }

  lemma {:induction false} AppliedIsCommitted(s: State, calls: seq<Call>)
    ensures Stale(s, calls) == 0 ==> After(s, calls).applied == s.applied + Held(s, calls) + Committed(calls, s.open)
    ensures |After(s, calls).applied| == |s.applied| + |Held(s, calls)| + |Committed(calls, s.open)| + Stale(s, calls)
    decreases calls
  {
    if calls != [] {
      var c, rest := calls[0], calls[1..];
      var s' := Step(s, c);
      AppliedIsCommitted(s', rest);
      OneCall(s, c, rest);
      assert [c] + rest == calls;
      var now := if Succeeds(s.open, c) && (s'.open ==> Commits(rest)) then Captured(c) else [];
      var stale := if c.text.Begin? && c.batch && Succeeds(s.open, c) && Commits(rest) then s.pending else [];
      assert Committed(calls, s.open) == now + Committed(rest, s'.open);
      assert Stale(s, calls) == |stale| + Stale(s', rest);
      Rearranged(s.applied + Held(s, calls), stale, now, Committed(rest, s'.open));
    }
  }

  lemma Rearranged(a: seq<Event>, stale: seq<Event>, now: seq<Event>, rest: seq<Event>)
    ensures |stale| == 0 ==> a + stale + now + rest == a + (now + rest)
    ensures |a + stale + now + rest| == |a| + |now + rest| + |stale|
  {
  }

  lemma OneCall(s: State, c: Call, rest: seq<Call>)
    ensures var s', all := Step(s, c), [c] + rest;
            var now := if Succeeds(s.open, c) && (s'.open ==> Commits(rest)) then Captured(c) else [];
            var stale := if c.text.Begin? && c.batch && Succeeds(s.open, c) && Commits(rest) then s.pending else [];
            && s'.open == OpenAfter(s.open, c)
            && s'.applied + Held(s', rest) == s.applied + Held(s, all) + stale + now
  {
  }

  // The same promise, said of the run alone.

  /** Whether a transaction is open before call `i`. */
  function OpenAt(calls: seq<Call>, open: bool, i: nat): bool
    requires i <= |calls|
  {
    if i == 0 then open else OpenAfter(OpenAt(calls, open, i - 1), calls[i - 1])
  }

  /** Call `k` is the COMMIT of the transaction that is open after call `i`. */
  ghost predicate CommittedBy(calls: seq<Call>, open: bool, i: nat, k: nat)
    requires i < |calls|
  {
    && i < k < |calls| && calls[k].text.Commit? && !OpenAt(calls, open, k + 1)
    && forall j :: i < j <= k ==> OpenAt(calls, open, j)
  }

  /** Call `i` is a statement through `execute` that succeeded, changed rows, and was committed: at once outside a
      transaction, inside one by the COMMIT that ends it. */
  ghost predicate Lands(calls: seq<Call>, open: bool, i: nat)
    requires i < |calls|
  {
    && calls[i].text.Plain? && !calls[i].batch && calls[i].rows > 0 && Succeeds(OpenAt(calls, open, i), calls[i])
    && (OpenAt(calls, open, i + 1) ==> exists k: nat :: CommittedBy(calls, open, i, k))
  }

  /** All events of the statements that landed, one statement after the other, from call `i` on. */
  ghost function Landed(calls: seq<Call>, open: bool, i: nat): seq<Event>
    requires i <= |calls|
    decreases |calls| - i
  {
    if i == |calls| then []
    else (if Lands(calls, open, i) then calls[i].events else []) + Landed(calls, open, i + 1)
  }

  lemma {:induction false} OpenShifted(calls: seq<Call>, open: bool, i: nat)
    requires 0 < i <= |calls|
    ensures OpenAt(calls, open, i) == OpenAt(calls[1..], OpenAfter(open, calls[0]), i - 1)
  {
    if i > 1 { OpenShifted(calls, open, i - 1); }
  }

  lemma CommittedShifted(calls: seq<Call>, open: bool, i: nat, k: nat)
    requires 0 < i < |calls| && i < k
    ensures CommittedBy(calls, open, i, k) <==> CommittedBy(calls[1..], OpenAfter(open, calls[0]), i - 1, k - 1)
  {
    var rest, open', prev, last := calls[1..], OpenAfter(open, calls[0]), i - 1, k - 1;
    if k < |calls| {
      OpenShifted(calls, open, k + 1);
      if CommittedBy(calls, open, i, k) {
        forall j: nat | prev < j <= last ensures OpenAt(rest, open', j) {
          OpenShifted(calls, open, j + 1);
          assert OpenAt(calls, open, j + 1);
        }
      }
      if CommittedBy(rest, open', prev, last) {
        forall j: nat | i < j <= k ensures OpenAt(calls, open, j) {
          OpenShifted(calls, open, j);
          assert OpenAt(rest, open', j - 1);
        }
      }
    }
  }

  lemma LandsShifted(calls: seq<Call>, open: bool, i: nat)
    requires 0 < i < |calls|
    ensures Lands(calls, open, i) <==> Lands(calls[1..], OpenAfter(open, calls[0]), i - 1)
  {
    var rest, open', prev := calls[1..], OpenAfter(open, calls[0]), i - 1;
    OpenShifted(calls, open, i);
    OpenShifted(calls, open, i + 1);
    if k: nat :| CommittedBy(calls, open, i, k) { CommittedShifted(calls, open, i, k); }
    if k: nat :| CommittedBy(rest, open', prev, k) { CommittedShifted(calls, open, i, k + 1); }
  }

  lemma {:induction false} LandedShifted(calls: seq<Call>, open: bool, i: nat)
    requires 0 < i <= |calls|
    ensures Landed(calls, open, i) == Landed(calls[1..], OpenAfter(open, calls[0]), i - 1)
    decreases |calls| - i
  {
    if i < |calls| {
      LandsShifted(calls, open, i);
      LandedShifted(calls, open, i + 1);
    }
  }

  /** An open transaction is committed exactly if some call is its COMMIT. */
  lemma {:induction false} CommitsExactly(calls: seq<Call>, open: bool)
    requires calls != [] && OpenAfter(open, calls[0])
    ensures Commits(calls[1..]) <==> exists k: nat :: CommittedBy(calls, open, 0, k)
    decreases calls
  {
    var rest := calls[1..];
    assert OpenAt(calls, open, 0) == open && OpenAt(calls, open, 1);
    if rest != [] {
      assert calls[1] == rest[0] && OpenAt(calls, open, 2) == OpenAfter(true, rest[0]);
      if OpenAfter(true, rest[0]) {
        CommitsExactly(rest, true);
        if k: nat :| CommittedBy(rest, true, 0, k) { CommittedLater(calls, open, k + 1); }
        if k: nat :| CommittedBy(calls, open, 0, k) { CommittedLater(calls, open, k); }
      } else {
        if rest[0].text.Commit? { assert CommittedBy(calls, open, 0, 1); }
        assert forall k: nat :: CommittedBy(calls, open, 0, k) ==> k == 1;
      }
    }
  }

  /** The COMMIT comes after call 1, which leaves the transaction open. */
  lemma CommittedLater(calls: seq<Call>, open: bool, k: nat)
    requires |calls| > 1 && OpenAfter(open, calls[0]) && OpenAfter(true, calls[1]) && k > 0
    ensures CommittedBy(calls, open, 0, k) <==> k > 1 && CommittedBy(calls[1..], true, 0, k - 1)
  {
    assert OpenAt(calls, open, 0) == open && OpenAt(calls, open, 1) && OpenAt(calls, open, 2);
    if k > 1 {
      CommittedShifted(calls, open, 1, k);
    }
  }

  /** Said of the run or of what is still to come, these are the same events. */
  lemma {:induction false} LandedIsCommitted(calls: seq<Call>, open: bool)
    ensures Landed(calls, open, 0) == Committed(calls, open)
    decreases calls
  {
    if calls != [] {
      var open' := OpenAfter(open, calls[0]);
      assert OpenAt(calls, open, 0) == open && OpenAt(calls, open, 1) == open';
      LandedShifted(calls, open, 1);
      LandedIsCommitted(calls[1..], open');
      if open' { CommitsExactly(calls, open); }
    }
  }

  /** Over every run the engine gets exactly the events, all of them and in order, of the statements that changed
      rows and were committed, if and only if no stale event is committed. */
  lemma EngineSeesCommitted(calls: seq<Call>)
    ensures After(INIT, calls).applied == Landed(calls, false, 0) <==> Stale(INIT, calls) == 0
  {
    AppliedIsCommitted(INIT, calls);
    LandedIsCommitted(calls, false);
  }

  // ---------------------------------------------------------------------------
  // When nothing stale can be committed, and what the buffer holds meanwhile
  // ---------------------------------------------------------------------------

  predicate BeginsThroughExecute(calls: seq<Call>) {
    forall i :: 0 <= i < |calls| ==> !(calls[i].text.Begin? && calls[i].batch)
  }

  predicate NeverAborts(calls: seq<Call>) {
    forall i :: 0 <= i < |calls| ==> !calls[i].aborts
  }

  /** Opening transactions through `execute` is enough, however they are closed; and so is a run in
      which SQLite rolls nothing back by itself. */
  lemma {:induction false} NothingStale(s: State, calls: seq<Call>)
    requires BeginsThroughExecute(calls) || (NeverAborts(calls) && (s.open || s.pending == []))
    ensures Stale(s, calls) == 0
    decreases calls
  {
    if calls != [] {
      NothingStale(Step(s, calls[0]), calls[1..]);
    }
  }

  lemma {:induction false} AfterAppend(s: State, calls: seq<Call>, c: Call)
    ensures After(s, calls + [c]) == Step(After(s, calls), c)
    decreases calls
  {
    if calls == [] {
      assert [] + [c] == [c] && [c][1..] == [];
    } else {
      assert (calls + [c])[1..] == calls[1..] + [c];
      AfterAppend(Step(s, calls[0]), calls[1..], c);
    }
  }

  /** Events executed since the last BEGIN that succeeded. */
  function SinceBegin(calls: seq<Call>): seq<Event> {
    if calls == [] then []
    else
      var front, c := calls[..|calls| - 1], calls[|calls| - 1];
      var ok := Succeeds(After(INIT, front).open, c);
      if ok && c.text.Begin? then [] else SinceBegin(front) + if ok then Captured(c) else []
  }

  /** Inside a transaction the buffer is exactly that transaction's events. */
  lemma {:induction false} PendingIsTransaction(calls: seq<Call>)
    requires BeginsThroughExecute(calls) && After(INIT, calls).open
    ensures After(INIT, calls).pending == SinceBegin(calls)
  {
    if calls != [] {
      var front, c := calls[..|calls| - 1], calls[|calls| - 1];
      assert calls == front + [c];
      AfterAppend(INIT, front, c);
      if After(INIT, front).open { PendingIsTransaction(front); }
      assert SinceBegin(front) + [] == SinceBegin(front);
    }
  }

  /** A statement fails and SQLite rolls back; the next transaction is opened by a batch: its COMMIT
      hands the engine an event that was never committed. */
  lemma BatchBeginCommitsStale(e: Event)
    ensures var calls := [Call(Begin, false, true, false, [], 0), Call(Plain, false, true, false, [e], 1),
                          Call(Plain, false, false, true, [], 0), Call(Begin, true, true, false, [], 0),
                          Call(Commit, true, true, false, [], 0)];
            Landed(calls, false, 0) == [] && After(INIT, calls).applied == [e]
  {
    var commit := Call(Commit, true, true, false, [], 0);
    var begin := Call(Begin, true, true, false, [], 0);
    var fails := Call(Plain, false, false, true, [], 0);
    var write := Call(Plain, false, true, false, [e], 1);
    var first := Call(Begin, false, true, false, [], 0);
    var c4, c3, c2 := [commit], [begin, commit], [fails, begin, commit];
    var c1, c0 := [write, fails, begin, commit], [first, write, fails, begin, commit];
    assert c4[1..] == [] && c3[1..] == c4 && c2[1..] == c3 && c1[1..] == c2 && c0[1..] == c1;
    assert Step(State(true, [], []), write) == State(true, [e], []);
    assert After(State(true, [e], []), c4) == State(false, [], [e]);
    assert After(State(false, [e], []), c3) == State(false, [], [e]);
    assert After(State(true, [e], []), c2) == State(false, [], [e]);
    assert After(State(true, [], []), c1) == State(false, [], [e]);
    assert Captured(begin) == [] && Captured(commit) == [] && Captured(fails) == [];
    assert Committed(c4, true) == [];
    assert Committed(c3, false) == Committed(c3[1..], true) == [];
    assert Committed(c2, true) == Committed(c2[1..], false) == [];
    assert !Commits(c2) && Committed(c1, true) == [];
    LandedIsCommitted(c0, false);
  }
}
