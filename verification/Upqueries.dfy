/** Views filled on demand: a missing key is queried from SQLite and kept, and writes go on top. */
module Upqueries {
  import opened Values
  import opened ZSets
  import opened MemoryStates

  /** What SQLite answers for a key of a view that stands for `rows`. */
  function Wanted(s: MemoryState, rows: seq<Row>, key: Row): seq<Row> {
    RowsWith(rows, s.keyColumns, key)
  }

  ghost predicate FilledWith(s: MemoryState, rows: seq<Row>, key: Row)
    requires key in s.data
  {
    multiset(s.data[key]) == multiset(Wanted(s, rows, key))
  }

  /** Every key that is there holds all its rows; the others are holes. */
  ghost predicate Partly(s: MemoryState, rows: seq<Row>) {
    Valid(s) && forall key :: key in s.data ==> FilledWith(s, rows, key)
  }

  // ---------------------------------------------------------------------------
  // Filling a hole
  // ---------------------------------------------------------------------------

  ghost predicate AllUnder(s: MemoryState, rows: seq<Row>, key: Row) {
    forall i :: 0 <= i < |rows| ==> KeyOf(s, rows[i]) == key
  }

  function Under(s: MemoryState, key: Row): seq<Row> {
    if key in s.data then s.data[key] else []
  }

  /** Injecting the answer puts all of it under the key and nothing anywhere else. */
  lemma {:induction false} Injected(s: MemoryState, key: Row, answer: seq<Row>)
    requires AllUnder(s, answer, key)
    ensures answer == [] ==> Steps(s, Plus(answer)) == s
    ensures answer != [] ==> Steps(s, Plus(answer)).data == s.data[key := Under(s, key) + answer]
  {
    if answer != [] {
      var front, row := answer[..|answer| - 1], answer[|answer| - 1];
      assert Plus(answer)[..|answer| - 1] == Plus(front);
      assert answer == front + [row];
      Injected(s, key, front);
      if front == [] { assert Under(s, key) + [row] == Under(s, key) + answer; }
      else { assert Under(s, key) + front + [row] == Under(s, key) + answer; }
    }
  }

  lemma AnswerUnderKey(s: MemoryState, rows: seq<Row>, key: Row, answer: seq<Row>)
    requires multiset(answer) == multiset(Wanted(s, rows, key))
    ensures AllUnder(s, answer, key)
  {
    forall i | 0 <= i < |answer| ensures KeyOf(s, answer[i]) == key {
      assert answer[i] in multiset(answer);
      RowsWithBag(rows, s.keyColumns, key, answer[i]);
    }
  }

  /** The state after a lookup: a miss injects SQLite's answer. */
  function Looked(s: MemoryState, key: Row, answer: seq<Row>): MemoryState {
    if Lookup(s, key).Found? then s else Steps(s, Plus(answer))
  }

  /** What the caller gets. */
  function Given(s: MemoryState, key: Row, answer: seq<Row>): seq<Row> {
    match Lookup(s, key) case Found(rows) => rows case _ => answer
  }

  class View {
    var state: MemoryState

    constructor (keyColumns: seq<nat>)
      ensures state == MemoryState(keyColumns, map[], 0)
    {
      state := MemoryState(keyColumns, map[], 0);
    }

    /** A hit answers from the state, a miss from SQLite; either way the caller gets the rows of the
        key, and the state stays right. `answer` is what SQLite would return for the key. */
    method LookupOrUpquery(key: Row, answer: seq<Row>, ghost rows: seq<Row>) returns (result: seq<Row>)
      requires Partly(state, rows) && multiset(answer) == multiset(Wanted(state, rows, key))
      modifies this
      ensures state == Looked(old(state), key, answer) && result == Given(old(state), key, answer)
      ensures Partly(state, rows) && state.keyColumns == old(state).keyColumns
      ensures multiset(result) == multiset(Wanted(state, rows, key))
      ensures answer != [] ==> Lookup(state, key).Found?
    {
      var found := Lookup(state, key);
      if found.Found? {
        SomeAnswer(state, rows, key, answer);
        return found.rows;
      }
      assert key !in state.data;
      AnswerUnderKey(state, rows, key, answer);
      Injected(state, key, answer);
      if answer != [] {
        ghost var before := state;
        state := ProcessRecords(state, Plus(answer));
        FilledIn(before, state, rows, key, answer);
      }
      result := answer;
    }
  }

  lemma SomeAnswer(s: MemoryState, rows: seq<Row>, key: Row, answer: seq<Row>)
    requires Partly(s, rows) && key in s.data && multiset(answer) == multiset(Wanted(s, rows, key))
    ensures s.data[key] != []
  {
  }

  lemma FilledIn(s: MemoryState, s': MemoryState, rows: seq<Row>, key: Row, answer: seq<Row>)
    requires Partly(s, rows) && key !in s.data && AllUnder(s, answer, key) && answer != []
    requires multiset(answer) == multiset(Wanted(s, rows, key))
    requires s'.keyColumns == s.keyColumns && s'.data == s.data[key := [] + answer]
    ensures Partly(s', rows)
  {
  }

  // ---------------------------------------------------------------------------
  // Writes on top of a partly filled view
  // ---------------------------------------------------------------------------

  lemma WantedBag(s: MemoryState, before: seq<Row>, rec: Record, after: seq<Row>, key: Row)
    requires Moves(before, [rec], after)
    ensures forall r :: multiset(Wanted(s, after, key))[r] ==
              multiset(Wanted(s, before, key))[r] + if KeyOf(s, rec.row) == key then Signed(rec, Is(r)(rec.row)) else 0
  {
    MovesOne(before, rec, after);
    forall r ensures multiset(Wanted(s, after, key))[r] ==
      multiset(Wanted(s, before, key))[r] + if KeyOf(s, rec.row) == key then Signed(rec, Is(r)(rec.row)) else 0
    {
      RowsWithBag(before, s.keyColumns, key, r);
      RowsWithBag(after, s.keyColumns, key, r);
    }
  }

  lemma OtherKeysSame(s: MemoryState, before: seq<Row>, rec: Record, after: seq<Row>, key: Row)
    requires Moves(before, [rec], after) && KeyOf(s, rec.row) != key
    ensures multiset(Wanted(s, after, key)) == multiset(Wanted(s, before, key))
  {
    WantedBag(s, before, rec, after, key);
  }

  /** Rows under the written key, before and after. */
  lemma UnderAfter(s: MemoryState, before: seq<Row>, rec: Record, after: seq<Row>)
    requires Partly(s, before) && Moves(before, [rec], after) && KeyOf(s, rec.row) in s.data
    ensures Valid(Step(s, rec))
    ensures var key := KeyOf(s, rec.row);
            key in Step(s, rec).data ==> FilledWith(Step(s, rec), after, key)
  {
    var key := KeyOf(s, rec.row);
    var s' := Step(s, rec);
    WantedBag(s, before, rec, after, key);
    assert FilledWith(s, before, key);
    if rec.Positive? {
      InsertCounts(s, rec.row);
    } else {
      assert multiset(Wanted(s, after, key))[rec.row] == multiset(Wanted(s, before, key))[rec.row] - 1;
      DeleteCounts(s, rec.row);
    }
    if key in s'.data {
      forall r ensures multiset(s'.data[key])[r] == multiset(Wanted(s', after, key))[r] {
        RowsWithBag(after, s.keyColumns, key, r);
        if KeyOf(s, r) == key {
          assert CountOf(s', r) == CountOf(s, r) + Signed(rec, Is(r)(rec.row));
        } else {
          NotUnder(s', key, r);
        }
      }
    }
  }

  lemma NotUnder(s: MemoryState, key: Row, r: Row)
    requires Valid(s) && key in s.data && KeyOf(s, r) != key
    ensures multiset(s.data[key])[r] == 0
  {
  }

  lemma OtherKeysKept(s: MemoryState, rec: Record, key: Row)
    requires KeyOf(s, rec.row) != key
    ensures key in Step(s, rec).data <==> key in s.data
    ensures key in s.data ==> Step(s, rec).data[key] == s.data[key]
  {
  }

  /** An insert under a hole that has rows in SQLite already: the key is then taken for filled. */
  predicate OverHole(s: MemoryState, before: seq<Row>, rec: Record) {
    rec.Positive? && KeyOf(s, rec.row) !in s.data && Wanted(s, before, KeyOf(s, rec.row)) != []
  }

  /** A write keeps every filled key right, exactly unless it inserts under a hole with rows. */
  lemma WriteKeepsPartly(s: MemoryState, before: seq<Row>, rec: Record, after: seq<Row>)
    requires Partly(s, before) && Moves(before, [rec], after)
    ensures Partly(Step(s, rec), after) <==> !OverHole(s, before, rec)
  {
    var key, s' := KeyOf(s, rec.row), Step(s, rec);
    WantedBag(s, before, rec, after, key);
    if key in s.data {
      UnderAfter(s, before, rec, after);
    } else if rec.Positive? {
      InsertCounts(s, rec.row);
      assert s'.data[key] == [rec.row];
      FreshKey(Wanted(s, before, key), Wanted(s, after, key), rec.row);
    }
    forall k | k in s'.data && k != key ensures FilledWith(s', after, k) {
      OtherKeysSame(s, before, rec, after, k);
      OtherKeysKept(s, rec, k);
      assert FilledWith(s, before, k);
    }
    if OverHole(s, before, rec) { assert !FilledWith(s', after, key); }
  }

  lemma FreshKey(before: seq<Row>, after: seq<Row>, row: Row)
    requires forall r :: multiset(after)[r] == multiset(before)[r] + Is(r)(row)
    ensures multiset([row]) == multiset(after) <==> before == []
  {
  }

  // ---------------------------------------------------------------------------
  // Any run of lookups and writes
  // ---------------------------------------------------------------------------

  /** A lookup with the answer SQLite would give, or a write with the rows the view stands for after it. */
  datatype Event = Look(key: Row, answer: seq<Row>) | Write(rec: Record, rows: seq<Row>)

  datatype Stage = Stage(state: MemoryState, rows: seq<Row>)

  function Next(g: Stage, e: Event): Stage {
    match e
    case Look(key, answer) => Stage(Looked(g.state, key, answer), g.rows)
    case Write(rec, rows) => Stage(Step(g.state, rec), rows)
  }

  function After(g: Stage, events: seq<Event>): Stage {
    if events == [] then g else Next(After(g, events[..|events| - 1]), events[|events| - 1])
  }

  /** SQLite answers with the rows of the key, and a write makes the change it says. */
  ghost predicate Possible(g: Stage, e: Event) {
    match e
    case Look(key, answer) => multiset(answer) == multiset(Wanted(g.state, g.rows, key))
    case Write(rec, rows) => Moves(g.rows, [rec], rows)
  }

  ghost predicate Runs(g: Stage, events: seq<Event>) {
    forall i :: 0 <= i < |events| ==> Possible(After(g, events[..i]), events[i])
  }

  ghost predicate Complete(g: Stage) {
    Partly(g.state, g.rows)
  }

  predicate Covers(g: Stage, e: Event) {
    e.Write? && OverHole(g.state, g.rows, e.rec)
  }

  lemma LookKeeps(s: MemoryState, rows: seq<Row>, key: Row, answer: seq<Row>)
    requires Partly(s, rows) && multiset(answer) == multiset(Wanted(s, rows, key))
    ensures Partly(Looked(s, key, answer), rows)
    ensures multiset(Given(s, key, answer)) == multiset(Wanted(s, rows, key))
  {
    if !Lookup(s, key).Found? {
      AnswerUnderKey(s, rows, key, answer);
      Injected(s, key, answer);
      if answer != [] { FilledIn(s, Steps(s, Plus(answer)), rows, key, answer); }
    }
  }

  lemma OneEvent(g: Stage, e: Event)
    requires Complete(g) && Possible(g, e)
    ensures Complete(Next(g, e)) <==> !Covers(g, e)
  {
    match e
    case Look(key, answer) => LookKeeps(g.state, g.rows, key, answer);
    case Write(rec, rows) => WriteKeepsPartly(g.state, g.rows, rec, rows);
  }

  lemma AfterNext(g: Stage, events: seq<Event>, n: nat)
    requires n < |events|
    ensures After(g, events[..n + 1]) == Next(After(g, events[..n]), events[n])
  {
    assert events[..n + 1][..n] == events[..n];
  }

  ghost predicate CompleteUpTo(g: Stage, events: seq<Event>, n: nat)
    requires n <= |events|
  {
    forall i :: 0 <= i <= n ==> Complete(After(g, events[..i]))
  }

  /** No write before position `n` inserts under a hole with rows. */
  ghost predicate UncoveredUpTo(g: Stage, events: seq<Event>, n: nat)
    requires n <= |events|
  {
    forall i :: 0 <= i < n ==> !Covers(After(g, events[..i]), events[i])
  }

  /** Up to any point of a run the view is complete for its filled keys all along, exactly unless some write
      before it inserted under a hole with rows. */
  lemma {:induction false} RunKeepsPartly(g: Stage, events: seq<Event>, n: nat)
    requires Complete(g) && Runs(g, events) && n <= |events|
    ensures CompleteUpTo(g, events, n) <==> UncoveredUpTo(g, events, n)
  {
    if n == 0 {
      assert events[..0] == [];
    } else {
      RunKeepsPartly(g, events, n - 1);
      AfterNext(g, events, n - 1);
      if CompleteUpTo(g, events, n - 1) { OneEvent(After(g, events[..n - 1]), events[n - 1]); }
    }
  }

  /** Until then every lookup gives the rows of its key. */
  lemma LookupsAreRight(g: Stage, events: seq<Event>, i: nat)
    requires Complete(g) && Runs(g, events) && i < |events| && events[i].Look? && UncoveredUpTo(g, events, i)
    ensures var now := After(g, events[..i]);
            multiset(Given(now.state, events[i].key, events[i].answer)) ==
            multiset(Wanted(now.state, now.rows, events[i].key))
  {
    var now := After(g, events[..i]);
    RunKeepsPartly(g, events, i);
    LookKeeps(now.state, now.rows, events[i].key, events[i].answer);
  }

  // ---------------------------------------------------------------------------
  // Keys of another width than the view's
  // ---------------------------------------------------------------------------

  /** The state after lookups under one key, each with SQLite's answer at the time. */
  function Lookups(s: MemoryState, key: Row, answers: seq<seq<Row>>): MemoryState {
    if answers == [] then s
    else Looked(Lookups(s, key, answers[..|answers| - 1]), key, answers[|answers| - 1])
  }

  function Joined(answers: seq<seq<Row>>): seq<Row> {
    if answers == [] then [] else Joined(answers[..|answers| - 1]) + answers[|answers| - 1]
  }

  lemma {:induction false} InsertedAll(s: MemoryState, rows: seq<Row>, r: Row)
    requires Valid(s)
    ensures Valid(Steps(s, Plus(rows))) && CountOf(Steps(s, Plus(rows)), r) == CountOf(s, r) + multiset(rows)[r]
  {
    if rows != [] {
      var front, row := rows[..|rows| - 1], rows[|rows| - 1];
      assert Plus(rows)[..|rows| - 1] == Plus(front) && rows == front + [row];
      InsertedAll(s, front, r);
      InsertCounts(Steps(s, Plus(front)), row);
    }
  }

  /** A statement with more or fewer parameters than the view has key columns: no lookup of it is ever a hit, and
      every one of them adds the rows it was answered with once more. */
  lemma {:induction false} NeverHit(s: MemoryState, key: Row, answers: seq<seq<Row>>, r: Row)
    requires Valid(s) && |key| != |s.keyColumns|
    ensures var s' := Lookups(s, key, answers);
            && s'.keyColumns == s.keyColumns && Valid(s') && Lookup(s', key).Missing?
            && CountOf(s', r) == CountOf(s, r) + multiset(Joined(answers))[r]
  {
    if answers != [] {
      var front := answers[..|answers| - 1];
      NeverHit(s, key, front, r);
      InsertedAll(Lookups(s, key, front), answers[|answers| - 1], r);
    }
    StoredWidth(Lookups(s, key, answers));
  }

  lemma StoredWidth(s: MemoryState)
    requires Valid(s)
    ensures forall k :: k in s.data ==> |k| == |s.keyColumns|
  {
    forall k | k in s.data ensures |k| == |s.keyColumns| { assert KeyOf(s, s.data[k][0]) == k; }
  }
}
