/** Transaction functions: BEGIN or a savepoint around a body, undone when the body throws. */
module Transactions {
  import opened Values
  import opened Sqlite

  /** What a body may do. `Call` is a nested transaction function; BEGIN (or SAVEPOINT) and COMMIT
      may report an error. `Abort` is a failing statement on which SQLite rolls the transaction back. */
  datatype Action<!C> =
    | Write(effect: C -> C)
    | Throw
    | Abort
    | Try(body: seq<Action<C>>)
    | Call(body: seq<Action<C>>, beginOk: bool, commitOk: bool)

  // ---------------------------------------------------------------------------
  // Meaning, without savepoints: what callers are promised
  // ---------------------------------------------------------------------------

  /** `lost`: the enclosing transaction is gone, SQLite has rolled it back. */
  datatype Outcome<C> = Outcome(content: C, threw: bool, lost: bool)

  /** `start`: content at the start of the enclosing transaction, `None` in autocommit mode. */
  function Meaning<C>(actions: seq<Action<C>>, c: C, start: Option<C>): Outcome<C> {
    if actions == [] then Outcome(c, false, false)
    else
      var r := MeaningOf(actions[0], c, start);
      if r.threw then r
      else
        var rest := Meaning(actions[1..], r.content, if r.lost then None else start);
        rest.(lost := r.lost || rest.lost)
  }

  function MeaningOf<C>(a: Action<C>, c: C, start: Option<C>): Outcome<C> {
    match a
    case Write(f) => Outcome(f(c), false, false)
    case Throw => Outcome(c, true, false)
    case Abort => if start.Some? then Outcome(start.value, true, true) else Outcome(c, true, false)
    case Try(body) => Meaning(body, c, start).(threw := false)
    case Call(body, beginOk, commitOk) =>
      if !beginOk then Outcome(c, true, false)
      else if start.Some? then
        var r := Meaning(body, c, start);
        if r.lost then r.(threw := true) else All(c, r, r.threw)
      else
        var r := Meaning(body, c, Some(c));
        if r.lost then Outcome(r.content, true, false) else All(c, r, r.threw || !commitOk)
  }

  /** All of the body's effect, or on a throw none of it. */
  function All<C>(c: C, r: Outcome<C>, threw: bool): Outcome<C> {
    Outcome(if threw then c else r.content, threw, false)
  }

  /** The database that stands for an outcome: transaction and savepoints as they were, unless lost. */
  function Landed<C>(db: Db<C>, r: Outcome<C>): Db<C> {
    if r.lost then Closed(r.content) else Written(db, r.content)
  }

  function StartOf<C>(db: Db<C>): Option<C> {
    if db.open then Some(db.start) else None
  }

  // ---------------------------------------------------------------------------
  // What survives, from the control flow alone
  // ---------------------------------------------------------------------------

  /** The writes that survive a body, in order, whether it throws, and whether the enclosing transaction is gone;
      then the writes are on top of the content that transaction began with. */
  datatype Course<!C> = Course(effects: seq<C -> C>, threw: bool, lost: bool)

  /** `inside`: within a transaction. No content is looked at. */
  function CourseOf<C>(a: Action<C>, inside: bool): Course<C> {
    match a
    case Write(f) => Course([f], false, false)
    case Throw => Course([], true, false)
    case Abort => Course([], true, inside)
    case Try(body) => CourseOfAll(body, inside).(threw := false)
    case Call(body, beginOk, commitOk) =>
      var r := CourseOfAll(body, true);
      if !beginOk then Course([], true, false)
      else if r.lost then Course(r.effects, true, inside)
      else if r.threw || (!inside && !commitOk) then Course([], true, false)
      else Course(r.effects, false, false)
  }

  function CourseOfAll<C>(actions: seq<Action<C>>, inside: bool): Course<C> {
    if actions == [] then Course([], false, false)
    else
      var first := CourseOf(actions[0], inside);
      if first.threw then first
      else
        var rest := CourseOfAll(actions[1..], inside && !first.lost);
        Course(if rest.lost then rest.effects else first.effects + rest.effects, rest.threw, first.lost || rest.lost)
  }

  /** One write after the other. */
  function Applied<C>(effects: seq<C -> C>, c: C): C
    decreases effects
  {
    if effects == [] then c else Applied(effects[1..], effects[0](c))
  }

  function Standing<C>(course: Course<C>, c: C, start: Option<C>): Outcome<C> {
    Outcome(Applied(course.effects, if course.lost && start.Some? then start.value else c), course.threw, course.lost)
  }

  lemma {:induction false} AppliedBoth<C>(a: seq<C -> C>, b: seq<C -> C>, c: C)
    ensures Applied(a + b, c) == Applied(b, Applied(a, c))
    decreases a
  {
    if a == [] {
      assert a + b == b;
    } else {
      assert (a + b)[0] == a[0] && (a + b)[1..] == a[1..] + b;
      AppliedBoth(a[1..], b, a[0](c));
    }
  }

  lemma AppliedOne<C>(f: C -> C, c: C)
    ensures Applied([f], c) == f(c)
  {
    var fs, none: seq<C -> C> := [f], [];
    assert fs[1..] == none && Applied(none, f(c)) == f(c);
  }

  lemma {:induction false} CourseLostInside<C>(actions: seq<Action<C>>)
    ensures !CourseOfAll(actions, false).lost
  {
    if actions != [] {
      if actions[0].Try? { CourseLostInside(actions[0].body); }
      CourseLostInside(actions[1..]);
    }
  }

  /** Whatever the content: a body throws, loses its transaction and leaves behind what its control flow says. */
  lemma {:induction false} CourseIsMeaning<C>(actions: seq<Action<C>>, c: C, start: Option<C>)
    ensures Meaning(actions, c, start) == Standing(CourseOfAll(actions, start.Some?), c, start)
    decreases actions, 1
  {
    if actions != [] {
      var first := CourseOf(actions[0], start.Some?);
      CourseOfOne(actions[0], c, start);
      var r := MeaningOf(actions[0], c, start);
      if !r.threw {
        var start' := if r.lost then None else start;
        var rest := CourseOfAll(actions[1..], start'.Some?);
        CourseIsMeaning(actions[1..], r.content, start');
        if !start'.Some? { CourseLostInside(actions[1..]); }
        AppliedBoth(first.effects, rest.effects, if first.lost && start.Some? then start.value else c);
      }
    }
  }

  lemma {:induction false} CourseOfOne<C>(a: Action<C>, c: C, start: Option<C>)
    ensures MeaningOf(a, c, start) == Standing(CourseOf(a, start.Some?), c, start)
    ensures start.None? ==> !CourseOf(a, false).lost
    decreases a, 0
  {
    match a {
      case Write(f) => AppliedOne(f, c);
      case Try(body) =>
        CourseIsMeaning(body, c, start);
        if start.None? { CourseLostInside(body); }
      case Call(body, _, _) => CourseIsMeaning(body, c, if start.Some? then start else Some(c));
      case _ =>
    }
  }

  // ---------------------------------------------------------------------------
  // The wrapper
  // ---------------------------------------------------------------------------

  const NAME := "`\t_bs3.\t`"

  lemma {:induction false} LostOnlyInside<C>(actions: seq<Action<C>>, c: C)
    ensures !Meaning(actions, c, None).lost
  {
    if actions != [] {
      var r := MeaningOf(actions[0], c, None);
      if actions[0].Try? { LostOnlyInside(actions[0].body, c); }
      if !r.threw { LostOnlyInside(actions[1..], r.content); }
    }
  }

  /** Although all savepoints share one name, the most recent one is always the caller's own. */
  lemma OwnSavepoint<C>(db: Db<C>, c: C)
    requires db.open && WellFormed(db)
    ensures var inside := SetSavepoint(db, NAME);
            && Release(inside.(content := c), NAME) == Some(db.(content := c))
            && RollbackTo(inside.(content := c), NAME) == Some(inside)
            && Release(inside, NAME) == Some(db)
  {
    var inside := SetSavepoint(db, NAME);
    assert inside.stack[..|inside.stack|] == inside.stack && inside.stack[..|db.stack|] == db.stack;
  }

  class Connection<!C(==)> {
    var db: Db<C>

    constructor (c: C)
      ensures db == Closed(c)
    {
      db := Closed(c);
    }

    /** A body runs until something throws. */
    method Perform(actions: seq<Action<C>>) returns (threw: bool)
      requires WellFormed(db)
      modifies this
      ensures WellFormed(db)
      ensures var r := Meaning(actions, old(db).content, StartOf(old(db)));
              threw == r.threw && db == Landed(old(db), r)
      decreases actions, 0
    {
      if actions == [] {
        return false;
      }
      var db0 := db;
      threw := Act(actions[0]);
      if !threw {
        threw := Perform(actions[1..]);
        if !db0.open { LostOnlyInside(actions, db0.content); }
      }
    }

    method Act(a: Action<C>) returns (threw: bool)
      requires WellFormed(db)
      modifies this
      ensures WellFormed(db)
      ensures var r := MeaningOf(a, old(db).content, StartOf(old(db)));
              threw == r.threw && db == Landed(old(db), r)
      decreases a
    {
      match a {
        case Write(f) => db := Written(db, f(db.content)); threw := false;
        case Throw => threw := true;
        case Abort => db := Aborted(db); threw := true;
        case Try(body) => threw := Perform(body); threw := false;
        case Call(body, beginOk, commitOk) => threw := Transaction(body, beginOk, commitOk);
      }
    }

    /** Whatever the body does, the call leaves transaction, savepoint stack and content as promised. */
    method Transaction(body: seq<Action<C>>, beginOk: bool, commitOk: bool) returns (threw: bool)
      requires WellFormed(db)
      modifies this
      ensures WellFormed(db)
      ensures var r := MeaningOf(Call(body, beginOk, commitOk), old(db).content, StartOf(old(db)));
              threw == r.threw && db == Landed(old(db), r)
      ensures var course := CourseOf(Call(body, beginOk, commitOk), old(db).open);
              && threw == course.threw
              && (!course.lost ==> db == Written(old(db), Applied(course.effects, old(db).content)))
              && (course.lost ==> db == Closed(Applied(course.effects, old(db).start)))
      decreases body
    {
      CourseOfOne(Call(body, beginOk, commitOk), db.content, StartOf(db));
      var nested := db.open;
      if !beginOk {
        return true;
      }
      ghost var db0 := db;
      db := if nested then SetSavepoint(db, NAME) else Begin(db).value;
      threw := Perform(body);
      ghost var r := Meaning(body, db0.content, Some(if nested then db0.start else db0.content));
      assert db == Landed(if nested then SetSavepoint(db0, NAME) else Begin(db0).value, r);
      FinishMeans(db0, r, commitOk);
      threw := Finish(threw, nested, commitOk);
    }

    /** Commit or release, and undo if that or the body failed. */
    method Finish(bodyThrew: bool, nested: bool, commitOk: bool) returns (threw: bool)
      modifies this
      ensures (db, threw) == Finished(old(db), bodyThrew, nested, commitOk)
    {
      if !bodyThrew {
        var after := if nested then Release(db, NAME) else if commitOk then Commit(db) else None;
        if after.Some? {
          db := after.value;
          return false;
        }
      }
      if db.open {
        Undo(nested);
      }
      threw := true;
    }

    /** Roll back, to the savepoint and past it when nested; an error ends it early. */
    method Undo(nested: bool)
      modifies this
      ensures db == Undone(old(db), nested)
    {
      var undone := if nested then RollbackTo(db, NAME) else Rollback(db);
      if undone.Some? {
        db := undone.value;
        if nested {
          var after := Release(db, NAME);
          if after.Some? {
            db := after.value;
          }
        }
      }
    }
  }

  function Finished<C>(db: Db<C>, bodyThrew: bool, nested: bool, commitOk: bool): (Db<C>, bool) {
    var after := if nested then Release(db, NAME) else if commitOk then Commit(db) else None;
    if !bodyThrew && after.Some? then (after.value, false)
    else if db.open then (Undone(db, nested), true)
    else (db, true)
  }

  /** Whatever the body left behind, finishing turns it into the outcome promised. */
  lemma FinishMeans<C>(db: Db<C>, r: Outcome<C>, commitOk: bool)
    requires WellFormed(db)
    ensures var inside := if db.open then SetSavepoint(db, NAME) else Begin(db).value;
            var whole := if db.open
                         then if r.lost then r.(threw := true) else All(db.content, r, r.threw)
                         else if r.lost then Outcome(r.content, true, false)
                         else All(db.content, r, r.threw || !commitOk);
            Finished(Landed(inside, r), r.threw, db.open, commitOk) == (Landed(db, whole), whole.threw)
  {
    if db.open { OwnSavepoint(db, r.content); }
  }

  function Undone<C>(db: Db<C>, nested: bool): Db<C> {
    match if nested then RollbackTo(db, NAME) else Rollback(db)
    case None => db
    case Some(d) => if !nested then d else match Release(d, NAME) case None => d case Some(e) => e
  }

  // ---------------------------------------------------------------------------
  // The law, and exactly when it fails
  // ---------------------------------------------------------------------------

  predicate Aborts<C>(actions: seq<Action<C>>) {
    exists i :: 0 <= i < |actions| && AbortsIn(actions[i])
  }

  predicate AbortsIn<C>(a: Action<C>) {
    a.Abort? || ((a.Try? || a.Call?) && Aborts(a.body))
  }

  /** Only a statement on which SQLite gives up can lose the transaction. */
  lemma {:induction false} LostByAbort<C>(actions: seq<Action<C>>, c: C, start: Option<C>)
    requires !Aborts(actions)
    ensures !Meaning(actions, c, start).lost
  {
    if actions != [] {
      assert !AbortsIn(actions[0]);
      var r := MeaningOf(actions[0], c, start);
      if actions[0].Try? || actions[0].Call? {
        LostByAbort(actions[0].body, c, start);
      }
      if !r.threw {
        LostByAbort(actions[1..], r.content, start);
      }
    }
  }

  /** The law of a transaction function: on return all writes of the body that survived, in order, on top of the
      content at entry; on a throw the state at entry; either way the transaction and the savepoints as they were. */
  ghost predicate AllOrNothing<C>(call: Action<C>, db: Db<C>)
    requires call.Call?
  {
    var r := MeaningOf(call, db.content, StartOf(db));
    && (r.threw ==> Landed(db, r) == db)
    && (!r.threw ==> Landed(db, r) == Written(db, Applied(CourseOfAll(call.body, true).effects, db.content)))
  }

  /** What AllOrNothing asks of a call that returns always holds. */
  lemma ReturnsAll<C>(call: Action<C>, db: Db<C>)
    requires call.Call? && !MeaningOf(call, db.content, StartOf(db)).threw
    ensures AllOrNothing(call, db)
  {
    CourseIsMeaning(call.body, db.content, Some(if db.open then db.start else db.content));
  }

  lemma {:induction false} CourseKept<C>(actions: seq<Action<C>>, inside: bool)
    requires !Aborts(actions)
    ensures !CourseOfAll(actions, inside).lost
  {
    if actions != [] {
      assert !AbortsIn(actions[0]);
      if actions[0].Try? || actions[0].Call? {
        CourseKept(actions[0].body, inside);
        CourseKept(actions[0].body, true);
      }
      CourseKept(actions[1..], inside);
    }
  }

  /** Without such a statement every call keeps the law, however calls, throws, catches and failing
      COMMITs are nested. */
  lemma TransactionLaw<C>(call: Action<C>, db: Db<C>)
    requires call.Call? && WellFormed(db) && !Aborts(call.body)
    ensures AllOrNothing(call, db)
    ensures MeaningOf(call, db.content, StartOf(db)).threw <==>
            !call.beginOk || CourseOfAll(call.body, true).threw || (!db.open && !call.commitOk)
    ensures Landed(db, MeaningOf(call, db.content, StartOf(db))) ==
            Written(db, Applied(CourseOf(call, db.open).effects, db.content))
  {
    CourseKept(call.body, true);
    CourseOfOne(call, db.content, StartOf(db));
    var start := Some(if db.open then db.start else db.content);
    LostByAbort(call.body, db.content, start);
    CourseIsMeaning(call.body, db.content, start);
  }

  /** Two writes, and between them a nested call that writes, throws and is caught: the two writes stay, in order. */
  lemma CaughtCallAddsNothing<C>(f: C -> C, g: C -> C, h: C -> C, beginOk: bool, commitOk: bool)
    ensures var body := [Write(f), Try([Call([Write(g), Throw], beginOk, commitOk)]), Write(h)];
            CourseOf(Call(body, true, true), false) == Course([f, h], false, false)
  {
    var inner: seq<Action<C>> := [Write(g), Throw];
    var throw: seq<Action<C>> := [Throw];
    var call := [Call(inner, beginOk, commitOk)];
    var tail := [Write(h)];
    var rest := [Try(call), Write(h)];
    var body := [Write(f), Try(call), Write(h)];
    assert inner[1..] == throw && call[1..] == [] && tail[1..] == [] && rest[1..] == tail && body[1..] == rest;
    assert CourseOfAll(throw, true) == Course([], true, false);
    assert CourseOfAll(inner, true).threw && !CourseOfAll(inner, true).lost;
    assert CourseOfAll(call, true) == Course([], true, false);
    assert CourseOfAll(tail, true).effects == [h] && !CourseOfAll(tail, true).lost;
    assert CourseOfAll(rest, true) == Course([h], false, false);
    assert CourseOfAll(body, true) == Course([f, h], false, false);
  }

  /** On a new connection: content `h(f(c))`, whatever the nested call would have written. */
  method TwoWritesStay<C(==)>(c: C, f: C -> C, g: C -> C, h: C -> C, beginOk: bool, commitOk: bool)
    returns (after: C, threw: bool)
    ensures after == h(f(c)) && !threw
  {
    var connection := new Connection(c);
    CaughtCallAddsNothing(f, g, h, beginOk, commitOk);
    var body := [Write(f), Try([Call([Write(g), Throw], beginOk, commitOk)]), Write(h)];
    threw := connection.Transaction(body, true, true);
    AppliedTwo(f, h, c);
    after := connection.db.content;
  }

  lemma AppliedTwo<C>(f: C -> C, g: C -> C, c: C)
    ensures Applied([f, g], c) == g(f(c))
  {
    var fs, rest := [f, g], [g];
    assert fs[1..] == rest;
    AppliedOne(g, f(c));
  }

  datatype Leaf = Wrote | Threw | GaveUp

  /** The statements and throws a body gets to, in order. */
  function Trace<C>(actions: seq<Action<C>>, c: C, start: Option<C>): seq<Leaf> {
    if actions == [] then []
    else
      var r := MeaningOf(actions[0], c, start);
      TraceOf(actions[0], c, start) +
      if r.threw then [] else Trace(actions[1..], r.content, if r.lost then None else start)
  }

  function TraceOf<C>(a: Action<C>, c: C, start: Option<C>): seq<Leaf> {
    match a
    case Write(_) => [Wrote]
    case Throw => [Threw]
    case Abort => [GaveUp]
    case Try(body) => Trace(body, c, start)
    case Call(body, beginOk, _) =>
      if beginOk then Trace(body, c, if start.Some? then start else Some(c)) else []
  }

  /** A transaction is lost exactly if a statement that SQLite gives up on is reached. */
  lemma {:induction false} LostExactly<C>(actions: seq<Action<C>>, c: C, start: C)
    ensures Meaning(actions, c, Some(start)).lost <==> GaveUp in Trace(actions, c, Some(start))
  {
    if actions != [] {
      var r := MeaningOf(actions[0], c, Some(start));
      if actions[0].Try? || actions[0].Call? { LostExactly(actions[0].body, c, start); }
      if !r.threw && !r.lost { LostExactly(actions[1..], r.content, start); }
    }
  }

  /** Inside a transaction the law holds exactly when the body reaches no such statement. */
  lemma NestedLaw<C>(call: Action<C>, db: Db<C>)
    requires call.Call? && call.beginOk && WellFormed(db) && db.open
    ensures AllOrNothing(call, db) <==> GaveUp !in Trace(call.body, db.content, Some(db.start))
  {
    LostExactly(call.body, db.content, db.start);
    if !MeaningOf(call, db.content, StartOf(db)).threw { ReturnsAll(call, db); }
  }

  /** What is still run once SQLite has rolled the transaction back under the body. A nested call whose
      transaction is gone finishes its body and throws. */
  function Remaining<C>(actions: seq<Action<C>>, c: C, start: C): seq<Action<C>> {
    if actions == [] then []
    else
      var r := MeaningOf(actions[0], c, Some(start));
      if r.lost then RemainingOf(actions[0], c, start) + if r.threw then [] else actions[1..]
      else if r.threw then []
      else Remaining(actions[1..], r.content, start)
  }

  function RemainingOf<C>(a: Action<C>, c: C, start: C): seq<Action<C>> {
    match a
    case Abort => [Throw]
    case Try(body) => [Try(Remaining(body, c, start))]
    case Call(body, _, _) => [Try(Remaining(body, c, start)), Throw]
    case _ => []
  }

  lemma {:induction false} MeaningAppend<C>(a: seq<Action<C>>, b: seq<Action<C>>, c: C)
    ensures var r := Meaning(a, c, None);
            Meaning(a + b, c, None) == if r.threw then r else Meaning(b, r.content, None)
  {
    if a == [] {
      assert a + b == b;
    } else {
      assert (a + b)[0] == a[0] && (a + b)[1..] == a[1..] + b;
      var r := MeaningOf(a[0], c, None);
      LostOnlyInside([a[0]], c);
      LostOnlyInside(b, Meaning(a, c, None).content);
      assert [a[0]][1..] == [];
      MeaningAppend(a[1..], b, r.content);
    }
  }

  /** After the rollback the body is as good as its remaining actions, begun outside any transaction with the
      content the transaction had begun with. */
  lemma {:induction false} RemainingMeans<C>(actions: seq<Action<C>>, c: C, start: C)
    requires Meaning(actions, c, Some(start)).lost
    ensures var r, rest := Meaning(actions, c, Some(start)), Meaning(Remaining(actions, c, start), start, None);
            rest.content == r.content && rest.threw == r.threw
    decreases actions, 1
  {
    var r := MeaningOf(actions[0], c, Some(start));
    if r.lost {
      RemainingOfMeans(actions[0], c, start);
      var first := RemainingOf(actions[0], c, start);
      MeaningAppend(first, if r.threw then [] else actions[1..], start);
      if r.threw { assert first + [] == first; }
    } else {
      RemainingMeans(actions[1..], r.content, start);
    }
  }

  lemma {:induction false} RemainingOfMeans<C>(a: Action<C>, c: C, start: C)
    requires MeaningOf(a, c, Some(start)).lost
    ensures var r, rest := MeaningOf(a, c, Some(start)), Meaning(RemainingOf(a, c, start), start, None);
            rest.content == r.content && rest.threw == r.threw
    decreases a, 0
  {
    var rest := RemainingOf(a, c, start);
    match a {
      case Abort => assert rest[1..] == [];
      case Try(body) =>
        RemainingMeans(body, c, start);
        LostOnlyInside(Remaining(body, c, start), start);
        assert rest[1..] == [];
      case Call(body, _, _) =>
        RemainingMeans(body, c, start);
        LostOnlyInside(Remaining(body, c, start), start);
        var throw: seq<Action<C>> := [Throw];
        assert rest[1..] == throw && throw[1..] == [];
        var r := MeaningOf(rest[0], start, None);
        assert Meaning(throw, r.content, None) == Outcome(r.content, true, false);
    }
  }

  /** Outermost, the law holds exactly when what is still run after a rollback, by itself, changes nothing. */
  lemma OutermostLaw<C>(call: Action<C>, db: Db<C>)
    requires call.Call? && call.beginOk && WellFormed(db) && !db.open
    ensures AllOrNothing(call, db) <==>
            (GaveUp in Trace(call.body, db.content, Some(db.content)) ==>
               Meaning(Remaining(call.body, db.content, db.content), db.content, None).content == db.content)
  {
    LostExactly(call.body, db.content, db.content);
    if Meaning(call.body, db.content, Some(db.content)).lost { RemainingMeans(call.body, db.content, db.content); }
    if !MeaningOf(call, db.content, StartOf(db)).threw { ReturnsAll(call, db); }
  }

  /** Neither writes nor calls, however deep. */
  predicate Idle<C>(actions: seq<Action<C>>) {
    forall i :: 0 <= i < |actions| ==> IdleIn(actions[i])
  }

  predicate IdleIn<C>(a: Action<C>) {
    !a.Write? && !a.Call? && (a.Try? ==> Idle(a.body))
  }

  /** Behind a caught abort nothing is written or called. */
  predicate Careful<C>(actions: seq<Action<C>>) {
    forall i :: 0 <= i < |actions| ==>
      && ((actions[i].Try? || actions[i].Call?) ==> Careful(actions[i].body))
      && (actions[i].Try? && Aborts(actions[i].body) ==> Idle(actions[i + 1..]))
  }

  lemma {:induction false} IdleChangesNothing<C>(actions: seq<Action<C>>, c: C)
    requires Idle(actions)
    ensures Meaning(actions, c, None).content == c
  {
    if actions != [] {
      assert IdleIn(actions[0]);
      if actions[0].Try? { IdleChangesNothing(actions[0].body, c); }
      if !MeaningOf(actions[0], c, None).threw { IdleChangesNothing(actions[1..], c); }
    }
  }

  lemma {:induction false} CarefulIsIdleAfter<C>(actions: seq<Action<C>>, c: C, start: C)
    requires Careful(actions) && Meaning(actions, c, Some(start)).lost
    ensures Idle(Remaining(actions, c, start))
    decreases actions
  {
    var a, r := actions[0], MeaningOf(actions[0], c, Some(start));
    if r.lost {
      if a.Try? || a.Call? { CarefulIsIdleAfter(a.body, c, start); }
      if a.Try? && !Aborts(a.body) { LostByAbort(a.body, c, Some(start)); }
      if a.Try? { assert Idle(actions[0 + 1..]); }
    } else {
      forall i | 0 <= i < |actions[1..]|
        ensures (actions[1..][i].Try? || actions[1..][i].Call?) ==> Careful(actions[1..][i].body)
        ensures actions[1..][i].Try? && Aborts(actions[1..][i].body) ==> Idle(actions[1..][i + 1..])
      {
        assert actions[1..][i] == actions[i + 1] && actions[1..][i + 1..] == actions[i + 1 + 1..];
      }
      CarefulIsIdleAfter(actions[1..], r.content, start);
    }
  }

  /** A body that neither writes nor calls behind a caught abort keeps the law. */
  lemma CarefulLaw<C>(call: Action<C>, db: Db<C>)
    requires call.Call? && WellFormed(db) && !db.open && Careful(call.body)
    ensures AllOrNothing(call, db)
  {
    if call.beginOk {
      OutermostLaw(call, db);
      LostExactly(call.body, db.content, db.content);
      if Meaning(call.body, db.content, Some(db.content)).lost {
        CarefulIsIdleAfter(call.body, db.content, db.content);
        IdleChangesNothing(Remaining(call.body, db.content, db.content), db.content);
      }
    }
  }

  /** A body that catches the abort and goes on writing: the call throws, the write stays. */
  lemma CaughtAbortEscapes<C>(f: C -> C, c: C)
    requires f(c) != c
    ensures var body := [Try([Abort]), Write(f)];
            && MeaningOf(Call(body, true, true), c, None) == Outcome(f(c), true, false)
            && !AllOrNothing(Call(body, true, true), Closed(c))
  {
    var abort: seq<Action<C>> := [Abort];
    var write := [Write(f)];
    var body := [Try(abort), Write(f)];
    assert body[1..] == write && write[1..] == [] && abort[1..] == [];
    assert Meaning(abort, c, Some(c)) == Outcome(c, true, true);
    assert Meaning(write, c, None) == Outcome(f(c), false, false);
    assert Meaning(body, c, Some(c)) == Outcome(f(c), false, true);
  }
}
