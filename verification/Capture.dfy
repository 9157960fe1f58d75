/** Change capture: a SQLite session records touched rows, and its changeset is handed to the dataflow
    whenever the connection is found outside a transaction. */
module Capture {
  import opened Values
  import S = Sqlite

  datatype Key = Key(table: string, id: Value)

  type Content = map<Key, Row>

  /** Row of every key touched since the session was opened, as it was before (`None`: absent). */
  type Originals = map<Key, Option<Row>>

  /** One changeset entry: INSERT, DELETE or UPDATE according to which sides are present. */
  datatype Change = Change(key: Key, before: Option<Row>, after: Option<Row>)

  function Get(c: Content, k: Key): Option<Row> {
    if k in c then Some(c[k]) else None
  }

  function Put(c: Content, k: Key, row: Option<Row>): Content {
    match row case None => c - {k} case Some(r) => c[k := r]
  }

  lemma SameContent(a: Content, b: Content)
    requires forall k :: Get(a, k) == Get(b, k)
    ensures a == b
  {
    forall k | k in a ensures k in b && a[k] == b[k] { assert Get(a, k) == Get(b, k); }
    forall k | k in b ensures k in a { assert Get(a, k) == Get(b, k); }
  }

  // ---------------------------------------------------------------------------
  // Session
  // ---------------------------------------------------------------------------

  /** The row a key had when the session was opened. */
  function SeenAt(c: Content, o: Originals, k: Key): Option<Row> {
    if k in o then o[k] else Get(c, k)
  }

  function Seen(c: Content, o: Originals): (s: Content) {
    map k | k in c.Keys + o.Keys && SeenAt(c, o, k).Some? :: SeenAt(c, o, k).value
  }

  function Recorded(o: Originals, c: Content, touched: set<Key>): Originals {
    map k | k in o.Keys + touched :: SeenAt(c, o, k)
  }

  /** Keys in the changeset: touched, and different from what they were. */
  function Changed(c: Content, o: Originals): set<Key> {
    set k | k in o && o[k] != Get(c, k)
  }

  predicate AgreeAt(a: Content, b: Content, k: Key) {
    Get(a, k) == Get(b, k)
  }

  /** Two contents differ at most in touched keys. */
  ghost predicate AgreeOff(a: Content, b: Content, touched: set<Key>) {
    forall k :: k !in touched ==> AgreeAt(a, b, k)
  }

  lemma SeenSame(a: Content, b: Content, o: Originals)
    requires AgreeOff(a, b, o.Keys)
    ensures Seen(a, o) == Seen(b, o)
  {
  }

  lemma SeenRecorded(a: Content, b: Content, o: Originals, touched: set<Key>)
    requires AgreeOff(a, b, touched)
    ensures Seen(b, Recorded(o, a, touched)) == Seen(a, o)
  {
    var o' := Recorded(o, a, touched);
    forall k ensures Get(Seen(b, o'), k) == Get(Seen(a, o), k) {
      assert k !in touched ==> AgreeAt(a, b, k);
    }
    SameContent(Seen(b, o'), Seen(a, o));
  }

  lemma SeenFresh(c: Content)
    ensures Seen(c, map[]) == c
  {
  }

  // ---------------------------------------------------------------------------
  // Statements
  // ---------------------------------------------------------------------------

  /** One SQL statement and how SQLite took it. `Write` covers failing statements too: a statement
      undone by SQLite touches rows and changes none, one failing under OR FAIL keeps its changes. */
  datatype Stmt =
    | Write(after: Content, touched: set<Key>)
    | Abort(touched: set<Key>)
    | Begin
    | Commit
    | Rollback
    | Savepoint(name: string)
    | Release(name: string)
    | RollbackTo(name: string)
    | Refused  // any statement SQLite rejects without effect, a failing COMMIT among them

  function Or(r: Option<S.Db<Content>>, db: S.Db<Content>): S.Db<Content> {
    match r case None => db case Some(d) => d
  }

  function Step(db: S.Db<Content>, stmt: Stmt): S.Db<Content> {
    match stmt
    case Write(after, _) => S.Written(db, after)
    case Abort(_) => S.Aborted(db)
    case Begin => Or(S.Begin(db), db)
    case Commit => Or(S.Commit(db), db)
    case Rollback => Or(S.Rollback(db), db)
    case Savepoint(n) => S.SetSavepoint(db, n)
    case Release(n) => Or(S.Release(db, n), db)
    case RollbackTo(n) => Or(S.RollbackTo(db, n), db)
    case Refused => db
  }

  function Touched(stmt: Stmt): set<Key> {
    if stmt.Write? || stmt.Abort? then stmt.touched else {}
  }

  /** The session sees every row a statement changes. */
  ghost predicate Covered(db: S.Db<Content>, stmt: Stmt) {
    stmt.Write? ==> AgreeOff(db.content, stmt.after, stmt.touched)
  }

  /** Snapshots the connection may still go back to differ from its content at most in touched keys. */
  ghost predicate Tracks(db: S.Db<Content>, touched: set<Key>) {
    db.open ==>
      && AgreeOff(db.start, db.content, touched)
      && forall i :: 0 <= i < |db.stack| ==> AgreeOff(db.stack[i].snapshot, db.content, touched)
  }

  lemma AgreeMore(a: Content, b: Content, touched: set<Key>, more: set<Key>)
    requires AgreeOff(a, b, touched)
    ensures AgreeOff(a, b, touched + more) && AgreeOff(b, a, touched + more)
  {
  }

  /** Going to a content that agrees with the current one. */
  lemma TracksMove(db: S.Db<Content>, c: Content, touched: set<Key>)
    requires Tracks(db, touched) && AgreeOff(db.content, c, touched)
    ensures Tracks(db.(content := c), touched)
  {
  }

  lemma TracksMore(db: S.Db<Content>, touched: set<Key>, more: set<Key>)
    requires Tracks(db, touched)
    ensures Tracks(db, touched + more)
  {
  }

  /** Every statement keeps the snapshots tracked, and moves the content only inside the touched keys. */
  lemma StepTracks(db: S.Db<Content>, stmt: Stmt, touched: set<Key>)
    requires S.WellFormed(db) && Tracks(db, touched) && Covered(db, stmt)
    ensures S.WellFormed(Step(db, stmt))
    ensures var all := touched + Touched(stmt);
            Tracks(Step(db, stmt), all) && AgreeOff(db.content, Step(db, stmt).content, all)
  {
    var all := touched + Touched(stmt);
    TracksMore(db, touched, Touched(stmt));
    match stmt {
      case Write(after, t) =>
        AgreeMore(db.content, after, t, touched);
        assert t + touched == all;
        TracksMove(db, after, all);
      case Abort(_) =>
        if db.open { AgreeMore(db.start, db.content, all, {}); assert all + {} == all; }
      case Rollback =>
        if db.open { AgreeMore(db.start, db.content, all, {}); assert all + {} == all; }
      case RollbackTo(n) =>
        var d := S.Depth(db.stack, n);
        if d > 0 {
          var c := db.stack[d - 1].snapshot;
          AgreeMore(c, db.content, all, {});
          assert all + {} == all;
          TracksMove(db, c, all);
        }
      case _ =>
    }
  }

  /** Recording what a statement touches keeps every snapshot covered and the seen content the same. */
  lemma StepRecorded(db: S.Db<Content>, stmt: Stmt, o: Originals)
    requires S.WellFormed(db) && Tracks(db, o.Keys) && Covered(db, stmt)
    ensures var o', db' := Recorded(o, db.content, Touched(stmt)), Step(db, stmt);
            S.WellFormed(db') && Tracks(db', o'.Keys) && Seen(db'.content, o') == Seen(db.content, o)
            && (db'.open ==> db'.start == db.start)
  {
    var o' := Recorded(o, db.content, Touched(stmt));
    var c, c' := db.content, Step(db, stmt).content;
    StepTracks(db, stmt, o.Keys);
    StepWellFormed(db, stmt);
    assert o'.Keys == o.Keys + Touched(stmt);
    AgreeMore(c, c', o'.Keys, {});
    assert o'.Keys + {} == o'.Keys;
    SeenSame(c', c, o');
    SeenRecorded(c, c, o, Touched(stmt));
  }

  // ---------------------------------------------------------------------------
  // Changesets
  // ---------------------------------------------------------------------------

  function Restrict(c: Content, tables: set<string>): Content {
    map k | k in c && k.table in tables :: c[k]
  }

  lemma GetRestrict(c: Content, tables: set<string>, k: Key)
    ensures Get(Restrict(c, tables), k) == if k.table in tables then Get(c, k) else None
  {
  }

  /** Changes applied one after the other, each only where it fits: the row it says was there is there,
      and it does change it. `None` if one does not fit, as one delivered twice would not. */
  function Delivered(m: Content, changes: seq<Change>): Option<Content> {
    if changes == [] then Some(m)
    else
      match Delivered(m, changes[..|changes| - 1])
      case None => None
      case Some(d) =>
        var e := changes[|changes| - 1];
        if Get(d, e.key) == e.before && e.before != e.after then Some(Put(d, e.key, e.after)) else None
  }

  lemma DeliveredAppend(m: Content, changes: seq<Change>, e: Change)
    requires Delivered(m, changes).Some? && Get(Delivered(m, changes).value, e.key) == e.before && e.before != e.after
    ensures Delivered(m, changes + [e]) == Some(Put(Delivered(m, changes).value, e.key, e.after))
  {
  }

  lemma {:induction false} DeliveredTwice(m: Content, first: seq<Change>, second: seq<Change>)
    requires Delivered(m, first).Some?
    ensures Delivered(m, first + second) == Delivered(Delivered(m, first).value, second)
    decreases |second|
  {
    if second == [] {
      assert first + second == first;
    } else {
      var all := first + second;
      assert all[..|all| - 1] == first + second[..|second| - 1];
      DeliveredTwice(m, first, second[..|second| - 1]);
    }
  }

  /** The mirror while a changeset is being applied: keys still to come are as seen, the others current. */
  ghost predicate Applying(m: Content, c: Content, o: Originals, tables: set<string>, todo: set<Key>) {
    forall k :: Get(m, k) ==
      if k.table !in tables then None else if k in todo then SeenAt(c, o, k) else Get(c, k)
  }

  lemma ApplyingStarts(c: Content, o: Originals, tables: set<string>)
    ensures Applying(Restrict(Seen(c, o), tables), c, o, tables, Changed(c, o))
  {
  }

  lemma ApplyingEnds(m: Content, c: Content, o: Originals, tables: set<string>)
    requires Applying(m, c, o, tables, {})
    ensures m == Restrict(c, tables)
  {
    forall k ensures Get(m, k) == Get(Restrict(c, tables), k) { GetRestrict(c, tables, k); }
    SameContent(m, Restrict(c, tables));
  }

  lemma ApplyingNext(m: Content, c: Content, o: Originals, tables: set<string>, todo: set<Key>, k: Key)
    requires Applying(m, c, o, tables, todo) && k in todo && todo <= Changed(c, o)
    ensures k.table in tables ==>
              Get(m, k) == o[k] != Get(c, k) && Applying(Put(m, k, Get(c, k)), c, o, tables, todo - {k})
    ensures k.table !in tables ==> Applying(m, c, o, tables, todo - {k})
  {
  }

  // ---------------------------------------------------------------------------
  // Registering views
  // ---------------------------------------------------------------------------

  ghost predicate Untouched(db: S.Db<Content>) {
    db.open ==> db.start == db.content && forall i :: 0 <= i < |db.stack| ==> db.stack[i].snapshot == db.content
  }

  lemma AgreeEverywhere(a: Content, b: Content)
    ensures AgreeOff(a, b, {}) <==> a == b
  {
    if AgreeOff(a, b, {}) {
      forall k ensures Get(a, k) == Get(b, k) { assert AgreeAt(a, b, k); }
      SameContent(a, b);
    }
  }

  lemma TracksNothing(db: S.Db<Content>)
    ensures Tracks(db, {}) <==> Untouched(db)
  {
    if db.open {
      AgreeEverywhere(db.start, db.content);
      forall i | 0 <= i < |db.stack|
        ensures AgreeOff(db.stack[i].snapshot, db.content, {}) <==> db.stack[i].snapshot == db.content
      {
        AgreeEverywhere(db.stack[i].snapshot, db.content);
      }
    }
  }

  lemma RestrictMore(c: Content, viewed: set<string>, added: set<string>, m: Content)
    requires added !! viewed && Restrict(m, viewed) == m
    ensures m + Restrict(c, added) == Restrict(c, viewed + added) <==> m == Restrict(c, viewed)
  {
  }

  // ---------------------------------------------------------------------------
  // Rows read into the dataflow while a session is open
  // ---------------------------------------------------------------------------

  /** What the session has recorded after some statements. */
  function RecordedAll(db: S.Db<Content>, o: Originals, stmts: seq<Stmt>): Originals
    decreases stmts
  {
    if stmts == [] then o
    else RecordedAll(Step(db, stmts[0]), Recorded(o, db.content, Touched(stmts[0])), stmts[1..])
  }

  /** Whatever is run, rolled back or not, the session remembers the rows it started from. */
  lemma {:induction false} SessionRemembers(db: S.Db<Content>, o: Originals, stmts: seq<Stmt>, k: Key)
    requires S.WellFormed(db) && Tracks(db, o.Keys) && CoveredAll(db, stmts)
    ensures SeenAt(Steps(db, stmts).content, RecordedAll(db, o, stmts), k) == SeenAt(db.content, o, k)
    decreases stmts
  {
    if stmts != [] {
      var o', db' := Recorded(o, db.content, Touched(stmts[0])), Step(db, stmts[0]);
      StepRecorded(db, stmts[0], o);
      assert Get(Seen(db'.content, o'), k) == Get(Seen(db.content, o), k);
      SessionRemembers(db', o', stmts[1..], k);
    }
  }

  function Copies(row: Option<Row>): multiset<Row> {
    match row case None => multiset{} case Some(r) => multiset{r}
  }

  /** The copies of row `k` in the dataflow after a hand-over at content `c`, if it was filled with `filled`:
      a changed row is retracted as it was and asserted as it is. */
  function AfterHandOver(filled: Option<Row>, c: Content, o: Originals, k: Key): multiset<Row> {
    if k in Changed(c, o) then Copies(filled) - Copies(o[k]) + Copies(Get(c, k)) else Copies(filled)
  }

  /** A row read from the database at one time and handed over later, whatever was run in between, COMMIT or
      ROLLBACK: the dataflow ends up with it exactly if the session held no change of it when it was read, or
      the row was not there then and is handed over. */
  lemma FillEndsRight(db: S.Db<Content>, o: Originals, stmts: seq<Stmt>, k: Key)
    requires S.WellFormed(db) && Tracks(db, o.Keys) && CoveredAll(db, stmts)
    ensures var c', o' := Steps(db, stmts).content, RecordedAll(db, o, stmts);
            AfterHandOver(Get(db.content, k), c', o', k) == Copies(Get(c', k)) <==>
            k !in Changed(db.content, o) || (Get(db.content, k).None? && k in Changed(c', o'))
  {
    SessionRemembers(db, o, stmts, k);
    var c', o' := Steps(db, stmts).content, RecordedAll(db, o, stmts);
    FillArithmetic(Get(db.content, k), SeenAt(db.content, o, k), Get(c', k));
  }

  lemma FillArithmetic(filled: Option<Row>, seen: Option<Row>, now: Option<Row>)
    ensures Copies(filled) - Copies(seen) + Copies(now) == Copies(now) <==> filled.None? || filled == seen
    ensures Copies(filled) == Copies(now) <==> filled == now
  {
    if filled.Some? {
      assert filled.value in Copies(filled);
      if filled != seen { assert (Copies(filled) - Copies(seen))[filled.value] == 1; }
    }
    if now.Some? { assert now.value in Copies(now); }
  }

  /** A changeset meant for rows as they were, told to rows as they are, fits exactly if it is empty: what
      is filled while the session holds a change of it is told that change again. */
  lemma ToldAgain(c: Content, o: Originals, filled: set<Key>, changes: seq<Change>)
    requires forall i :: 0 <= i < |changes| ==>
               var k := changes[i].key;
               k in Changed(c, o) * filled && changes[i] == Change(k, o[k], Get(c, k))
    requires forall k :: k in Changed(c, o) * filled ==> exists i :: 0 <= i < |changes| && changes[i].key == k
    ensures var rows := map k | k in c && k in filled :: c[k];
            Delivered(rows, changes).Some? <==> Changed(c, o) * filled == {}
  {
    var rows := map k | k in c && k in filled :: c[k];
    if changes == [] {
      assert Changed(c, o) * filled == {};
    } else {
      assert changes[0].key in Changed(c, o) * filled;
      assert Get(rows, changes[0].key) == Get(c, changes[0].key);
      FirstMisfit(rows, changes);
    }
  }

  lemma {:induction false} FirstMisfit(m: Content, changes: seq<Change>)
    requires changes != [] && Get(m, changes[0].key) != changes[0].before
    ensures Delivered(m, changes) == None
  {
    var front := changes[..|changes| - 1];
    if front != [] { FirstMisfit(m, front); }
  }

  /** A row inserted in a transaction, read into a view, and rolled back: the view keeps it. */
  lemma FilledThenRolledBack(k: Key, row: Row)
    ensures var db := S.Db(map[k := row], true, true, map[], []);
            var o: Originals := map[k := None];
            && Tracks(db, o.Keys) && Step(db, Rollback).content == map[]
            && AfterHandOver(Get(db.content, k), map[], o, k) == multiset{row}
  {
    var db := S.Db(map[k := row], true, true, map[], []);
    var o: Originals := map[k := None];
    assert Changed(map[], o) == {};
  }

  // ---------------------------------------------------------------------------
  // The connection
  // ---------------------------------------------------------------------------

  datatype Kind = Insert | Update | Delete | Other

  /** What a program asks of the connection, with SQLite's answers: whether the statements succeeded,
      how many rows changed, whether the changeset could be built and the next session opened. */
  datatype Command =
    | Run(stmt: Stmt, kind: Kind, ok: bool, changes: nat, changesetOk: bool, reopened: bool)
    | Exec(stmts: seq<Stmt>, ok: bool, changesetOk: bool, reopened: bool)
    | Flush(changesetOk: bool, reopened: bool)

  function Steps(db: S.Db<Content>, stmts: seq<Stmt>): S.Db<Content>
    decreases stmts
  {
    if stmts == [] then db else Steps(Step(db, stmts[0]), stmts[1..])
  }

  ghost predicate CoveredAll(db: S.Db<Content>, stmts: seq<Stmt>)
    decreases stmts
  {
    stmts != [] ==> Covered(db, stmts[0]) && CoveredAll(Step(db, stmts[0]), stmts[1..])
  }

  function Statements(cmd: Command): seq<Stmt> {
    match cmd
    case Run(stmt, _, _, _, _, _) => [stmt]
    case Exec(stmts, _, _, _) => stmts
    case Flush(_, _) => []
  }

  /** The command has the changeset looked at, and SQLite can build it. */
  predicate Notifies(cmd: Command, before: S.Db<Content>, after: S.Db<Content>) {
    match cmd
    case Run(_, kind, ok, changes, changesetOk, _) =>
      changesetOk && ok && ((changes > 0 && kind != Other) || (before.open && !after.open))
    case Exec(_, ok, changesetOk, _) => changesetOk && ok
    case Flush(changesetOk, _) => changesetOk
  }

  /** The content the dataflow knows after a command: the current one if the command handed it over. */
  function ToldAfter(cmd: Command, before: S.Db<Content>, after: S.Db<Content>, session: bool, told: Content): Content {
    if session && !after.open && Notifies(cmd, before, after) then after.content else told
  }

  ghost predicate CoveredScript(db: S.Db<Content>, script: seq<Command>)
    decreases script
  {
    script != [] ==>
      CoveredAll(db, Statements(script[0])) && CoveredScript(Steps(db, Statements(script[0])), script[1..])
  }

  class Noria {
    var db: S.Db<Content>
    var session: Option<Originals>
    var hasAnyViews: bool
    var viewed: set<string>
    var delivered: seq<Change>   // every change handed to the dataflow so far

    ghost var mirror: Content        // what it was told: the tables with views before the first change, and all since
    ghost var commits: seq<Content>  // contents the connection has had outside any transaction
    ghost var known: nat             // the one of them the dataflow has been told about

    /** Content at the time the session was opened. */
    ghost function SeenContent(): Content
      requires session.Some?
      reads this
    {
      Seen(db.content, session.value)
    }

    ghost predicate Logged()
      reads this
    {
      && S.WellFormed(db) && known < |commits| && commits[|commits| - 1] == db.start
      && mirror == Restrict(commits[known], viewed)
    }

    /** The content the dataflow has been told about. */
    ghost function Told(): Content
      requires Logged()
      reads this
    {
      commits[known]
    }

    /** A session is open, it covers every snapshot, and the dataflow knows the committed content it
        started from: the changes handed over, composed with those the session still holds, are the
        net change of the tables with views. */
    ghost predicate Valid()
      reads this
    {
      && Logged() && session.Some? && hasAnyViews
      && Tracks(db, session.value.Keys)
      && SeenContent() == commits[known]
    }

    ghost predicate Ready()
      reads this
    {
      Logged() && (session.Some? ==> Valid())
    }

    constructor (content: Content)
      ensures Ready() && db == S.Closed(content) && session == None && !hasAnyViews && viewed == {}
      ensures mirror == map[] && delivered == [] && Told() == content
    {
      db, session, hasAnyViews, viewed, mirror, delivered := S.Closed(content), None, false, {}, map[], [];
      commits, known := [content], 0;
    }

    /** A statement runs; the session records what it touches. */
    method Execute(stmt: Stmt)
      requires Ready() && Covered(db, stmt)
      modifies `db, `session, `commits
      ensures Ready() && db == Step(old(db), stmt) && session.Some? == old(session).Some?
      ensures old(commits) <= commits && Told() == old(Told())
    {
      if session.Some? {
        StepRecorded(db, stmt, session.value);
        session := Some(Recorded(session.value, db.content, Touched(stmt)));
      } else {
        StepWellFormed(db, stmt);
      }
      db := Step(db, stmt);
      if !db.open { commits := commits + [db.content]; }
    }

    /** Hand the changeset over if the connection is in autocommit mode. The two flags say whether
        SQLite could build the changeset and open the next session. */
    method ProcessSessionChangeset(changesetOk: bool, reopened: bool)
      requires Ready()
      modifies `session, `mirror, `delivered, `known
      ensures Ready() && old(known) <= known && Handed(old(mirror), old(delivered)) && News(old(delivered))
      ensures db.open || !changesetOk || old(session).None? ==>
                delivered == old(delivered) && mirror == old(mirror) && session == old(session)
      ensures !db.open && changesetOk && old(session).Some? ==> mirror == Restrict(db.content, viewed)
      ensures Told() == if db.open || !changesetOk || old(session).None? then old(Told()) else db.content
      ensures session.Some? <==>
              && old(session).Some?
              && (db.open || !changesetOk || reopened || Changed(db.content, old(session).value) == {})
    {
      assert delivered[|delivered|..] == [];
      if session.None? || !hasAnyViews || db.open || !changesetOk {
        return;
      }
      var o := session.value;
      var todo := Changed(db.content, o);
      ApplyingStarts(db.content, o, viewed);
      if todo == {} {
        ApplyingEnds(mirror, db.content, o, viewed);
        NothingChanged(db.content, o);
        return;
      }
      ApplyChanges(o);
      SeenFresh(db.content);
      session := if reopened then Some(map[]) else None;
      known := |commits| - 1;
    }

    /** The loop over the changeset, in whatever order SQLite lists the changed rows. */
    method ApplyChanges(o: Originals)
      requires Applying(mirror, db.content, o, viewed, Changed(db.content, o))
      modifies `mirror, `delivered
      ensures mirror == Restrict(db.content, viewed) && Handed(old(mirror), old(delivered)) && News(old(delivered))
    {
      var todo := Changed(db.content, o);
      assert delivered[|delivered|..] == [];
      while todo != {}
        invariant todo <= Changed(db.content, o)
        invariant Applying(mirror, db.content, o, viewed, todo)
        invariant Handed(old(mirror), old(delivered)) && News(old(delivered))
        decreases |todo|
      {
        var k :| k in todo;
        ApplyingNext(mirror, db.content, o, viewed, todo, k);
        if k.table in viewed {
          Tell(Change(k, o[k], Get(db.content, k)), old(mirror), old(delivered));
        }
        todo := todo - {k};
      }
      ApplyingEnds(mirror, db.content, o, viewed);
    }

    /** One more change is handed over. */
    method Tell(change: Change, ghost m: Content, ghost sent: seq<Change>)
      requires Handed(m, sent) && News(sent) && Get(mirror, change.key) == change.before != change.after
      requires change.key.table in viewed && change.after == Get(db.content, change.key)
      modifies `mirror, `delivered
      ensures Handed(m, sent) && News(sent) && delivered == old(delivered) + [change]
      ensures mirror == Put(old(mirror), change.key, change.after)
    {
      ghost var since := delivered[|sent|..];
      DeliveredAppend(m, since, change);
      mirror := Put(mirror, change.key, change.after);
      delivered := delivered + [change];
      assert delivered[|sent|..] == since + [change];
    }

    /** A view over `tables` is registered; its rows come on demand. With a session capture goes on soundly,
        also of changes it already holds of new tables. Without one it starts soundly exactly when one can be
        opened, nothing is uncommitted and the dataflow is up to date. */
    method RegisterView(tables: set<string>, ok: bool, sessionOk: bool)
      requires Ready()
      modifies `session, `hasAnyViews, `viewed, `mirror, `known
      ensures !ok ==> Ready() && viewed == old(viewed) && mirror == old(mirror) && session == old(session)
      ensures ok ==> viewed == old(viewed) + tables && Restrict(mirror, old(viewed)) == old(mirror)
      ensures ok && old(session).Some? ==> Valid() && session == old(session)
      ensures ok && old(session).None? ==>
                (Valid() <==> sessionOk && Untouched(db) && old(mirror) == Restrict(db.content, old(viewed)))
      ensures ok && old(session).None? && !sessionOk ==> Ready() && session.None?
      ensures !ok || old(session).Some? || !sessionOk ==> Ready() && Told() == old(Told())
      ensures Valid() && old(session).None? ==> Told() == db.content
    {
      if !ok {
        return;
      }
      ghost var m, v, added := mirror, viewed, tables - viewed;
      assert v + added == v + tables;
      hasAnyViews := true;
      viewed := viewed + tables;
      if session.Some? || !sessionOk {
        mirror := Restrict(commits[known], viewed);
      } else {
        RestrictTwice(commits[known], v);
        RestrictMore(db.content, v, added, m);
        mirror := mirror + Restrict(db.content, added);
      }
      RestrictKept(commits[known], v, viewed, db.content, added);
      if session.None? {
        EnsureSession(sessionOk);
      }
    }

    /** Without a session one is opened, if SQLite can; capture then starts soundly exactly when nothing
        is uncommitted and the dataflow is up to date. */
    method EnsureSession(sessionOk: bool)
      requires S.WellFormed(db) && commits != [] && commits[|commits| - 1] == db.start && hasAnyViews && session.None?
      modifies `session, `known
      ensures Valid() <==> sessionOk && Untouched(db) && mirror == Restrict(db.content, viewed)
      ensures Valid() ==> Told() == db.content
      ensures !sessionOk ==> session.None? && known == old(known)
    {
      if sessionOk {
        session := Some(map[]);
        known := |commits| - 1;
        SeenFresh(db.content);
        TracksNothing(db);
      }
    }

    method NotifyChange(changesetOk: bool, reopened: bool)
      requires Ready()
      modifies `session, `mirror, `delivered, `known
      ensures Ready() && old(known) <= known && Handed(old(mirror), old(delivered)) && News(old(delivered))
      ensures db.open || old(session).None? ==> delivered == old(delivered) && mirror == old(mirror)
      ensures old(session).None? ==> session.None?
      ensures reopened ==> session.Some? == old(session).Some?
      ensures delivered == old(delivered) ==> mirror == old(mirror)
      ensures mirror == old(mirror) || mirror == Restrict(db.content, viewed)
      ensures !db.open && changesetOk && old(session).Some? ==> mirror == Restrict(db.content, viewed)
      ensures Told() == if db.open || !changesetOk || old(session).None? then old(Told()) else db.content
    {
      ProcessSessionChangeset(changesetOk, reopened);
    }

    /** Everything delivered since fitted, one change on top of the other. */
    ghost predicate Handed(m: Content, sent: seq<Change>)
      reads this
    {
      sent <= delivered && Delivered(m, delivered[|sent|..]) == Some(mirror)
    }

    /** Everything delivered since is of a table with views, and leads to the row as it is now. */
    ghost predicate News(sent: seq<Change>)
      reads this
    {
      forall i :: |sent| <= i < |delivered| ==>
        delivered[i].key.table in viewed && delivered[i].after == Get(db.content, delivered[i].key)
    }

    /** A prepared statement notifies after a row-changing INSERT, UPDATE or DELETE, and after anything
        that ends a transaction. */
    method RunStatement(stmt: Stmt, kind: Kind, ok: bool, changes: nat, changesetOk: bool, reopened: bool)
      requires Ready() && Covered(db, stmt)
      modifies this
      ensures Ready() && db == Step(old(db), stmt) && viewed == old(viewed)
      ensures old(known) <= known && Handed(old(mirror), old(delivered)) && News(old(delivered))
      ensures db.open ==> delivered == old(delivered)
      ensures mirror == old(mirror) || (!db.open && mirror == Restrict(db.content, viewed))
      ensures var notifies := ok && ((changes > 0 && kind != Other) || (old(db).open && !db.open));
              && (!notifies ==> delivered == old(delivered) && mirror == old(mirror))
              && (notifies && !db.open && changesetOk && old(session).Some? ==> mirror == Restrict(db.content, viewed))
              && Told() == if notifies && !db.open && changesetOk && old(session).Some? then db.content else old(Told())
      ensures reopened ==> session.Some? == old(session).Some?
    {
      assert delivered[|delivered|..] == [];
      var wasOpen := db.open;
      Execute(stmt);
      if ok {
        if changes > 0 && kind != Other {
          NotifyChange(changesetOk, reopened);
        } else if wasOpen && !db.open {
          NotifyChange(changesetOk, reopened);
        }
      }
    }

    /** A script of statements notifies once, after the last one succeeded. */
    method ExecScript(stmts: seq<Stmt>, ok: bool, changesetOk: bool, reopened: bool)
      requires Ready() && CoveredAll(db, stmts)
      modifies this
      ensures Ready() && db == Steps(old(db), stmts) && viewed == old(viewed)
      ensures old(known) <= known && Handed(old(mirror), old(delivered)) && News(old(delivered))
      ensures db.open || !ok ==> delivered == old(delivered)
      ensures mirror == old(mirror) || (!db.open && mirror == Restrict(db.content, viewed))
      ensures ok && !db.open && changesetOk && old(session).Some? ==> mirror == Restrict(db.content, viewed)
      ensures Told() == if ok && !db.open && changesetOk && old(session).Some? then db.content else old(Told())
      ensures reopened ==> session.Some? == old(session).Some?
    {
      assert delivered[|delivered|..] == [];
      var i := 0;
      while i < |stmts|
        invariant 0 <= i <= |stmts| && Ready() && CoveredAll(db, stmts[i..])
        invariant Steps(db, stmts[i..]) == Steps(old(db), stmts)
        invariant session.Some? == old(session).Some? && mirror == old(mirror) && delivered == old(delivered)
        invariant viewed == old(viewed) && known == old(known) && Told() == old(Told())
      {
        assert stmts[i..][1..] == stmts[i + 1..];
        Execute(stmts[i]);
        i := i + 1;
      }
      if ok {
        NotifyChange(changesetOk, reopened);
      }
    }

    method Perform(cmd: Command)
      requires Ready() && CoveredAll(db, Statements(cmd))
      modifies this
      ensures Ready() && db == Steps(old(db), Statements(cmd)) && viewed == old(viewed)
      ensures old(known) <= known && Handed(old(mirror), old(delivered)) && News(old(delivered))
      ensures db.open ==> delivered == old(delivered) && mirror == old(mirror)
      ensures !db.open && Notifies(cmd, old(db), db) && old(session).Some? ==> mirror == Restrict(db.content, viewed)
      ensures Told() == ToldAfter(cmd, old(db), db, old(session).Some?, old(Told()))
      ensures cmd.reopened ==> session.Some? == old(session).Some?
    {
      match cmd {
        case Run(stmt, kind, ok, changes, changesetOk, reopened) =>
          assert Steps(Step(db, stmt), [stmt][1..]) == Step(db, stmt);
          RunStatement(stmt, kind, ok, changes, changesetOk, reopened);
        case Exec(stmts, ok, changesetOk, reopened) => ExecScript(stmts, ok, changesetOk, reopened);
        case Flush(changesetOk, reopened) => NotifyChange(changesetOk, reopened);
      }
    }

    /** Any run, views being registered already. Whatever the statements did, the dataflow has been
        told one change on top of the other, and knows a content that was committed. */
    method RunScript(script: seq<Command>)
      requires Ready() && CoveredScript(db, script)
      modifies this
      ensures Ready() && viewed == old(viewed)
      ensures old(known) <= known && Handed(old(mirror), old(delivered))
      ensures mirror == Restrict(commits[known], viewed)
    {
      assert delivered[|delivered|..] == [];
      var i := 0;
      while i < |script|
        invariant 0 <= i <= |script| && Ready() && CoveredScript(db, script[i..])
        invariant viewed == old(viewed) && old(known) <= known && Handed(old(mirror), old(delivered))
      {
        assert script[i..][1..] == script[i + 1..];
        ghost var m, sent := mirror, delivered;
        Perform(script[i]);
        DeliveredOnward(old(mirror), old(delivered), m, sent, mirror, delivered);
        i := i + 1;
      }
    }
  }

  /** A session without changes started from the content as it is. */
  lemma NothingChanged(c: Content, o: Originals)
    requires Changed(c, o) == {}
    ensures Seen(c, o) == c
  {
    forall k ensures Get(Seen(c, o), k) == Get(c, k) {
      assert k in o ==> (o[k] == Get(c, k) <==> k !in Changed(c, o));
      assert SeenAt(c, o, k) == Get(c, k);
    }
    SameContent(Seen(c, o), c);
  }

  lemma DeliveredOnward(m0: Content, d0: seq<Change>, m1: Content, d1: seq<Change>, m2: Content, d2: seq<Change>)
    requires d0 <= d1 && Delivered(m0, d1[|d0|..]) == Some(m1)
    requires d1 <= d2 && Delivered(m1, d2[|d1|..]) == Some(m2)
    ensures d0 <= d2 && Delivered(m0, d2[|d0|..]) == Some(m2)
  {
    assert d2[|d0|..] == d1[|d0|..] + d2[|d1|..];
    DeliveredTwice(m0, d1[|d0|..], d2[|d1|..]);
  }

  /** A session opened inside a transaction does not notice its rollback: the row stays in the
      dataflow, and no changeset ever mentions it. */
  lemma LateSessionMissesRollback(k: Key, row: Row)
    ensures var db := S.Db(map[k := row], true, true, map[], []);
            var later := Step(db, Rollback);
            && !Untouched(db) && Changed(later.content, map[]) == {}
            && Restrict(db.content, {k.table}) != Restrict(later.content, {k.table})
  {
    var db := S.Db(map[k := row], true, true, map[], []);
    assert k in Restrict(db.content, {k.table});
  }

  lemma {:induction false} StepsOnward(db: S.Db<Content>, stmts: seq<Stmt>, more: seq<Stmt>)
    ensures Steps(db, stmts + more) == Steps(Steps(db, stmts), more)
    decreases stmts
  {
    if stmts == [] {
      assert stmts + more == more;
    } else {
      assert (stmts + more)[1..] == stmts[1..] + more;
      StepsOnward(Step(db, stmts[0]), stmts[1..], more);
    }
  }

  /** The content after the last of some writes. */
  function LastWritten(c: Content, writes: seq<Stmt>): Content
    requires forall i :: 0 <= i < |writes| ==> writes[i].Write?
  {
    if writes == [] then c else writes[|writes| - 1].after
  }

  lemma {:induction false} WritesInside(db: S.Db<Content>, writes: seq<Stmt>)
    requires db.open && forall i :: 0 <= i < |writes| ==> writes[i].Write?
    ensures Steps(db, writes) == db.(content := LastWritten(db.content, writes))
    decreases writes
  {
    if writes != [] { WritesInside(Step(db, writes[0]), writes[1..]); }
  }

  lemma OneMoreStep(db: S.Db<Content>, stmts: seq<Stmt>, stmt: Stmt)
    ensures Steps(db, stmts + [stmt]) == Step(Steps(db, stmts), stmt)
  {
    StepsOnward(db, stmts, [stmt]);
    var d := Steps(db, stmts);
    assert Steps(Step(d, stmt), [stmt][1..]) == Step(d, stmt);
  }

  lemma TransactionUnderWay(db: S.Db<Content>, writes: seq<Stmt>, name: string, more: seq<Stmt>)
    requires S.WellFormed(db) && !db.open
    requires forall i :: 0 <= i < |writes| ==> writes[i].Write?
    requires forall i :: 0 <= i < |more| ==> more[i].Write?
    ensures var first := LastWritten(db.content, writes);
            Steps(db, [Begin] + writes + [Savepoint(name)] + more) ==
            S.Db(LastWritten(first, more), true, true, db.content, [S.Savepoint(name, first)])
  {
    TransactionBegun(db, writes);
    SavepointUnderWay(db, [Begin] + writes, name, more);
  }

  lemma TransactionBegun(db: S.Db<Content>, writes: seq<Stmt>)
    requires S.WellFormed(db) && !db.open && forall i :: 0 <= i < |writes| ==> writes[i].Write?
    ensures Steps(db, [Begin] + writes) == S.Db(LastWritten(db.content, writes), true, true, db.content, [])
  {
    var stmts := [Begin] + writes;
    assert stmts[1..] == writes;
    WritesInside(Step(db, Begin), writes);
  }

  lemma SavepointUnderWay(db: S.Db<Content>, stmts: seq<Stmt>, name: string, more: seq<Stmt>)
    requires Steps(db, stmts).open && forall i :: 0 <= i < |more| ==> more[i].Write?
    ensures var d := Steps(db, stmts);
            Steps(db, stmts + [Savepoint(name)] + more) ==
            d.(content := LastWritten(d.content, more), stack := d.stack + [S.Savepoint(name, d.content)])
  {
    OneMoreStep(db, stmts, Savepoint(name));
    StepsOnward(db, stmts + [Savepoint(name)], more);
    WritesInside(Steps(db, stmts + [Savepoint(name)]), more);
  }

  /** A transaction with a savepoint in it. COMMIT keeps all that was written, ROLLBACK nothing; going back to
      the savepoint loses what was written after it, releasing it loses nothing. */
  lemma TransactionLands(db: S.Db<Content>, writes: seq<Stmt>, name: string, more: seq<Stmt>, end: Stmt)
    requires S.WellFormed(db) && !db.open
    requires forall i :: 0 <= i < |writes| ==> writes[i].Write?
    requires forall i :: 0 <= i < |more| ==> more[i].Write?
    requires end == RollbackTo(name) || end == Release(name) || end == Rollback
    ensures var first := LastWritten(db.content, writes);
            Steps(db, [Begin] + writes + [Savepoint(name)] + more + [end] + [Commit]) ==
            S.Closed(if end.RollbackTo? then first else if end.Release? then LastWritten(first, more) else db.content)
  {
    var stmts := [Begin] + writes + [Savepoint(name)] + more;
    TransactionUnderWay(db, writes, name, more);
    OneMoreStep(db, stmts, end);
    OneMoreStep(db, stmts + [end], Commit);
    EndLands(Steps(db, stmts), name, end);
  }

  lemma EndLands(db: S.Db<Content>, name: string, end: Stmt)
    requires db.open && db.begun && |db.stack| == 1 && db.stack[0].name == name
    requires end == RollbackTo(name) || end == Release(name) || end == Rollback
    ensures Step(Step(db, end), Commit) ==
            S.Closed(if end.RollbackTo? then db.stack[0].snapshot else if end.Release? then db.content else db.start)
  {
    assert S.Depth(db.stack, name) == 1;
  }

  lemma RestrictKept(c: Content, tables: set<string>, more: set<string>, now: Content, added: set<string>)
    requires tables <= more && added !! tables
    ensures Restrict(Restrict(c, more), tables) == Restrict(c, tables)
    ensures Restrict(Restrict(c, tables) + Restrict(now, added), tables) == Restrict(c, tables)
  {
  }

  lemma RestrictTwice(c: Content, tables: set<string>)
    ensures Restrict(Restrict(c, tables), tables) == Restrict(c, tables)
  {
  }

  lemma StepWellFormed(db: S.Db<Content>, stmt: Stmt)
    requires S.WellFormed(db)
    ensures S.WellFormed(Step(db, stmt)) && (Step(db, stmt).open ==> Step(db, stmt).start == db.start)
  {
  }
}
