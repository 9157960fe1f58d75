/** What one SQLite connection does with transactions and savepoints, over any content. */
module Sqlite {
  import opened Values

  datatype Savepoint<C> = Savepoint(name: string, snapshot: C)

  /** `open`: not in autocommit mode; `begun`: opened by BEGIN, else by the first savepoint.
      `start` is the content to go back to, `stack` the live savepoints, oldest first. */
  datatype Db<C> = Db(content: C, open: bool, begun: bool, start: C, stack: seq<Savepoint<C>>)

  function Closed<C>(c: C): Db<C> {
    Db(c, false, false, c, [])
  }

  predicate WellFormed<C(==)>(db: Db<C>) {
    if db.open then db.begun || db.stack != [] else db == Closed(db.content)
  }

  // Each statement gives the database after it, `None` if SQLite reports an error.

  function Begin<C>(db: Db<C>): Option<Db<C>> {
    if db.open then None else Some(Db(db.content, true, true, db.content, []))
  }

  function Commit<C>(db: Db<C>): Option<Db<C>> {
    if db.open then Some(Closed(db.content)) else None
  }

  function Rollback<C>(db: Db<C>): Option<Db<C>> {
    if db.open then Some(Closed(db.start)) else None
  }

  /** Outside a transaction a savepoint opens one. */
  function SetSavepoint<C>(db: Db<C>, name: string): Db<C> {
    var sp := Savepoint(name, db.content);
    if db.open then db.(stack := db.stack + [sp]) else Db(db.content, true, false, db.content, [sp])
  }

  /** Number of savepoints up to and including the most recent one of that name; 0 if there is none. */
  function Depth<C>(stack: seq<Savepoint<C>>, name: string): (n: nat)
    ensures n <= |stack| && (n > 0 ==> stack[n - 1].name == name)
    ensures forall i :: n <= i < |stack| ==> stack[i].name != name
  {
    if stack == [] then 0
    else if stack[|stack| - 1].name == name then |stack|
    else Depth(stack[..|stack| - 1], name)
  }

  /** Releasing the savepoint that opened the transaction commits it. */
  function Release<C>(db: Db<C>, name: string): Option<Db<C>> {
    var n := Depth(db.stack, name);
    if n == 0 then None
    else if n == 1 && !db.begun then Some(Closed(db.content))
    else Some(db.(stack := db.stack[..n - 1]))
  }

  /** The savepoint itself stays on the stack. */
  function RollbackTo<C>(db: Db<C>, name: string): Option<Db<C>> {
    var n := Depth(db.stack, name);
    if n == 0 then None else Some(db.(content := db.stack[n - 1].snapshot, stack := db.stack[..n]))
  }

  /** A statement that changes the content; in autocommit mode it is its own transaction. */
  function Written<C>(db: Db<C>, c: C): Db<C> {
    if db.open then db.(content := c) else Closed(c)
  }

  /** An error that makes SQLite roll the whole transaction back. */
  function Aborted<C>(db: Db<C>): Db<C> {
    Closed(if db.open then db.start else db.content)
  }
}
