# Noria in front of SQLite: a verified model

The repository keeps materialized views next to a SQLite database. Writes go to SQLite; the rows they
change are captured and sent through a dataflow graph that updates each view incrementally; reads are
served from the views, and from SQLite where a view has not been filled yet. This project models that
machinery in Dafny and proves what it promises, or, where the code falls short of the promise, gives
the input that shows it and the exact condition under which the promise holds.

* **Dataflow** (`ZSets`, `Operators`, `Joins`, `Aggregates`, `MemoryStates`, `Graphs`, `Building`,
  `Executor`, `RelatedInputs`, `Views`, `Upqueries`, `GroupedFills`). Records are signed rows; a view is
  right when its state is the bag of rows its query gives over the current tables. The executor keeps a
  materialized node right under every write, depth first and however often the write comes by, if the
  joins above the node are fit for it; `RelatedInputs` says what the others are sent and exactly when
  that is right. Views can also be filled from SQLite key by key.
* **Queries as SQL means them** (`SqlJoins`, `SqlAggregates`). The joins here pair NULL with NULL and
  the aggregates are a count and a sum, grouped by a column of the converter's choice where there is no
  GROUP BY; when these are SQL's answers, exactly.
* **Values** (`DataTypes`, `Decimals`). Equality, hash, shard and order over four integer and two text
  representations, and fixed-point reals.
* **View cache** (`Codec`, `Frames`, `RowCodec`, `Bags`, `ViewCache`, `ViewSynthesis`). Keys and rows
  as bytes refine a map from key tuples to bags of rows with holes; views are created under a
  readers-writer lock with a double check.
* **Capture and transactions** (`Sqlite`, `Capture`, `Tables`, `Wires`, `Scripts`, `Pipeline`,
  `Transactions`, `EventBuffer`). One connection with transactions and savepoints, the session that records touched rows,
  captured changes driving the dataflow up to a cached read, the transaction functions built on savepoints
  that all share one name, and the buffer that holds events until COMMIT. Preparing a SELECT gives each
  table it names a new base node and binds the name to it, so that views over the old node hear of nothing
  any more: over every run from a new connection on, a view that answers when it is prepared follows what
  is told exactly as long as no later text names one of its tables.
* **Arguments** (`Binding`, `CacheKeys`, `VirtualTable`). Call arguments to statement parameters and
  cache keys; query constraints to the arguments of a virtual table.
* **Small protocols** (`Authority`, `Iterators`). Leader election on a condition variable; busy flag,
  locks and iterator counter of a connection.

Classes, methods and loops follow the source where it updates state in place. Protocols between
threads, and the calls a program may make in any order, are state machines over all interleavings.
Outside facts enter as parameters: what SQLite answers, whether a statement, COMMIT or session
creation succeeds, in which order a bag or a changeset is enumerated, which thread moves next.

Where the code and its comments disagree the model follows the code: the changeset call does not
clear what the session recorded (the session is re-created instead), a RIGHT JOIN pads nothing, MIN and
MAX always show 0, and views over one table do not share its base node, each prepared text having brought its own.

## Model

| member | source | states |
|---|---|---|
| Operators.LinearMoves | noria-sqlite/src/dataflow/ops.rs:161-233 | an operator that works row by row turns the change of its input into the change of its query, for every signed batch |
| Operators.LinearApplicable | noria-sqlite/src/dataflow/ops.rs:161-233 | and never retracts an output row that is not there, at any point of the batch |
| Operators.ProcessFilter | noria-sqlite/src/dataflow/ops.rs:161-177 | the results are records of the batch whose rows pass, and every row that passes has in them the net count it has in the batch, every other row none |
| Operators.FilterQuery | noria-sqlite/src/dataflow/ops.rs:161-177 | the query of a filter has each row that passes as often as its input, and no other row |
| Operators.FilterNet | noria-sqlite/src/dataflow/ops.rs:161-177 | what a filter sends of a batch has the net count of each row that passes, and nothing of the others |
| Operators.ProcessProject | noria-sqlite/src/dataflow/ops.rs:209-233 | one result for each record, with its sign, whose i-th column is the record's column of the number listed i-th, NULL if it has none |
| Operators.ProjectQuery | noria-sqlite/src/dataflow/ops.rs:209-233 | row by row the query of a projection shows the listed columns in the order listed |
| Values.ColumnsAt | noria-sqlite/src/dataflow/ops.rs:219-222 | picking columns keeps the order in which they are listed |
| Operators.ProcessIdentity | noria-sqlite/src/dataflow/ops.rs:545-553 | identity is the row-wise operator of single rows |
| Joins.ProcessJoin | noria-sqlite/src/dataflow/ops.rs:298-376 | a record comes out if and only if a record of the batch with its sign contributes it: paired with a row the other side's state has under the key, column for column as listed, or padded with NULL where a left join finds none; the keys listed are exactly those of records the state has nothing under |
| Joins.ConvertedRows | noria-sqlite/src/dataflow/sql.rs:281-295 | with the columns the converter lists, a joined row is the left row followed by the right row without its key, a padded one the left row followed by NULLs |
| Joins.InnerRow | noria-sqlite/src/dataflow/ops.rs:298-376 | a row is in the inner join if and only if it shows, column for column, a left and a right row with equal keys |
| Joins.LeftRow | noria-sqlite/src/dataflow/ops.rs:298-376 | in the left join if and only if it shows such a pair, or a left row without partner and NULLs |
| Joins.JoinRecords | noria-sqlite/src/dataflow/ops.rs:298-376 | which records a batch is expanded to, for every state of the other side |
| Joins.UnknownExactly | noria-sqlite/src/dataflow/ops.rs:298-376 | a key is asked for if and only if a record has it and the other side nothing under it |
| Joins.InnerJoinLeftDelta | noria-sqlite/src/dataflow/ops.rs:298-376 | a batch from the left, joined through the right side's state, is the change of the nested-loop join |
| Joins.InnerJoinRightDelta | noria-sqlite/src/dataflow/ops.rs:298-376 | the same for a batch from the right, although it is enumerated in the other order |
| Joins.LeftJoinLeftDelta | noria-sqlite/src/dataflow/ops.rs:298-376 | a left join follows changes of its left side, padding included |
| Joins.LeftJoinRightDelta | noria-sqlite/src/dataflow/ops.rs:298-376 | it follows a change of its right side if and only if the NULL-padded rows are the same before and after, so no left row gains its first or loses its last partner unreplaced |
| Joins.LeftJoinKeepsStalePadding | noria-sqlite/src/dataflow/ops.rs:298-376 | a first partner arriving from the right leaves the padded row in the view |
| Joins.RightJoinIsInner | noria-sqlite/src/dataflow/ops.rs:298-376 | what is maintained for a right join is the inner join, right exactly when every right row has a partner |
| Joins.JoinSymmetric | noria-sqlite/src/dataflow/ops.rs:298-376 | pairing from either side gives the same bag |
| Joins.MaintainedLeftDelta | noria-sqlite/src/dataflow/ops.rs:298-376 | whatever its type, a join follows every change of its left side |
| Joins.MaintainedRightDelta | noria-sqlite/src/dataflow/ops.rs:298-376 | and a change of its right side, for a left join one that leaves the padding as it is |
| SqlJoins.InnerAgrees | noria-sqlite/src/dataflow/ops.rs:319-324 | the maintained inner join, which looks NULL up like any key, is the bag SQL asks for if and only if no left and right row are both NULL in the key |
| SqlJoins.LeftAgrees | noria-sqlite/src/dataflow/ops.rs:319-324 | the maintained left join is if and only if there is no such pair, or the one right row with a NULL key shows nothing but NULL |
| SqlJoins.RightAgrees | noria-sqlite/src/dataflow/ops.rs:298-376 | what is maintained for a right join is SQL's answer if and only if the pairs of NULL with NULL are, as a bag, the padded rows it lacks; without NULL in the left key, if and only if every right row has a partner |
| SqlJoins.SqlInnerCounts | noria-sqlite/src/dataflow/ops.rs:319-345 | SQL's inner join has a row as often as there are positions of a left and a right row with equal keys, neither NULL, that make it column by column |
| SqlJoins.SqlLeftRow | noria-sqlite/src/dataflow/ops.rs:319-345 | SQL's left join has the rows so made, and each left row that meets none with NULLs |
| SqlJoins.SqlRightRow | noria-sqlite/src/dataflow/ops.rs:319-345 | its right join the rows so made, and each right row that meets none with NULLs |
| Aggregates.ProcessAggregate | noria-sqlite/src/dataflow/ops.rs:433-508 | both loops of the aggregate, with groups visited in any order: new statistics and the rows emitted |
| Aggregates.AggregateDelta | noria-sqlite/src/dataflow/ops.rs:433-508 | the rows emitted are the change of the aggregate query recomputed from scratch, never retract a row that is not shown, and leave the statistics of the new input |
| SqlAggregates.StatsOfRows | noria-sqlite/src/dataflow/ops.rs:433-508 | the running count and sum of a group are those of its rows |
| SqlAggregates.GroupColumns | noria-sqlite/src/dataflow/ops.rs:433-508 | a row is in a group if and only if it has the group's values, column by column |
| SqlAggregates.ShownIsRight | noria-sqlite/src/dataflow/ops.rs:481-497 | for every group of every table the value shown is the one SQL asks for: COUNT(*) always; COUNT(col) if and only if no row is NULL there; SUM if and only if some row has an integer and none another value than integers and NULL; MIN and MAX if and only if a row has 0 and none a smaller (greater) value; AVG if and only if the values are integers and sum to 0, or there is no NULL and their number divides the sum |
| SqlAggregates.ViewIsRight | noria-sqlite/src/dataflow/sql.rs:163-173 | as bags, the view reports SQL's answer, one row for each group and without GROUP BY one row in all, if and only if, with GROUP BY, the shown value of every group agrees; without it, there are rows, all in one group of the column the converter falls back on, and they agree |
| SqlAggregates.KeyIsRight | noria-sqlite/src/dataflow/sql.rs:768-781 | without GROUP BY but with a WHERE on a parameter, looking up one value reports SQL's answer if and only if the value is not NULL, has rows, and these agree |
| SqlAggregates.CountIsSplit | noria-sqlite/src/dataflow/sql.rs:768-781 | a COUNT(*) over two rows is reported as 1 and 1, where SQL gives 2 |
| SqlAggregates.CountOfNothing | noria-sqlite/src/dataflow/sql.rs:768-781 | and over no rows as nothing at all, where SQL gives 0 |
| SqlAggregates.FiveAndSeven | noria-sqlite/src/dataflow/ops.rs:486-497 | over a group with 5 and 7 SQL answers 5 for the least and 7 for the greatest, and the view reports 0 for both |
| MemoryStates.ProcessRecords | noria-sqlite/src/dataflow/state.rs:166-202 | the record loop, exact match before NULL wildcards, keys without rows dropped |
| MemoryStates.StepsHolds | noria-sqlite/src/dataflow/state.rs:166-202 | on a batch whose deletes carry stored rows the state does exact bag arithmetic, row count included |
| MemoryStates.PartialDelete | noria-sqlite/src/dataflow/state.rs:166-202 | a delete not stored as it is takes the first row under its key that agrees where it is not NULL, and that row alone |
| MemoryStates.NothingToDelete | noria-sqlite/src/dataflow/state.rs:166-202 | and changes nothing if none agrees |
| MemoryStates.LookupIsSelection | noria-sqlite/src/dataflow/state.rs:204-211 | a lookup misses exactly when no stored row has the key, and otherwise has each row with the key's values in the key columns as often as it was stored, and no other row |
| MemoryStates.RowsWithExactly | noria-sqlite/src/dataflow/state.rs:204-211 | the rows with a key are those with its values, column by column, each as often as it is there |
| Executor.Process | noria-sqlite/src/dataflow/executor.rs:174-230 | whichever operator a node has, left and right joins included, a correct change of one input becomes the correct change of its query |
| Executor.LocalExecutor.constructor | noria-sqlite/src/dataflow/executor.rs:99-134 | over empty tables every materialized node is right from the start, if the inputs of each join are materialized on its keys |
| Executor.LocalExecutor.Propagate | noria-sqlite/src/dataflow/executor.rs:174-230 | a change arriving at a node, for the first time or again, settles every node reachable from it whose joins are fit, touches nothing that is not reachable, and without aggregates sends exactly the batches of the depth-first run |
| Executor.LocalExecutor.PropagateToChild | noria-sqlite/src/dataflow/executor.rs:186-230 | one more child and everything below it is settled, the later children still waiting |
| Executor.LocalExecutor.ApplyWrite | noria-sqlite/src/dataflow/executor.rs:152-160 | for every graph and write a node that held exactly its query still does, if at each join above it the write, should it arrive at both inputs, finds neither feeding the other, and does not arrive on the right of a left join; only the node the name is bound to gets the write, and an unknown table changes nothing |
| Executor.LocalExecutor.LookupView | noria-sqlite/src/dataflow/executor.rs:137-149 | a view lookup returns the bag of all rows of the query with that key and misses exactly when there is none; a row is in it if and only if the query, read operator by operator, has it and it has the key's values in the key columns |
| Executor.AnswerRow | noria-sqlite/src/dataflow/executor.rs:137-149 | what a node answers, row by row: of a base its rows, of a filter those of the input that pass, of a projection the listed columns, of a join the pairs and padded rows, of an aggregate the rows of its groups |
| Executor.LocalExecutor.AddBaseTable | noria-sqlite/src/dataflow/executor.rs:67-79 | a table gets a new, empty node and its name moves there, also if it had a node; every node is as right as it was |
| Executor.LocalExecutor.AddOperator | noria-sqlite/src/dataflow/executor.rs:99-123 | a new operator is right if and only if its inputs are, a join finds them materialized on its keys, and a grouping, whose statistics start empty, has no input rows yet |
| Executor.LocalExecutor.Materialize | noria-sqlite/src/dataflow/executor.rs:126-134 | materializing a node empties it, also a second time: an executor that was right is so afterwards if and only if that node's query is empty and the joins still find their keys; nodes not below it stay right |
| Building.AddOperator | noria-sqlite/src/dataflow/executor.rs:99-123 | every graph built by adding operators is one the laws here are about: a node is listed with its parent once for each input, children in the order they were created |
| RelatedInputs.FlowElsewhere | noria-sqlite/src/dataflow/executor.rs:174-230 | a node that is not below the source is sent nothing |
| RelatedInputs.TwiceFedSends | noria-sqlite/src/dataflow/executor.rs:174-230 | a join fed twice by one node is sent the delta paired with the node's new rows, twice |
| RelatedInputs.TwiceFedRight | noria-sqlite/src/dataflow/executor.rs:174-230 | it then follows its query if and only if, row by row, the delta pairs on the left with the new rows as it pairs on the right with the old ones; for a left join, if and only if the difference is what its padding lacks |
| RelatedInputs.FirstRowTwice | noria-sqlite/src/dataflow/executor.rs:174-230 | run through the graph of a table joined with itself, the first row is sent as the query asks if and only if it does not pair with itself; otherwise the pair arrives twice |
| RelatedInputs.FlowFeeds | noria-sqlite/src/dataflow/executor.rs:174-230 | whatever lies between, all that reaches the lower input of a join is paired with the upper one exactly once |
| RelatedInputs.UpperSends | noria-sqlite/src/dataflow/executor.rs:174-230 | a join of a node and a later one is sent the lower change against the upper input's new rows, and then the upper change against the lower input's new rows |
| RelatedInputs.UpperRight | noria-sqlite/src/dataflow/executor.rs:174-230 | whatever its type it then follows its query if and only if the upper delta pairs with the lower input's new rows as it does with its old ones, up to the change of a left join's padding |
| RelatedInputs.FirstRowAgain | noria-sqlite/src/dataflow/executor.rs:174-230 | the same through the graph of a table joined with a view that passes its rows on |
| Upqueries.View.LookupOrUpquery | noria-sqlite/src/dataflow/engine.rs:171-281 | hit or miss, the caller gets all rows of the key, the key is filled afterwards if it has any, and every filled key stays complete |
| Upqueries.WriteKeepsPartly | noria-sqlite/src/dataflow/state.rs:166-202 | a write keeps every filled key of a partly filled view complete, if and only if it does not insert under a hole whose key has rows already |
| Upqueries.RunKeepsPartly | noria-sqlite/src/dataflow/engine.rs:171-281 | over any run of lookups and writes every filled key stays complete all along, if and only if no write of the run does that |
| Upqueries.LookupsAreRight | noria-sqlite/src/dataflow/engine.rs:171-281 | up to the first such write every lookup of the run, hit or miss, gives all rows of its key |
| Upqueries.NeverHit | noria-better-sqlite3/noria-ffi/src/lib.rs:719-765 | lookups whose key is not as wide as the view's key columns are never hits, and every one of them adds the rows it was answered with once more |
| GroupedFills.AnyBatch | noria-sqlite/src/dataflow/ops.rs:433-508 | an aggregate view over a table with rows, filled from SQLite, with an operator that has heard of some of them: a batch leaves every filled key right if and only if no group of it is harmed, which the group's and the operator's statistics decide |
| GroupedFills.FirstInsert | noria-sqlite/src/dataflow/ops.rs:433-508 | the first insert of a group the operator hears of leaves every filled key right if and only if the group was not filled and one row shows what the whole group does |
| GroupedFills.CountsStayRight | noria-sqlite/src/dataflow/ops.rs:433-508 | inserts leave a filled COUNT right if and only if the operator had heard of every row of each group that gets more |
| DataTypes.TextRoundTrip | noria/src/data.rs:404-425 | storing a text in either representation and reading it back gives the text |
| DataTypes.EqIsSameMeaning | noria/src/data.rs:149-199 | equality across all representations holds exactly for equal meanings |
| DataTypes.EqIsEquivalence | noria/src/data.rs:149-199 | equality is reflexive, symmetric and transitive on well-formed values |
| DataTypes.EqualValuesMeet | noria/src/lib.rs:52-69 | equal values feed the hasher the same bytes and go to the same shard, below the shard count, negative integers included |
| DataTypes.UnequalTellApart | noria/src/lib.rs:52-69 | two integers, texts, reals or times feed the hasher the same if and only if they are equal, or are integers 2 to the 64 apart |
| DataTypes.ShardsInTurn | noria/src/lib.rs:52-69 | integers from 0 on go to the shards in turn, one to each and then over again |
| DataTypes.TextShards | noria/src/lib.rs:52-69 | a text goes, in either representation, where the hash of its bytes says, and NULL to shard 0 |
| DataTypes.LexPadded | noria/src/data.rs:208-238 | comparing zero-padded arrays agrees with comparing the texts |
| DataTypes.CmpByMeaning | noria/src/data.rs:208-256 | within a class the order is the numeric, lexicographic or chronological one, whatever the representations |
| DataTypes.CmpOrders | noria/src/data.rs:208-256 | the smaller integer, real or time comes first, of two texts the prefix or the one with the smaller byte at the first difference |
| DataTypes.CmpIsTotalOrder | noria/src/data.rs:208-256 | within one class it is a total order consistent with equality |
| DataTypes.CmpAntisymmetricWithinClass | noria/src/data.rs:243-255 | across classes it answers Greater both ways: antisymmetric if and only if the classes are the same |
| DataTypes.FromF64 | noria/src/data.rs:344-362 | the conversion computes the pair of the nearest billionth |
| DataTypes.FromF64Nearest | noria/src/data.rs:344-362 | its parts have the same sign, the fraction is inside one billion, the error at most half a billionth |
| DataTypes.FromF64Monotone | noria/src/data.rs:344-362 | it is monotone for the order on reals |
| DataTypes.F64RoundTrip | noria/src/data.rs:516-525 | a normalised real converted to a number and back is itself |
| DataTypes.CapturedRealAgrees | noria-sqlite/src/dataflow/session.rs:178-190 | captured reals, truncated and with the sign of the fraction dropped, agree with the conversion if and only if the fraction is not negative and rounds down, or is negative and rounds to nothing |
| Decimals.ParsePrint | noria-sqlite/src/view_cache.rs:384-434 | parsing a printed integer within its range gives it back |
| Decimals.Spelled | noria-sqlite/src/view_cache.rs:384-399 | -305 and 7, digit by digit |
| Decimals.PrintInjective | noria-sqlite/src/view_cache.rs:384-399 | different integers print differently |
| Codec.ValueRoundTrip | noria-sqlite/src/view_cache.rs:384-434 | decoding an encoded value never panics, and returns an equal value if and only if it is not a timestamp in a leap second, out of the nanosecond range, or before 1970 with a fraction |
| Codec.SerializeInjective | noria-sqlite/src/view_cache.rs:384-399 | the encoding identifies every value but such timestamps |
| Codec.UnsafeTimestampCollides | noria-sqlite/src/view_cache.rs:384-399 | each timestamp outside that class shares its encoding with another |
| Codec.SerializeKeyInjective | noria-sqlite/src/view_cache.rs:213-219 | key encoding is injective over tuples of all lengths, the empty one included |
| Codec.KeySpelled | noria-sqlite/src/view_cache.rs:213-219 | a key of an integer, a text and NULL, byte by byte |
| Codec.CanonicalKeys | noria-sqlite/src/view_cache.rs:213-219 | canonical keys share a cache entry exactly when they are equal values |
| Frames.PackAll | noria-sqlite/src/view_cache.rs:222-232 | the encoding loop writes the count and each item behind its length |
| Frames.PackSpelled | noria-sqlite/src/view_cache.rs:222-232 | one item of two bytes, byte by byte, lengths with the low byte first |
| Frames.UnpackAll | noria-sqlite/src/view_cache.rs:235-260 | the decoding loop reads frames until they are used up or cut off, within bounds |
| Frames.CutPacked | noria-sqlite/src/view_cache.rs:235-260 | any prefix of an encoding decodes to a prefix of the values, the whole of it to all of them |
| RowCodec.CutRowDecodes | noria-sqlite/src/view_cache.rs:222-260 | decoding any truncation of a stored row gives a prefix of the row |
| RowCodec.RowRoundTrip | noria-sqlite/src/view_cache.rs:222-260 | a row comes back equal if and only if it has fewer than 2^32 columns, each codable and below 2^32 bytes |
| Bags.ReplayHolds | noria-sqlite/src/view_cache.rs:301-368 | under encoded keys and rows the store holds, after every history, the rows inserted under a key since it was last removed, cleared or marked filled, and a hole exactly where the history leaves one |
| ViewCache.ViewHandle.constructor | noria-sqlite/src/view_cache.rs:190-210 | a new view has only holes |
| ViewCache.ViewHandle.Insert | noria-sqlite/src/view_cache.rs:301-313 | the store is that of the history with the insert appended |
| ViewCache.ViewHandle.InsertRow | noria-sqlite/src/view_cache.rs:316-323 | the key is read off the row, columns it does not have being skipped |
| ViewCache.ViewHandle.Remove | noria-sqlite/src/view_cache.rs:326-332 | the store is that of the history with the removal appended |
| ViewCache.ViewHandle.Clear | noria-sqlite/src/view_cache.rs:335-340 | the store is that of the history with the clear appended |
| ViewCache.ViewHandle.MarkFilled | noria-sqlite/src/view_cache.rs:361-368 | the store is that of the history with the key filled and empty |
| ViewCache.ViewHandle.LookupKey | noria-sqlite/src/view_cache.rs:267-279 | after every history a lookup misses exactly on a hole, and otherwise returns the bag of rows the history left under the key, in any order, never panicking |
| ViewCache.ViewHandle.IsHole | noria-sqlite/src/view_cache.rs:373-380 | holes are reported exactly |
| ViewCache.InsertThenLookup | noria-sqlite/src/view_cache.rs:267-323 | after any history, a row just inserted is among those found under the values it has in the key columns |
| ViewCache.RereadStored | noria-sqlite/src/view_cache.rs:222-260 | the row returned equals the row inserted |
| ViewSynthesis.SynthesizedAtMostOnce | noria-sqlite/src/view_cache.rs:86-113 | in every interleaving each text is synthesized successfully at most once |
| ViewSynthesis.SameHandle | noria-sqlite/src/view_cache.rs:86-113 | all successful calls for one text return one handle, made by the worker |
| ViewSynthesis.CallsAreAnswered | noria-sqlite/src/view_cache.rs:86-113 | in every interleaving, as many calls as were made are under way, have returned a handle or got the worker's error |
| ViewSynthesis.AnswersTheCall | noria-sqlite/src/view_cache.rs:86-113 | a handle is returned for the text its thread last asked for, which ends the call |
| ViewSynthesis.MadeByWorker | noria-sqlite/src/view_cache.rs:101-112 | handles are made exactly for the texts, and as the handles, the worker gave |
| ViewSynthesis.OneWriter | noria-sqlite/src/view_cache.rs:101-112 | while one thread builds a view no other reads or writes the map |
| ViewSynthesis.NoDeadlock | noria-sqlite/src/view_cache.rs:86-131 | while a call is under way some thread under way can go on |
| Transactions.Connection.Transaction | noria-better-sqlite3/lib/methods/transaction.js:52-78 | for every tree of bodies that write, throw, catch, nest or meet a failing BEGIN or COMMIT: whether the call throws and which writes remain is told by the control flow alone, the content is those writes applied in order to the one before, or to the start of a transaction SQLite rolled back, and transaction and savepoint stack are as the savepoint-free meaning says |
| Transactions.Connection.Finish | noria-better-sqlite3/lib/methods/transaction.js:64-77 | commit or release, and the undo path taken if that or the body failed |
| Transactions.OwnSavepoint | noria-better-sqlite3/lib/methods/transaction.js:37-39 | although all savepoints share a name, release and rollback reach the caller's own |
| Transactions.TransactionLaw | noria-better-sqlite3/lib/methods/transaction.js:52-78 | without automatic rollbacks every call leaves all writes its body's control flow keeps, applied in order, or, on a throw, none, with transaction and savepoints as at entry; it throws if and only if BEGIN fails, the body throws or an outermost COMMIT fails |
| Transactions.CourseIsMeaning | noria-better-sqlite3/lib/methods/transaction.js:52-78 | whatever the content, a body throws, loses its transaction and leaves behind what its control flow says |
| Transactions.CaughtCallAddsNothing | noria-better-sqlite3/lib/methods/transaction.js:52-78 | a nested call that writes, throws and is caught adds nothing between two writes |
| Transactions.TwoWritesStay | noria-better-sqlite3/lib/methods/transaction.js:52-78 | so a new connection with content c ends, whatever the nested call, with the second write applied to the first applied to c |
| Transactions.NestedLaw | noria-better-sqlite3/lib/methods/transaction.js:52-78 | a nested call keeps the law if and only if its body does not get to a statement on which SQLite rolls back |
| Transactions.OutermostLaw | noria-better-sqlite3/lib/methods/transaction.js:52-78 | an outermost call keeps it if and only if the actions still run after such a rollback, by themselves and outside any transaction, leave the content at entry as it is |
| Transactions.LostExactly | noria-better-sqlite3/lib/methods/transaction.js:64-77 | the transaction is gone at the end of a body if and only if the body got to such a statement, however it is nested and caught |
| Transactions.RemainingMeans | noria-better-sqlite3/lib/methods/transaction.js:64-77 | after the rollback the body has the content and outcome of its remaining actions run from the content the transaction began with |
| Transactions.CarefulLaw | noria-better-sqlite3/lib/methods/transaction.js:52-78 | a body that neither writes nor calls behind a caught rollback keeps the law |
| Transactions.CaughtAbortEscapes | noria-better-sqlite3/lib/methods/transaction.js:71-77 | a body that catches the rollback and writes on: the call throws and the write stays |
| Capture.Noria.Execute | noria-better-sqlite3/src/objects/statement.cpp:159-160 | every statement, savepoint and rollback steps included, leaves the content the session started from recoverable and every snapshot covered |
| Capture.TransactionLands | noria-better-sqlite3/src/objects/statement.cpp:159-160 | BEGIN, writes, a savepoint and more writes: going back to the savepoint and COMMIT keep the writes before it, releasing it and COMMIT all of them, ROLLBACK none |
| Capture.Noria.ProcessSessionChangeset | noria-better-sqlite3/src/util/noria.cpp:431-582 | inside a transaction nothing is handed over; outside, each change is of a table with views, leads to the row as it is now and fits on top of the one before, and what was told is then the committed content; capture goes on if and only if nothing had to be handed over or the session could be re-created |
| Capture.Noria.ApplyChanges | noria-better-sqlite3/src/util/noria.cpp:464-569 | the loop over the changeset, in any order, tables without views skipped |
| Capture.Noria.RegisterView | noria-better-sqlite3/src/util/noria.cpp:294-310 | with a session, capture goes on soundly, changes it already holds of new tables included; without one it starts soundly if and only if one can be opened, nothing is uncommitted and what was told is up to date |
| Capture.Noria.EnsureSession | noria-better-sqlite3/src/util/noria.cpp:410-428 | a session starts soundly if and only if nothing is uncommitted and the dataflow is up to date |
| Capture.Noria.NotifyChange | noria-better-sqlite3/src/util/noria.cpp:711-716 | nothing is handed over inside a transaction, and outside what was told is left as it was or brought to the committed content |
| Capture.Noria.RunStatement | noria-better-sqlite3/src/objects/statement.cpp:153-191 | a row-changing INSERT, UPDATE or DELETE in autocommit mode, and the end of a transaction, bring the dataflow up to date; nothing else hands anything over |
| Capture.Noria.ExecScript | noria-better-sqlite3/src/objects/database.cpp:226-270 | a script that succeeds and ends outside a transaction brings the dataflow up to date; one that fails or ends inside hands nothing over |
| Capture.Noria.RunScript | noria-better-sqlite3/src/util/noria.cpp:431-582 | over every run, changes handed over fit one on top of the other, so none arrives twice, and what was told is always a content that was committed, never an older one than before, also once the session is lost |
| Capture.LateSessionMissesRollback | noria-better-sqlite3/src/util/noria.cpp:410-428 | a session opened inside a transaction never notices its rollback |
| Capture.SessionRemembers | noria-better-sqlite3/src/util/noria.cpp:410-428 | whatever is run, rolled back or not, the session remembers each row it started from |
| Capture.ToldAgain | noria-better-sqlite3/noria-ffi/src/lib.rs:719-765 | rows filled from the database are told a change they already show if and only if the keys the session has changed meet the rows filled |
| Capture.FillEndsRight | noria-better-sqlite3/noria-ffi/src/lib.rs:719-765 | a row filled at any time, with any statements, COMMIT or ROLLBACK before the next hand-over, is there once and current afterwards if and only if the session held no change of it when it was filled, or it was absent then and is handed over |
| Capture.FilledThenRolledBack | noria-better-sqlite3/noria-ffi/src/lib.rs:719-765 | a row inserted in a transaction, filled into a view and rolled back stays in the view |
| Wires.LiveAfter | noria-sqlite/src/dataflow/executor.rs:67-79 | a node still hears of its table after a run of changes and registrations if and only if none of them named the table |
| Wires.InStepAfter | noria-better-sqlite3/noria-ffi/src/lib.rs:971-1053 | a node that has the rows told, and is not cut off during the run, has the rows told after it |
| Wires.CutOffMisses | noria-sqlite/src/dataflow/executor.rs:67-79 | for every node that is cut off there is a next change after which it is wrong |
| Wires.FollowsExactly | noria-better-sqlite3/noria-ffi/src/lib.rs:474-478 | over every run, a node that has the rows told goes on having them whatever is told next, if and only if no step of the run has named its table again |
| Tables.SameUnderKey | noria-better-sqlite3/noria-ffi/src/lib.rs:663-715 | two contents have the same rows under a key if and only if no row that differs between them is under it in either |
| Views.BuildView | noria-sqlite/src/dataflow/sql.rs:105-318 | what one text builds on top of new, empty nodes makes the graph and the key columns its steps say, keeps every right node right and every table as it is, adds no base node, and leaves the new nodes empty |
| Views.FreshRight | noria-sqlite/src/dataflow/sql.rs:105-318 | a new node is right if and only if the joins above it find their inputs materialized on their keys |
| Views.AnswerPermuted | noria-sqlite/src/dataflow/executor.rs:137-149 | a view depends on the bags of rows of the base nodes above it and on nothing else |
| Scripts.RunProper | noria-sqlite/src/dataflow/executor.rs:99-123 | every graph of a run is one the executor's laws are about |
| Capture.Noria.Perform | noria-better-sqlite3/src/util/noria.cpp:431-582 | the content the dataflow knows after a command is the current one if the command notifies outside a transaction with a session open, and the one before otherwise |
| Pipeline.Cached.FeedOne | noria-better-sqlite3/noria-ffi/src/lib.rs:971-1053 | an INSERT, DELETE or UPDATE applied as signed records moves the node bound to its table as the change moves the table, and keeps sound what was sound |
| Pipeline.Cached.Feed | noria-better-sqlite3/src/util/noria.cpp:464-569 | the changes of a hand-over, one by one, bring the bound nodes to the content told |
| Pipeline.Cached.Perform | noria-better-sqlite3/src/util/noria.cpp:431-582 | whatever the statements do, nodes that hold their query stay so and bound base nodes have the rows told; no name moves, inside a transaction nothing is told, and a command that notifies outside one brings what is told to the current content |
| Pipeline.Cached.RunScript | noria-better-sqlite3/src/util/noria.cpp:294-582 | over every run of statements and prepared texts, from a new connection on, graph, names and the content told are functions of the run; sound nodes stay sound, and one that heard of all its tables still does if and only if no text of the run named one; a node of a text prepared on the way that answers there is sound at the end, and hears of all its tables if and only if no later text named one |
| Pipeline.Cached.constructor | noria-better-sqlite3/src/util/noria.cpp:294-310 | a new connection to any database is one runs start from |
| Pipeline.Cached.NameAll | noria-better-sqlite3/src/util/noria.cpp:349-406 | each table a text names gets a new node, the name stays with the last node that took it, and what was sound stays so |
| Pipeline.Cached.Register | noria-better-sqlite3/src/util/noria.cpp:294-310 | preparing a SELECT, accepted or not, known or not, names again exactly the tables of its text and leaves all sound nodes sound; a new node is sound and hears of all its tables if and only if its joins are keyed and fit, and each table above it kept its name to the end of the text, has views and was told nothing of; a first session starts soundly if and only if it can be opened with nothing uncommitted and all told |
| Pipeline.Cached.Read | noria-better-sqlite3/noria-ffi/src/lib.rs:663-715 | a cached read of a node that hears of all its tables returns the bag of rows of the view's query, over the content last handed over, with the key, and misses exactly when there is none |
| Pipeline.Cached.ReadPrepared | noria-better-sqlite3/noria-ffi/src/lib.rs:663-715 | after any run, so does a read of a view the run prepared, that answered there and whose tables no later text named, over the content the run has told |
| Pipeline.FirstRead | noria-better-sqlite3/noria-ffi/src/lib.rs:663-715 | a new connection, a SELECT over an empty table prepared, a row inserted: a read finds it |
| Pipeline.ReadPlain | noria-better-sqlite3/noria-ffi/src/lib.rs:663-715 | a hit of a plain view is what SQLite itself would answer now, in or out of a transaction, if and only if the key has no NULL and no row changed since the last hand-over is or was under it |
| Pipeline.SelectedExactly | noria-better-sqlite3/noria-ffi/src/lib.rs:663-715 | what SQLite itself answers has each row with the key's values, none of them NULL, as often as it is there |
| Pipeline.TwoViews | noria-better-sqlite3/noria-ffi/src/lib.rs:474-478 | two views over one table and an insert: the second shows the row, the first does not |
| Pipeline.StaleView | noria-better-sqlite3/noria-ffi/src/lib.rs:474-478 | a row of a view stays there whatever is written, its deletion included, once its table has been named again |
| EventBuffer.Database.ApplyEvents | noria-sqlite/src/database.rs:241-265 | events reach the engine one by one in order |
| EventBuffer.Database.Execute | noria-sqlite/src/database.rs:160-234 | a statement that changes rows adds all its events, in order, to the buffer inside a transaction and to the engine outside; COMMIT moves the whole buffer to the engine, BEGIN and ROLLBACK drop it, and a failed statement moves nothing |
| EventBuffer.Database.ExecuteBatch | noria-sqlite/src/database.rs:339-370 | the same for a batch, which opens and closes transactions but captures nothing |
| EventBuffer.EngineSeesCommitted | noria-sqlite/src/database.rs:160-234 | over every run the engine has been given, one after the other, all events of each statement that changed rows and either ran outside a transaction or in one a later call committed, if and only if no stale event is committed |
| EventBuffer.LandedIsCommitted | noria-sqlite/src/database.rs:160-234 | said statement by statement of the whole run, or of what is still to come, these are the same events |
| EventBuffer.NothingStale | noria-sqlite/src/database.rs:206-208 | none is if transactions are opened through execute, however they are closed, or if SQLite rolls nothing back by itself |
| EventBuffer.PendingIsTransaction | noria-sqlite/src/database.rs:216-218 | inside a transaction the buffer is exactly that transaction's events |
| EventBuffer.BatchBeginCommitsStale | noria-sqlite/src/database.rs:339-370 | a BEGIN through a batch after an automatic rollback commits an event that never was |
| Binding.BindMap.Grow | noria-better-sqlite3/src/util/bind-map.cpp:58-68 | growing loses and reorders nothing and makes room |
| Binding.BindMap.Add | noria-better-sqlite3/src/util/bind-map.cpp:50-54 | the pair is appended to the contents |
| Binding.GetBindMap | noria-better-sqlite3/src/objects/statement.cpp:40-50 | the map holds the named parameters in order of their index |
| Binding.Binder.NextAnonIndex | noria-better-sqlite3/src/util/binder.cpp:52-55 | the next nameless parameter |
| Binding.Binder.BindArray | noria-better-sqlite3/src/util/binder.cpp:79-99 | elements go to the next nameless parameters in order, all or failure |
| Binding.Binder.BindObject | noria-better-sqlite3/src/util/binder.cpp:105-140 | every named parameter gets its property, or the call fails |
| Binding.Binder.BindArgs | noria-better-sqlite3/src/util/binder.cpp:149-187 | succeeds exactly on acceptable lists, with the layout of all of them |
| Binding.Binder.Bind | noria-better-sqlite3/src/util/binder.cpp:11-26 | succeeds if and only if every argument can be bound and nothing is missing, and then has bound the complete layout |
| Binding.AcceptsExactly | noria-better-sqlite3/src/util/binder.cpp:149-187 | which argument lists are acceptable, in whatever order scalars, arrays and the one object come |
| Binding.BoundOnce | noria-better-sqlite3/src/util/binder.cpp:11-26 | after a successful bind no parameter is bound twice |
| Binding.NamelessBound | noria-better-sqlite3/src/util/binder.cpp:52-99 | each nameless parameter has the positional value of its rank |
| Binding.NamedBound | noria-better-sqlite3/src/util/binder.cpp:105-140 | each named parameter has the object's value of its name |
| CacheKeys.ExtractKeys | noria-better-sqlite3/src/objects/statement.cpp:496-518 | the nested index loop flattens arguments, empty arrays included, pads with NULL and stops at the last parameter |
| CacheKeys.KeysAreBoundValues | noria-better-sqlite3/src/objects/statement.cpp:496-518 | without named parameters and without an object before a positional value, the key at each position is the value bound there |
| CacheKeys.KeysAgreeExactly | noria-better-sqlite3/src/objects/statement.cpp:496-518 | for a complete bind, key and bound values agree whatever the values are if and only if no parameter is named and no object comes before a positional value |
| CacheKeys.ObjectBreaksKey | noria-better-sqlite3/src/objects/statement.cpp:514-516 | an object with fewer positional values before it than there are parameters: with 1 for every value the bind succeeds and the key is wrong |
| CacheKeys.ObjectKeyIsNull | noria-better-sqlite3/src/objects/statement.cpp:514-516 | one named parameter: the object binds it and leaves NULL in the key |
| CacheKeys.BoundBeforehand | noria-better-sqlite3/src/objects/statement.cpp:496-563 | a call whose arguments the key does not read, bound beforehand or through all, has the right key if and only if every positional value and every property bound to a named parameter is NULL |
| VirtualTable.Forward | noria-better-sqlite3/src/util/custom-table.cpp:297-324 | every constraint on a parameter is collected, or the first that cannot be forwarded decides the error |
| VirtualTable.Assign | noria-better-sqlite3/src/util/custom-table.cpp:327-335 | from the sorted pairs, bitmap and positions pass exactly the lowest-numbered constraint of each parameter, numbered from 1 without gaps |
| VirtualTable.BestIndex | noria-better-sqlite3/src/util/custom-table.cpp:292-341 | a plan is made if and only if every constraint on a parameter column is a usable equality, a LIMIT or an OFFSET; it encodes the chosen constraints, and its bitmap fits the parameters |
| VirtualTable.Filter | noria-better-sqlite3/src/util/custom-table.cpp:186-209 | the unpacking loop fills slots in order and stops at a NULL argument |
| VirtualTable.ArgumentsArrive | noria-better-sqlite3/src/util/custom-table.cpp:186-209 | every slot receives the value of the lowest-numbered constraint on its parameter, or undefined if there is none |
| VirtualTable.FirstBindingArrives | noria-better-sqlite3/src/util/custom-table.cpp:186-341 | the value of the first equality on a parameter arrives in its slot, which is undefined if and only if there is none |
| Authority.StepKeeps | noria/src/consensus/local.rs:40-114 | every step but a write that makes a leader appear without an election keeps the invariant, and such a write never does |
| Authority.OneElectionPerEpoch | noria/src/consensus/local.rs:40-57 | elections won are the epoch plus one if there is a leader, so no two share an epoch |
| Authority.AnswersAreElected | noria/src/consensus/local.rs:59-91 | if nothing else writes the controller key, epoch and payload of every answer, and of the current leader, are those with which a thread won an election |
| Authority.AwaitedEpochIsLater | noria/src/consensus/local.rs:80-91 | in every interleaving the answer is no leader or a strictly later one if and only if, at the call, the epoch asked about was not ahead of the current one or there was no leader |
| Authority.WakeupsAreNotLost | noria/src/consensus/local.rs:59-91 | a sleeping thread always has a true wait condition |
| Authority.UsurperIsNotAnnounced | noria/src/consensus/local.rs:98-114 | writing the controller key from outside leaves a waiter asleep although there is a leader |
| Authority.FutureEpochAnsweredEarlier | noria/src/consensus/local.rs:80-91 | with a leader of epoch 0, asked about a later epoch, the answer is that leader at once |
| Authority.LocalAuthority.BecomeLeader | noria/src/consensus/local.rs:40-49 | wins exactly without a leader, with an epoch never won before, and wakes everyone |
| Authority.LocalAuthority.SurrenderLeadership | noria/src/consensus/local.rs:51-57 | ends the epoch, or panics without a leader and poisons the lock |
| Iterators.CounterIsExact | noria-better-sqlite3/src/objects/statement-iterator.cpp:1-68 | in every reachable state the counter is the number of iterators not cleaned up and at most 65535 |
| Iterators.LockOwner | noria-better-sqlite3/src/objects/statement-iterator.cpp:1-68 | each locked statement owns exactly one iterator alive |
| Iterators.AliveExcludes | noria-better-sqlite3/src/util/query-macros.cpp:18-52 | while one is alive the connection is open, close is refused, and outside unsafe mode so are run and exec |
| Iterators.BusyRefuses | noria-better-sqlite3/src/util/query-macros.cpp:18-42 | while SQLite is running something every other call is refused |
| Iterators.GetsThrough | noria-better-sqlite3/src/util/query-macros.cpp:18-52 | in every reachable state, exactly which calls get through, by what is open, running and alive |
| Iterators.WorksOn | noria-better-sqlite3/src/objects/statement-iterator.cpp:97-102 | a call that does sets SQLite to work on that statement or iterator |
| Iterators.AliveNext | noria-better-sqlite3/src/objects/statement-iterator.cpp:1-68 | an iterator is alive from its creation until it is returned or gives no further row |
| Iterators.AllEnded | noria-better-sqlite3/src/objects/database.cpp:407-415 | once all have ended nothing is locked and close succeeds |
| Iterators.Connection.Iterate | noria-better-sqlite3/src/objects/statement-iterator.cpp:78-95 | the guards and the constructor take the step of the state machine, or throw and change nothing |
| Iterators.Connection.Next | noria-better-sqlite3/src/objects/statement-iterator.cpp:97-102 | likewise up to the call into SQLite |
| Iterators.Connection.Stepped | noria-better-sqlite3/src/objects/statement-iterator.cpp:37-60 | and back from it, cleaning up unless there was a row |
| Iterators.Connection.Return | noria-better-sqlite3/src/objects/statement-iterator.cpp:104-109 | an iterator returned early is cleaned up once |
| Iterators.Connection.Run | noria-better-sqlite3/src/objects/statement.cpp:153-159 | the guards of run |
| Iterators.Connection.Exec | noria-better-sqlite3/src/objects/database.cpp:226-260 | the guards of exec, and the busy flag while its script is run |
| Iterators.Connection.Close | noria-better-sqlite3/src/objects/database.cpp:407-415 | the guards of close |

## Left out

- Executor.LocalExecutor.ApplyWrite: batches whose deletes carry rows of the table; deletes with NULL for unknown columns are in the state model but not in the law. Joins that are not fit for a write are in RelatedInputs, for a delta arriving at the upper input, and left joins written on the right in LeftJoinRightDelta.
- Executor.LocalExecutor.constructor: takes the finished graph (see AddOperator); the SQL converter that decides which operators to add, and its parser, are not part of this model.
- RelatedInputs.UpperRight: a delta that arrives at both inputs from further up is left out.
- RelatedInputs.TwiceFedSends: graphs without aggregates, here and in TwiceFedRight. An aggregate sends its groups in an order of its own, so what it sends is no function of the graph.
- RelatedInputs.UpperSends: likewise, here and in UpperRight.
- Operators.ProcessProject: rows have the columns listed, here and in joins and aggregates; past the end of a row the model shows NULL where the source panics.
- Aggregates.ProcessAggregate: sums are unbounded integers (the source adds 64-bit numbers, which overflow) and count every integer representation (the source adds Int and BigInt, the only ones SQLite rows arrive in, and takes the unsigned ones for 0).
- Aggregates.AggregateDelta: is about the aggregate as the operator defines it; ShownIsRight says when that is SQL's.
- SqlAggregates.ShownIsRight: of the average of a group with values that are not integers any real number or integer is accepted; instants, which SQLite does not have, come last in the order.
- SqlAggregates.ViewIsRight: one aggregate over one table; HAVING, DISTINCT and ORDER BY are left out.
- Upqueries.View.LookupOrUpquery: one caller at a time, keys as wide as the view's (others are in NeverHit), and SQLite answers for the table the view stands for; what a fill does while a session holds changes is in FillEndsRight. The window between reading SQLite and filling the view is not modelled, nor the key columns that one path appends to rows of a narrower SELECT and the other does not.
- GroupedFills.AnyBatch: grouped by one column and looked up by it.
- DataTypes.FromF64: numbers are exact reals within the 64-bit range; floating-point rounding and the arithmetic macros are left out.
- DataTypes.EqualValuesMeet: the hash of a text is an uninterpreted function of its bytes.
- ViewCache.ViewHandle.LookupKey: evmap is a multi-value map published after every operation; memory and hit counters are left out, and keys and rows outside the codec's faithful class (see ValueRoundTrip and RowRoundTrip) are not covered.
- ViewSynthesis.NoDeadlock: says that a step is possible, not that the lock is fair.
- Transactions.Connection.Transaction: bodies do not issue BEGIN, COMMIT or SAVEPOINT themselves and do not leave an iterator open at the end, which would make COMMIT and ROLLBACK refuse to run.
- Capture.Noria.RunScript: changes carry whole rows; the partial column values of UPDATE and DELETE events and their completion from the database are left out, as are tables without a primary key, which SQLite sessions do not record, and views registered in the middle of the run (see Pipeline.Cached.RunScript). What was told is a ghost: the tables with views before the first change, and every change since.
- Capture.FillEndsRight: for a view that passes rows on; a delete takes the exact row, not the first one that matches up to NULLs.
- Pipeline.Cached.Read: rows that came as changes; rows filled on demand are in LookupOrUpquery, RunKeepsPartly and FillEndsRight. Aggregates and joins over tables with rows at registration start from nothing, which AddOperator and Register say; what changes then do to a filled aggregate is in AnyBatch, and filled joins are left out.
- Pipeline.Cached.Register: texts in whose FROM and JOIN the scan finds every table the converter uses (commas between tables hide some), with names in lower case.
- Pipeline.Cached.RunScript: runs in which sessions can be opened, the first one with nothing uncommitted; one that loses its session is in Capture.Noria.RunScript, one opened too late in LateSessionMissesRollback.
- Pipeline.ReadPlain: views that pass the rows of one table on, whose rows carry their primary key.
- EventBuffer.EngineSeesCommitted: flat transactions; savepoints, writes inside execute_batch, statements that fail after keeping some changes, and changes SQLite does not count (INSTEAD OF triggers) are captured by neither the code nor the promise stated here.
- EventBuffer.Database.ExecuteBatch: a batch does what its first statement says; one that begins a transaction and also ends it is open afterwards in the model and closed in SQLite.
- Binding.Binder.Bind: reading an argument does not call back into the connection; which message is thrown is not modelled.
- VirtualTable.BestIndex: the cost estimate is left out; sorting is modelled by insertion, the order being that of the library sort.
- Authority.AwaitedEpochIsLater: epochs are unbounded integers; the calls that block exist as steps only, not as methods.
- Iterators.CounterIsExact: getters that run while arguments are bound do not call back into the connection.
- Hashing, SQL text heuristics, V8 conversion, backup, CLI parsing, networking, benchmarks and clients would only add easy members.
