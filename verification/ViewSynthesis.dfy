/** Threads looking up or creating a view under a readers-writer lock, step by step. */
module ViewSynthesis {
  import opened Values

  type Thread = nat
  type Handle = nat

  /** Where a thread is inside `get_or_create_view`, or in `flush`. */
  datatype Place =
    | Idle
    | WantRead(sql: string)      // waiting for the read lock
    | Reading(sql: string)       // holding it, about to check
    | WantWrite(sql: string)     // missed, waiting for the write lock
    | Writing(sql: string)       // holding it, about to check again
    | Synthesizing(sql: string)  // missed again, the worker is building the view
    | Flushing                   // `flush` and `stats` hold the read lock

  datatype Pair = Pair(sql: string, handle: Handle)

  /** The lock and the map are the source's state; the two logs record what happened. */
  datatype State = State(
    at: map<Thread, Place>, readers: set<Thread>, writer: Option<Thread>, views: map<string, Handle>,
    made: seq<Pair>, returned: seq<Pair>)

  datatype Step =
    | Call(t: Thread, sql: string)
    | LockRead(t: Thread)
    | Check(t: Thread)
    | LockWrite(t: Thread)
    | CheckAgain(t: Thread)
    | Synthesize(t: Thread, result: Option<Handle>)  // `None`: the worker reports an error
    | Flush(t: Thread)
    | EndFlush(t: Thread)

  function PlaceOf(s: State, t: Thread): Place {
    if t in s.at then s.at[t] else Idle
  }

  function Move(s: State, t: Thread, p: Place): State {
    s.(at := s.at[t := p])
  }

  function Answer(s: State, t: Thread, sql: string, h: Handle): State {
    Move(s, t, Idle).(returned := s.returned + [Pair(sql, h)])
  }

  /** `None` when the thread is not at that point or the lock is not free. */
  function Next(s: State, step: Step): Option<State> {
    var p := PlaceOf(s, step.t);
    match step
    case Call(t, sql) => if p.Idle? then Some(Move(s, t, WantRead(sql))) else None
    case LockRead(t) =>
      if p.WantRead? && s.writer.None? then Some(Move(s, t, Reading(p.sql)).(readers := s.readers + {t})) else None
    case Check(t) =>
      if !p.Reading? then None
      else
        var free := s.(readers := s.readers - {t});
        Some(if p.sql in s.views then Answer(free, t, p.sql, s.views[p.sql]) else Move(free, t, WantWrite(p.sql)))
    case LockWrite(t) =>
      if p.WantWrite? && s.writer.None? && s.readers == {}
      then Some(Move(s, t, Writing(p.sql)).(writer := Some(t))) else None
    case CheckAgain(t) =>
      if !p.Writing? then None
      else if p.sql in s.views then Some(Answer(s.(writer := None), t, p.sql, s.views[p.sql]))
      else Some(Move(s, t, Synthesizing(p.sql)))
    case Synthesize(t, result) =>
      if !p.Synthesizing? then None
      else
        var free := s.(writer := None);
        (match result
         case None => Some(Move(free, t, Idle))
         case Some(h) =>
           Some(Answer(free, t, p.sql, h).(views := s.views[p.sql := h], made := s.made + [Pair(p.sql, h)])))
    case Flush(t) =>
      if p.Idle? && s.writer.None? then Some(Move(s, t, Flushing).(readers := s.readers + {t})) else None
    case EndFlush(t) =>
      if p.Flushing? then Some(Move(s, t, Idle).(readers := s.readers - {t})) else None
  }

  const INIT := State(map[], {}, None, map[], [], [])

  /** Any interleaving: the state after the steps, `None` if one of them is not enabled. */
  function After(steps: seq<Step>): Option<State> {
    if steps == [] then Some(INIT)
    else
      match After(steps[..|steps| - 1])
      case None => None
      case Some(s) => Next(s, steps[|steps| - 1])
  }

  // ---------------------------------------------------------------------------
  // Invariant
  // ---------------------------------------------------------------------------

  predicate Reads(p: Place) {
    p.Reading? || p.Flushing?
  }

  predicate Writes(p: Place) {
    p.Writing? || p.Synthesizing?
  }

  ghost predicate Locked(s: State) {
    && (forall t: Thread :: t in s.readers <==> Reads(PlaceOf(s, t)))
    && (forall t: Thread :: s.writer == Some(t) <==> Writes(PlaceOf(s, t)))
    && (s.writer.Some? ==> s.readers == {})
  }

  /** The double check still holds while the worker builds the view. */
  ghost predicate StillMissing(s: State) {
    forall t: Thread :: PlaceOf(s, t).Synthesizing? ==> PlaceOf(s, t).sql !in s.views
  }

  ghost predicate Recorded(s: State, e: Pair) {
    e.sql in s.views && s.views[e.sql] == e.handle
  }

  ghost predicate Logged(s: State) {
    && (forall e :: e in s.made ==> Recorded(s, e))
    && (forall e :: e in s.returned ==> Recorded(s, e) && e in s.made)
    && (forall sql :: sql in s.views ==> Pair(sql, s.views[sql]) in s.made)
    && (forall i, j :: 0 <= i < j < |s.made| ==> s.made[i].sql != s.made[j].sql)
  }

  ghost predicate Inv(s: State) {
    Locked(s) && StillMissing(s) && Logged(s)
  }

  lemma LockedKept(s: State, step: Step)
    requires Locked(s) && Next(s, step).Some?
    ensures Locked(Next(s, step).value)
  {
    var s' := Next(s, step).value;
    var q := PlaceOf(s', step.t);
    assert forall t :: t != step.t ==> PlaceOf(s', t) == PlaceOf(s, t);
    assert Writes(PlaceOf(s, step.t)) ==> s.writer == Some(step.t);
  }

  /** Only the holder of the write lock adds a view. */
  lemma StillMissingKept(s: State, step: Step)
    requires Locked(s) && StillMissing(s) && Next(s, step).Some?
    ensures StillMissing(Next(s, step).value)
  {
    var s' := Next(s, step).value;
    forall t | PlaceOf(s', t).Synthesizing? ensures PlaceOf(s', t).sql !in s'.views {
      if t != step.t {
        assert PlaceOf(s', t) == PlaceOf(s, t);
        assert s.writer == Some(t);
        assert Writes(PlaceOf(s, step.t)) ==> s.writer == Some(step.t);
      }
    }
  }

  lemma LoggedKept(s: State, step: Step)
    requires Inv(s) && Next(s, step).Some?
    ensures Logged(Next(s, step).value)
  {
    var s' := Next(s, step).value;
    if step.Synthesize? && step.result.Some? {
      SynthesizedOnce(s, step, s');
    } else {
      assert s'.made == s.made && s'.views == s.views;
      if s'.returned != s.returned {
        var e := s'.returned[|s.returned|];
        assert s'.returned == s.returned + [e];
        assert Pair(e.sql, s.views[e.sql]) in s.made;
      }
    }
  }

  lemma SynthesizedOnce(s: State, step: Step, s': State)
    requires Inv(s) && step.Synthesize? && step.result.Some? && Next(s, step) == Some(s')
    ensures Logged(s')
  {
    var sql := PlaceOf(s, step.t).sql;
    var e := Pair(sql, step.result.value);
    assert s'.made == s.made + [e] && s'.returned == s.returned + [e];
    assert sql !in s.views;
    forall i | 0 <= i < |s.made| ensures s.made[i].sql != sql {
      assert s.made[i] in s.made;
    }
    forall k | k in s'.views ensures Pair(k, s'.views[k]) in s'.made {
      if k != sql { assert Pair(k, s.views[k]) in s.made; }
    }
    assert e in s'.made;
  }

  lemma {:induction false} RunKeepsInv(steps: seq<Step>)
    requires After(steps).Some?
    ensures Inv(After(steps).value)
  {
    if steps != [] {
      var front, step := steps[..|steps| - 1], steps[|steps| - 1];
      RunKeepsInv(front);
      var s := After(front).value;
      LockedKept(s, step);
      StillMissingKept(s, step);
      LoggedKept(s, step);
    }
  }

  // ---------------------------------------------------------------------------
  // What callers may rely on
  // ---------------------------------------------------------------------------

  /** In every interleaving each text is synthesized successfully at most once. */
  lemma SynthesizedAtMostOnce(steps: seq<Step>, i: nat, j: nat)
    requires After(steps).Some? && i < j < |After(steps).value.made|
    ensures After(steps).value.made[i].sql != After(steps).value.made[j].sql
  {
    RunKeepsInv(steps);
  }

  /** All successful calls for one text return one handle, and that handle was made by the worker. */
  lemma SameHandle(steps: seq<Step>, d: Pair, e: Pair)
    requires After(steps).Some?
    requires d in After(steps).value.returned && e in After(steps).value.returned && d.sql == e.sql
    ensures d.handle == e.handle && d in After(steps).value.made
  {
    RunKeepsInv(steps);
    var s := After(steps).value;
    assert Recorded(s, d) && Recorded(s, e);
  }

  /** The write lock excludes everyone else: two threads never build at the same time. */
  lemma OneWriter(steps: seq<Step>, t: Thread, u: Thread)
    requires After(steps).Some? && t != u && Writes(PlaceOf(After(steps).value, t))
    ensures !Writes(PlaceOf(After(steps).value, u)) && !Reads(PlaceOf(After(steps).value, u))
  {
    RunKeepsInv(steps);
    var s := After(steps).value;
    assert s.writer == Some(t) && u !in s.readers;
  }

  function Continue(t: Thread, p: Place): Step {
    match p
    case Idle => Call(t, "")
    case WantRead(_) => LockRead(t)
    case Reading(_) => Check(t)
    case WantWrite(_) => LockWrite(t)
    case Writing(_) => CheckAgain(t)
    case Synthesizing(_) => Synthesize(t, None)
    case Flushing => EndFlush(t)
  }

  /** While some call is under way, some thread under way can go on: the lock never deadlocks. */
  lemma NoDeadlock(steps: seq<Step>, t: Thread) returns (u: Thread)
    requires After(steps).Some? && !PlaceOf(After(steps).value, t).Idle?
    ensures var s := After(steps).value;
            !PlaceOf(s, u).Idle? && Next(s, Continue(u, PlaceOf(s, u))).Some?
  {
    RunKeepsInv(steps);
    var s := After(steps).value;
    if s.writer.Some? {
      u := s.writer.value;
      assert Writes(PlaceOf(s, u));
    } else if s.readers != {} {
      u :| u in s.readers;
      assert Reads(PlaceOf(s, u));
    } else {
      u := t;
    }
  }

  // ---------------------------------------------------------------------------
  // What becomes of every call
  // ---------------------------------------------------------------------------

  predicate InCall(p: Place) {
    !p.Idle? && !p.Flushing?
  }

  function UnderWay(s: State): set<Thread> {
    set t | t in s.at && InCall(s.at[t])
  }

  /** Calls made, and calls the worker reported an error for. */
  function Counted(steps: seq<Step>, made: bool): nat {
    if steps == [] then 0
    else
      var last := steps[|steps| - 1];
      Counted(steps[..|steps| - 1], made) +
      if (if made then last.Call? else last.Synthesize? && last.result.None?) then 1 else 0
  }

  lemma UnderWayChange(s: State, s': State, t: Thread)
    requires forall u :: u != t ==> PlaceOf(s', u) == PlaceOf(s, u)
    ensures |UnderWay(s')| + (if InCall(PlaceOf(s, t)) then 1 else 0) ==
            |UnderWay(s)| + if InCall(PlaceOf(s', t)) then 1 else 0
  {
    forall u ensures u in UnderWay(s) <==> InCall(PlaceOf(s, u)) {}
    forall u ensures u in UnderWay(s') <==> InCall(PlaceOf(s', u)) {}
    OneChanges(UnderWay(s), UnderWay(s'), t);
  }

  lemma OneChanges(a: set<Thread>, b: set<Thread>, t: Thread)
    requires forall u :: u != t ==> (u in a <==> u in b)
    ensures |b| + (if t in a then 1 else 0) == |a| + if t in b then 1 else 0
  {
    var rest := a - {t};
    assert rest == b - {t};
    if t in a { assert a == rest + {t}; } else { assert a == rest; }
    if t in b { assert b == rest + {t}; } else { assert b == rest; }
  }

  lemma CallBeginsOrEnds(s: State, step: Step, s': State)
    requires Next(s, step) == Some(s')
    ensures forall u :: u != step.t ==> PlaceOf(s', u) == PlaceOf(s, u)
    ensures |s'.returned| - |s.returned| + (if step.Synthesize? && step.result.None? then 1 else 0) ==
            if InCall(PlaceOf(s, step.t)) && !InCall(PlaceOf(s', step.t)) then 1 else 0
    ensures step.Call? <==> !InCall(PlaceOf(s, step.t)) && InCall(PlaceOf(s', step.t))
  {
  }

  /** In every interleaving each call is under way, has returned a handle, or got the worker's error. */
  lemma {:induction false} CallsAreAnswered(steps: seq<Step>)
    requires After(steps).Some?
    ensures Counted(steps, true) ==
            |After(steps).value.returned| + Counted(steps, false) + |UnderWay(After(steps).value)|
  {
    if steps == [] {
      assert UnderWay(INIT) == {};
    } else {
      var front := steps[..|steps| - 1];
      CallsAreAnswered(front);
      CallBeginsOrEnds(After(front).value, steps[|steps| - 1], After(steps).value);
      UnderWayChange(After(front).value, After(steps).value, steps[|steps| - 1].t);
    }
  }

  /** The text of the thread's last call. */
  function LastCall(steps: seq<Step>, t: Thread): Option<string> {
    if steps == [] then None
    else
      var last := steps[|steps| - 1];
      if last.Call? && last.t == t then Some(last.sql) else LastCall(steps[..|steps| - 1], t)
  }

  lemma {:induction false} AskedFor(steps: seq<Step>, t: Thread)
    requires After(steps).Some? && InCall(PlaceOf(After(steps).value, t))
    ensures LastCall(steps, t) == Some(PlaceOf(After(steps).value, t).sql)
  {
    if steps != [] {
      var front, step := steps[..|steps| - 1], steps[|steps| - 1];
      SamePlace(After(front).value, step, After(steps).value, t);
      if InCall(PlaceOf(After(front).value, t)) { AskedFor(front, t); }
    }
  }

  /** A thread under way keeps its text. */
  lemma SamePlace(s: State, step: Step, s': State, t: Thread)
    requires Next(s, step) == Some(s') && InCall(PlaceOf(s', t))
    ensures if step.Call? && step.t == t then PlaceOf(s', t).sql == step.sql
            else InCall(PlaceOf(s, t)) && PlaceOf(s', t).sql == PlaceOf(s, t).sql
  {
  }

  /** A handle is returned for the text its thread asked for; the call is over then. */
  lemma AnswersTheCall(steps: seq<Step>, step: Step)
    requires After(steps + [step]).Some?
    ensures After(steps).Some?
    ensures var s, s' := After(steps).value, After(steps + [step]).value;
            s'.returned == s.returned ||
            (|s'.returned| == |s.returned| + 1 && s'.returned[..|s.returned|] == s.returned &&
             Some(s'.returned[|s.returned|].sql) == LastCall(steps, step.t) && PlaceOf(s', step.t).Idle?)
  {
    assert (steps + [step])[..|steps|] == steps;
    if InCall(PlaceOf(After(steps).value, step.t)) { AskedFor(steps, step.t); }
  }

  /** Step `i` is the worker's answer, a view for this text. */
  ghost predicate Built(steps: seq<Step>, i: nat, e: Pair) {
    && i < |steps| && steps[i].Synthesize? && steps[i].result == Some(e.handle) && After(steps[..i]).Some?
    && PlaceOf(After(steps[..i]).value, steps[i].t) == Synthesizing(e.sql)
  }

  /** The handles in use are those the worker gave, each for its text. */
  lemma {:induction false} MadeByWorker(steps: seq<Step>, e: Pair)
    requires After(steps).Some?
    ensures e in After(steps).value.made <==> exists i: nat :: Built(steps, i, e)
  {
    if steps != [] {
      var n := |steps| - 1;
      var front, step := steps[..n], steps[n];
      MadeByWorker(front, e);
      forall i: nat | i < n ensures Built(steps, i, e) <==> Built(front, i, e) {
        assert front[..i] == steps[..i];
      }
      assert e in After(steps).value.made <==> e in After(front).value.made || Built(steps, n, e);
      if i: nat :| Built(front, i, e) { assert Built(steps, i, e); }
      if i: nat :| Built(steps, i, e) && i != n { assert Built(front, i, e); }
    }
  }
}
