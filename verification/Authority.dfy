/** Leader election under one mutex and one condition variable, as steps of any number of threads.
    A step is what a thread does between taking the lock and giving it up or going to sleep. */
module Authority {
  import opened Values

  const CONTROLLER_KEY := "/controller"

  type Thread = nat
  type Payload = seq<Byte>

  /** What a thread waits for. `timely`: when it asked, the epoch was not ahead of the current one, or there was
      no leader. */
  datatype Wait = Leader | NewEpoch(epoch: int, timely: bool)

  datatype Answer = Answer(wait: Wait, result: Option<(int, Payload)>)

  /** `parked` threads sleep on the condition variable, `woken` ones are about to take the lock again.
      `elections` and `answers` record the epochs won and what the blocking calls returned. */
  datatype State = State(
    keys: map<string, Payload>, epoch: int, poisoned: bool, parked: map<Thread, Wait>, woken: map<Thread, Wait>,
    elections: seq<int>, answers: seq<Answer>)

  datatype Step =
    | BecomeLeader(payload: Payload)
    | Surrender
    | GetLeader(t: Thread)
    | AwaitNewEpoch(t: Thread, epoch: int)
    | Recheck(t: Thread)       // a woken thread has the lock again
    | SpuriousWake(t: Thread)
    | TryGetLeader
    | TryRead(path: string)
    | ReadModifyWrite(path: string, result: Option<Payload>)  // `None`: the callback reports an error
    | CallbackPanics           // inside `read_modify_write`, so with the lock held

  const INIT := State(map[], 0, false, map[], map[], [], [])

  predicate HasLeader(s: State) {
    CONTROLLER_KEY in s.keys
  }

  /** The condition of the wait loop. */
  predicate MustWait(s: State, w: Wait) {
    match w
    case Leader => !HasLeader(s)
    case NewEpoch(e, _) => s.epoch == e && HasLeader(s)
  }

  function NotifyAll(s: State): State {
    s.(parked := map[], woken := s.woken + s.parked)
  }

  predicate Timely(s: State, e: int) {
    e <= s.epoch || !HasLeader(s)
  }

  /** The wait loop with the lock held: sleep, or return what is there. */
  function Loop(s: State, t: Thread, w: Wait): State {
    if MustWait(s, w) then s.(parked := s.parked[t := w])
    else
      var result := if HasLeader(s) then Some((s.epoch, s.keys[CONTROLLER_KEY])) else None;
      s.(answers := s.answers + [Answer(w, result)])
  }

  predicate Waiting(s: State, t: Thread) {
    t in s.parked || t in s.woken
  }

  predicate Enabled(s: State, step: Step) {
    match step
    case GetLeader(t) => !Waiting(s, t)
    case AwaitNewEpoch(t, _) => !Waiting(s, t)
    case Recheck(t) => t in s.woken
    case SpuriousWake(t) => t in s.parked
    case _ => true
  }

  /** Once a thread has panicked holding the lock, everyone else panics on taking it. */
  function Next(s: State, step: Step): State
    requires Enabled(s, step)
  {
    match step
    case SpuriousWake(t) => s.(parked := s.parked - {t}, woken := s.woken[t := s.parked[t]])
    case Recheck(t) =>
      var free := s.(woken := s.woken - {t});
      if s.poisoned then free else Loop(free, t, s.woken[t])
    case TryGetLeader => s
    case TryRead(_) => s
    case _ => if s.poisoned then s else Critical(s, step)
  }

  function Critical(s: State, step: Step): State {
    match step
    case BecomeLeader(payload) =>
      if HasLeader(s) then s
      else NotifyAll(s.(keys := s.keys[CONTROLLER_KEY := payload], elections := s.elections + [s.epoch]))
    case Surrender =>
      if HasLeader(s) then NotifyAll(s.(keys := s.keys - {CONTROLLER_KEY}, epoch := s.epoch + 1))
      else s.(poisoned := true)
    case GetLeader(t) => Loop(s, t, Leader)
    case AwaitNewEpoch(t, e) => Loop(s, t, NewEpoch(e, Timely(s, e)))
    case ReadModifyWrite(path, result) => if result.Some? then s.(keys := s.keys[path := result.value]) else s
    case CallbackPanics => s.(poisoned := true)
    case _ => s
  }

  /** Any interleaving; `None` if a step is not enabled. */
  function After(steps: seq<Step>): Option<State> {
    if steps == [] then Some(INIT)
    else
      match After(steps[..|steps| - 1])
      case None => None
      case Some(s) => if Enabled(s, steps[|steps| - 1]) then Some(Next(s, steps[|steps| - 1])) else None
  }

  // ---------------------------------------------------------------------------
  // Invariant
  // ---------------------------------------------------------------------------

  /** Elections are numbered by their epoch, one each, up to the current one. */
  ghost predicate Numbered(s: State) {
    && |s.elections| == s.epoch + (if HasLeader(s) then 1 else 0)
    && forall i :: 0 <= i < |s.elections| ==> s.elections[i] == i
  }

  ghost predicate NoLostWakeup(s: State) {
    forall t :: t in s.parked ==> MustWait(s, s.parked[t])
  }

  predicate Past(s: State, w: Wait) {
    w.NewEpoch? ==> w.timely && w.epoch <= s.epoch
  }

  ghost predicate WaitsPast(s: State) {
    (forall t :: t in s.parked ==> Past(s, s.parked[t])) && (forall t :: t in s.woken ==> Past(s, s.woken[t]))
  }

  /** No leader, or one of a strictly later epoch. */
  predicate Later(a: Answer)
    requires a.wait.NewEpoch?
  {
    a.result.None? || a.result.value.0 > a.wait.epoch
  }

  /** `get_leader` is answered a leader; `await_new_epoch` a later one or none, if and only if asked in time. */
  predicate Sound(a: Answer) {
    (a.wait.Leader? ==> a.result.Some?) && (a.wait.NewEpoch? ==> (Later(a) <==> a.wait.timely))
  }

  ghost predicate AllSound(s: State) {
    forall i :: 0 <= i < |s.answers| ==> Sound(s.answers[i])
  }

  ghost predicate Inv(s: State) {
    Numbered(s) && NoLostWakeup(s) && WaitsPast(s) && AllSound(s)
  }

  /** The step makes a leader appear without an election. */
  predicate Usurps(s: State, step: Step) {
    step.ReadModifyWrite? && !s.poisoned && step.path == CONTROLLER_KEY && step.result.Some? && !HasLeader(s)
  }

  lemma LoopKeeps(s: State, t: Thread, w: Wait)
    requires Inv(s) && (w.NewEpoch? ==> (w.timely <==> Timely(s, w.epoch)))
    ensures Inv(Loop(s, t, w))
  {
  }

  lemma NotifiedKeeps(s: State, s': State)
    requires WaitsPast(s) && s'.parked == s.parked && s'.woken == s.woken && s.epoch <= s'.epoch
    requires Numbered(s') && AllSound(s')
    ensures Inv(NotifyAll(s'))
  {
  }

  lemma CriticalKeeps(s: State, step: Step)
    requires Inv(s) && !Usurps(s, step) && !s.poisoned
    ensures Inv(Critical(s, step))
  {
    match step {
      case BecomeLeader(payload) =>
        if !HasLeader(s) {
          NotifiedKeeps(s, s.(keys := s.keys[CONTROLLER_KEY := payload], elections := s.elections + [s.epoch]));
        }
      case Surrender =>
        if HasLeader(s) {
          NotifiedKeeps(s, s.(keys := s.keys - {CONTROLLER_KEY}, epoch := s.epoch + 1));
        }
      case GetLeader(t) => LoopKeeps(s, t, Leader);
      case AwaitNewEpoch(t, e) => LoopKeeps(s, t, NewEpoch(e, Timely(s, e)));
      case _ =>
    }
  }

  /** Every step but a usurping write keeps the invariant, and a usurping one never does. */
  lemma StepKeeps(s: State, step: Step)
    requires Inv(s) && Enabled(s, step)
    ensures Inv(Next(s, step)) <==> !Usurps(s, step)
  {
    match step {
      case SpuriousWake(t) =>
      case Recheck(t) =>
        var free := s.(woken := s.woken - {t});
        assert Inv(free);
        LoopKeeps(free, t, s.woken[t]);
      case _ =>
        if !s.poisoned && !Usurps(s, step) { CriticalKeeps(s, step); }
    }
  }

  predicate OtherKeysOnly(steps: seq<Step>) {
    forall i :: 0 <= i < |steps| ==> steps[i].ReadModifyWrite? ==> steps[i].path != CONTROLLER_KEY
  }

  lemma {:induction false} RunKeeps(steps: seq<Step>)
    requires After(steps).Some? && OtherKeysOnly(steps)
    ensures Inv(After(steps).value)
  {
    if steps != [] {
      var front, step := steps[..|steps| - 1], steps[|steps| - 1];
      RunKeeps(front);
      assert step.ReadModifyWrite? ==> steps[|steps| - 1].path != CONTROLLER_KEY;
      StepKeeps(After(front).value, step);
    }
  }

  // ---------------------------------------------------------------------------
  // Results
  // ---------------------------------------------------------------------------

  /** In every interleaving the number of successful elections is the epoch, plus one if there is a
      leader; so no two elections share an epoch. */
  lemma OneElectionPerEpoch(steps: seq<Step>, i: nat, j: nat)
    requires After(steps).Some? && OtherKeysOnly(steps)
    ensures var s := After(steps).value;
            && |s.elections| == s.epoch + (if HasLeader(s) then 1 else 0)
            && (i < j < |s.elections| ==> s.elections[i] < s.elections[j])
  {
    RunKeeps(steps);
  }

  /** In every interleaving `await_new_epoch` answers no leader or a strictly later one exactly if, when it was
      called, the epoch asked about was not ahead of the current one or there was no leader. */
  lemma AwaitedEpochIsLater(steps: seq<Step>, i: nat)
    requires After(steps).Some? && OtherKeysOnly(steps) && i < |After(steps).value.answers|
    ensures var a := After(steps).value.answers[i];
            && (a.wait.NewEpoch? ==> (a.result.None? || a.result.value.0 > a.wait.epoch <==> a.wait.timely))
            && (a.wait.Leader? ==> a.result.Some?)
  {
    RunKeeps(steps);
    assert Sound(After(steps).value.answers[i]);
  }

  /** Step `i` of the run is the election that won epoch `e` for this payload. */
  ghost predicate Won(steps: seq<Step>, i: nat, e: int, payload: Payload) {
    && i < |steps| && steps[i] == BecomeLeader(payload) && After(steps[..i]).Some?
    && var s := After(steps[..i]).value; !s.poisoned && !HasLeader(s) && s.epoch == e
  }

  ghost predicate Elected(steps: seq<Step>, e: int, payload: Payload) {
    exists i: nat :: Won(steps, i, e, payload)
  }

  lemma ElectedBefore(front: seq<Step>, step: Step, e: int, payload: Payload)
    requires Elected(front, e, payload)
    ensures Elected(front + [step], e, payload)
  {
    var i: nat :| Won(front, i, e, payload);
    assert (front + [step])[..i] == front[..i];
    assert Won(front + [step], i, e, payload);
  }

  ghost predicate LeaderElected(steps: seq<Step>, s: State) {
    HasLeader(s) ==> Elected(steps, s.epoch, s.keys[CONTROLLER_KEY])
  }

  ghost predicate AnswersElected(steps: seq<Step>, s: State) {
    forall i :: 0 <= i < |s.answers| && s.answers[i].result.Some? ==>
      Elected(steps, s.answers[i].result.value.0, s.answers[i].result.value.1)
  }

  lemma ElectedNext(front: seq<Step>, step: Step, s: State)
    requires After(front) == Some(s) && Enabled(s, step) && (step.ReadModifyWrite? ==> step.path != CONTROLLER_KEY)
    requires LeaderElected(front, s) && AnswersElected(front, s)
    ensures LeaderElected(front + [step], Next(s, step)) && AnswersElected(front + [step], Next(s, step))
  {
    var steps, s' := front + [step], Next(s, step);
    forall i | 0 <= i < |s.answers| && s.answers[i].result.Some?
      ensures Elected(steps, s.answers[i].result.value.0, s.answers[i].result.value.1)
    {
      ElectedBefore(front, step, s.answers[i].result.value.0, s.answers[i].result.value.1);
    }
    if HasLeader(s) { ElectedBefore(front, step, s.epoch, s.keys[CONTROLLER_KEY]); }
    if step.BecomeLeader? && !s.poisoned && !HasLeader(s) {
      assert steps[..|front|] == front;
      assert Won(steps, |front|, s.epoch, step.payload);
    }
  }

  /** In every interleaving a leader that is answered, with its epoch and payload, is one that was elected: some
      thread's `become_leader` won that epoch with that payload. And so is the current one. */
  lemma {:induction false} AnswersAreElected(steps: seq<Step>)
    requires After(steps).Some? && OtherKeysOnly(steps)
    ensures LeaderElected(steps, After(steps).value) && AnswersElected(steps, After(steps).value)
  {
    if steps != [] {
      var front, step := steps[..|steps| - 1], steps[|steps| - 1];
      AnswersAreElected(front);
      assert step.ReadModifyWrite? ==> steps[|steps| - 1].path != CONTROLLER_KEY;
      assert steps == front + [step];
      ElectedNext(front, step, After(front).value);
    }
  }

  /** A sleeping thread always has reason to sleep. */
  lemma {:induction false} WakeupsAreNotLost(steps: seq<Step>, t: Thread)
    requires After(steps).Some? && OtherKeysOnly(steps) && t in After(steps).value.parked
    ensures MustWait(After(steps).value, After(steps).value.parked[t])
  {
    RunKeeps(steps);
  }

  /** Writing the controller key from outside: a thread waiting for a leader sleeps on although there is one. */
  lemma UsurperIsNotAnnounced(payload: Payload)
    ensures var steps := [GetLeader(0), ReadModifyWrite(CONTROLLER_KEY, Some(payload))];
            After(steps).Some? && 0 in After(steps).value.parked && !MustWait(After(steps).value, Leader)
            && HasLeader(After(steps).value) && |After(steps).value.elections| == 0
  {
    var steps := [GetLeader(0), ReadModifyWrite(CONTROLLER_KEY, Some(payload))];
    assert steps[..1] == [GetLeader(0)] && [GetLeader(0)][..0] == [];
    var s := INIT.(parked := map[0 := Leader]);
    assert After(steps[..1]) == Some(s);
    assert After(steps) == Some(s.(keys := map[CONTROLLER_KEY := payload]));
  }

  /** With a leader, asked about an epoch that is still to come, `await_new_epoch` answers the current one. */
  lemma FutureEpochAnsweredEarlier(payload: Payload, e: int)
    requires e > 0
    ensures var steps := [BecomeLeader(payload), AwaitNewEpoch(0, e)];
            After(steps).Some? && After(steps).value.answers == [Answer(NewEpoch(e, false), Some((0, payload)))]
  {
    var steps := [BecomeLeader(payload), AwaitNewEpoch(0, e)];
    assert steps[..1] == [BecomeLeader(payload)] && [BecomeLeader(payload)][..0] == [];
    var s := INIT.(keys := map[CONTROLLER_KEY := payload], elections := [0]);
    assert INIT.woken + INIT.parked == map[] && INIT.elections + [0] == [0];
    assert Critical(INIT, BecomeLeader(payload)) == s;
    assert After(steps[..1]) == Some(s);
    assert !Timely(s, e);
  }

  // ---------------------------------------------------------------------------
  // The calls that do not block
  // ---------------------------------------------------------------------------

  class LocalAuthority {
    var keys: map<string, Payload>
    var epoch: int
    var poisoned: bool
    var parked: map<Thread, Wait>
    var woken: map<Thread, Wait>
    ghost var elections: seq<int>
    ghost var answers: seq<Answer>

    ghost function View(): State
      reads this
    {
      State(keys, epoch, poisoned, parked, woken, elections, answers)
    }

    constructor ()
      ensures View() == INIT && Inv(View())
    {
      keys, epoch, poisoned, parked, woken := map[], 0, false, map[], map[];
      elections, answers := [], [];
    }

    method NotifyWaiters()
      modifies `parked, `woken
      ensures View() == NotifyAll(old(View()))
    {
      woken := woken + parked;
      parked := map[];
    }

    /** `None`: there is a leader already, or the lock is poisoned. */
    method BecomeLeader(payload: Payload) returns (won: Option<int>)
      requires Inv(View())
      modifies this
      ensures View() == Next(old(View()), Step.BecomeLeader(payload)) && Inv(View())
      ensures won.Some? <==> !poisoned && !HasLeader(old(View()))
      ensures won.Some? ==> elections == old(elections) + [won.value] && won.value !in old(elections)
    {
      StepKeeps(View(), Step.BecomeLeader(payload));
      if poisoned || CONTROLLER_KEY in keys {
        return None;
      }
      keys := keys[CONTROLLER_KEY := payload];
      elections := elections + [epoch];
      NotifyWaiters();
      won := Some(epoch);
    }

    /** Panics without a leader, and the panic poisons the lock. */
    method SurrenderLeadership() returns (ok: bool)
      requires Inv(View())
      modifies this
      ensures View() == Next(old(View()), Step.Surrender) && Inv(View())
      ensures ok <==> !old(poisoned) && HasLeader(old(View()))
    {
      StepKeeps(View(), Step.Surrender);
      if poisoned {
        return false;
      }
      if CONTROLLER_KEY !in keys {
        poisoned := true;
        return false;
      }
      keys := keys - {CONTROLLER_KEY};
      epoch := epoch + 1;
      NotifyWaiters();
      ok := true;
    }
  }
}
