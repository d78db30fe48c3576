/**
 A batch applied concurrently (`apply_batch`): `asyncio.gather` runs its deploys in any interleaving
 with each other and with every other apply that wants the same hosts' locks.
 */
module BatchRuns {
  import opened Prelude
  import opened Lists
  import opened Uuids
  import opened Intent
  import opened Executor
  import L = SetLocks

  datatype Batch = Batch(world: World, fallback: Option<string>, states: seq<DesiredState>)

  /** Where a deploy stands: not begun, failed before dialling, or a task at its host's lock. */
  datatype Progress = Unstarted | Blocked(error: string) | Queued(task: nat)

  datatype State = State(locks: L.State, progress: seq<Progress>)

  /** A deploy of the batch begins, or the locks take a step, be it of the batch or of another apply. */
  datatype Event = Launch(deploy: nat) | Lock(step: L.Event)

  function Start(b: Batch, locks: L.State): State { State(locks, seq(|b.states|, _ => Unstarted)) }

  function ObstacleTo(b: Batch, k: nat): Option<string>
    requires k < |b.states|
  {
    Obstacle(b.world, b.fallback, b.states[k])
  }

  function HostOf(b: Batch, k: nat): string
    requires k < |b.states| && ObstacleTo(b, k).None?
  {
    DialHost(b.states[k].device, b.fallback).value
  }

  function OutcomeOf(b: Batch, k: nat): Option<string>
    requires k < |b.states|
  {
    b.world.setError(b.states[k].device.id)
  }

  /** One step; an event that is not enabled changes nothing. */
  function Next(b: Batch, s: State, e: Event): State
  {
    match e
    case Launch(k) =>
      if k < |b.states| && k < |s.progress| && s.progress[k].Unstarted? then
        if ObstacleTo(b, k).Some? then s.(progress := s.progress[k := Blocked(ObstacleTo(b, k).value)])
        else State(L.Next(s.locks, L.Arrive(HostOf(b, k))), s.progress[k := Queued(|s.locks.tasks|)])
      else s
    case Lock(step) => s.(locks := L.Next(s.locks, step))
  }

  function After(b: Batch, s: State, events: seq<Event>): State
    decreases events
  {
    if events == [] then s else After(b, Next(b, s, events[0]), events[1..])
  }

  /** A SET of the batch ends as the world says for its device; those of other applies end anyhow. */
  predicate Truthful(b: Batch, s: State, e: Event)
  {
    e.Lock? && e.step.End? ==>
      forall k :: 0 <= k < |s.progress| && k < |b.states| && s.progress[k] == Queued(e.step.task) ==> e.step.error == OutcomeOf(b, k)
  }

  predicate TruthfulRun(b: Batch, s: State, events: seq<Event>)
    decreases events
  {
    events == [] || (Truthful(b, s, events[0]) && TruthfulRun(b, Next(b, s, events[0]), events[1..]))
  }

  // ---- The invariant ----

  /** A queued deploy's task is for its own host, and ends as its own device does. */
  predicate GoodProgress(b: Batch, locks: L.State, k: nat, p: Progress)
    requires k < |b.states|
  {
    match p
    case Unstarted => true
    case Blocked(error) => ObstacleTo(b, k) == Some(error)
    case Queued(t) =>
      && ObstacleTo(b, k).None? && t < |locks.tasks| && locks.tasks[t].host == HostOf(b, k)
      && (locks.tasks[t].phase.Finished? ==> locks.tasks[t].phase.error == OutcomeOf(b, k))
  }

  predicate Inv(b: Batch, s: State)
  {
    && L.Inv(s.locks) && |s.progress| == |b.states|
    && (forall k :: 0 <= k < |s.progress| ==> GoodProgress(b, s.locks, k, s.progress[k]))
    && (forall j, k :: 0 <= j < k < |s.progress| && s.progress[j].Queued? ==> s.progress[j] != s.progress[k])
  }

  lemma ProgressStays(b: Batch, s: L.State, e: L.Event, k: nat, p: Progress)
    requires L.Inv(s) && k < |b.states| && GoodProgress(b, s, k, p)
    requires e.End? && p == Queued(e.task) ==> e.error == OutcomeOf(b, k)
    ensures GoodProgress(b, L.Next(s, e), k, p)
  {
    if p.Queued? { L.OutcomeIsOwn(s, e, p.task); }
  }

  lemma LockKeeps(b: Batch, s: State, step: L.Event)
    requires Inv(b, s) && Truthful(b, s, Lock(step))
    ensures Inv(b, Next(b, s, Lock(step)))
  {
    L.NextKeeps(s.locks, step);
    forall k | 0 <= k < |s.progress| ensures GoodProgress(b, L.Next(s.locks, step), k, s.progress[k]) {
      ProgressStays(b, s.locks, step, k, s.progress[k]);
    }
  }

  lemma LaunchKeeps(b: Batch, s: State, n: nat)
    requires Inv(b, s)
    ensures Inv(b, Next(b, s, Launch(n)))
  {
    if n < |b.states| && s.progress[n].Unstarted? && ObstacleTo(b, n).None? {
      var t, arrive := Next(b, s, Launch(n)), L.Arrive(HostOf(b, n));
      L.NextKeeps(s.locks, arrive);
      forall k | 0 <= k < |t.progress| ensures GoodProgress(b, t.locks, k, t.progress[k]) {
        if k != n { ProgressStays(b, s.locks, arrive, k, s.progress[k]); }
      }
    }
  }

  lemma {:induction false} RunKeeps(b: Batch, s: State, events: seq<Event>)
    requires Inv(b, s) && TruthfulRun(b, s, events)
    ensures Inv(b, After(b, s, events))
    decreases events
  {
    if events != [] {
      if events[0].Lock? {
        LockKeeps(b, s, events[0].step);
      } else {
        LaunchKeeps(b, s, events[0].deploy);
      }
      RunKeeps(b, Next(b, s, events[0]), events[1..]);
    }
  }

  // ---- What a batch returns ----

  predicate Ended(s: State, k: nat)
    requires k < |s.progress|
  {
    match s.progress[k]
    case Unstarted => false
    case Blocked(_) => true
    case Queued(t) => t < |s.locks.tasks| && s.locks.tasks[t].phase.Finished?
  }

  /** The result an ended deploy returns. */
  function ResultOf(b: Batch, s: State, k: nat): ApplyResult
    requires k < |s.progress| && k < |b.states| && Ended(s, k)
  {
    var error := if s.progress[k].Blocked? then Some(s.progress[k].error) else s.locks.tasks[s.progress[k].task].phase.error;
    ApplyResult(b.states[k].device.id, error.None?, error)
  }

  /** `await asyncio.gather(*tasks)`: the results in the batch's order. */
  function Gathered(b: Batch, s: State): seq<ApplyResult>
    requires |s.progress| == |b.states| && forall k :: 0 <= k < |s.progress| ==> Ended(s, k)
  {
    seq(|b.states|, k requires 0 <= k < |b.states| => ResultOf(b, s, k))
  }

  /** In every interleaving a deploy that has ended returns its own device's result. */
  lemma EndsAsItsDevice(b: Batch, locks: L.State, events: seq<Event>, k: nat)
    requires L.Inv(locks) && TruthfulRun(b, Start(b, locks), events) && k < |b.states|
    ensures var end := After(b, Start(b, locks), events);
            |end.progress| == |b.states| && (Ended(end, k) ==> ResultOf(b, end, k) == ResultFor(b.world, b.fallback, b.states[k]))
  {
    RunKeeps(b, Start(b, locks), events);
    var end := After(b, Start(b, locks), events);
    assert GoodProgress(b, end.locks, k, end.progress[k]);
  }

  /**
   However the deploys of a batch interleave, with each other and with other applies, once all have
   ended the batch returns what it would have returned one device at a time.
   */
  lemma OrderIrrelevant(b: Batch, locks: L.State, events: seq<Event>)
    requires L.Inv(locks) && TruthfulRun(b, Start(b, locks), events)
    ensures var end := After(b, Start(b, locks), events);
            |end.progress| == |b.states|
            && ((forall k :: 0 <= k < |end.progress| ==> Ended(end, k)) ==>
                  Gathered(b, end) == Map(Deployer(b.world, b.fallback), b.states))
  {
    RunKeeps(b, Start(b, locks), events);
    var end := After(b, Start(b, locks), events);
    if forall k :: 0 <= k < |end.progress| ==> Ended(end, k) {
      var gathered, mapped := Gathered(b, end), Map(Deployer(b.world, b.fallback), b.states);
      forall k | 0 <= k < |gathered| ensures gathered[k] == mapped[k] {
        EndsAsItsDevice(b, locks, events, k);
        assert mapped[k] == Deployer(b.world, b.fallback)(b.states[k]);
      }
    }
  }

  /**
   A failing device stops no other: in two worlds that treat one device alike, its deploy returns
   the same result in any two interleavings in which it ends, whatever happens to the rest.
   */
  lemma FailureIsAlone(b: Batch, w: World, locks: L.State, es: seq<Event>, others: L.State, fs: seq<Event>, k: nat)
    requires L.Inv(locks) && TruthfulRun(b, Start(b, locks), es) && k < |b.states|
    requires L.Inv(others) && TruthfulRun(b.(world := w), Start(b, others), fs)
    requires w.templates(b.states[k].device.id) == b.world.templates(b.states[k].device.id)
    requires w.setError(b.states[k].device.id) == b.world.setError(b.states[k].device.id)
    ensures var c := b.(world := w); var x, y := After(b, Start(b, locks), es), After(c, Start(c, others), fs);
            |x.progress| == |y.progress| == |b.states| && (Ended(x, k) && Ended(y, k) ==> ResultOf(b, x, k) == ResultOf(c, y, k))
  {
    var c := b.(world := w);
    EndsAsItsDevice(b, locks, es, k);
    EndsAsItsDevice(c, others, fs, k);
    OwnResult(b.world, w, b.fallback, b.states[k]);
  }

  predicate SameEvent(e: Event, f: Event)
  {
    if e.Lock? && f.Lock? then L.SameStep(e.step, f.step) else e == f
  }

  predicate SameProgress(s: State, t: State) { s.progress == t.progress && L.Alike(s.locks, t.locks) }

  predicate SameTemplates(b: Batch, w: World)
  {
    forall k :: 0 <= k < |b.states| ==> w.templates(b.states[k].device.id) == b.world.templates(b.states[k].device.id)
  }

  lemma SameObstacle(b: Batch, w: World, k: nat)
    requires SameTemplates(b, w) && k < |b.states|
    ensures ObstacleTo(b.(world := w), k) == ObstacleTo(b, k)
  {
  }

  lemma StepSame(b: Batch, w: World, s: State, t: State, e: Event, f: Event)
    requires SameTemplates(b, w) && SameProgress(s, t) && SameEvent(e, f)
    ensures SameProgress(Next(b, s, e), Next(b.(world := w), t, f))
  {
    if e.Lock? {
      L.StepAlike(s.locks, t.locks, e.step, f.step);
    } else if e.deploy < |b.states| {
      SameObstacle(b, w, e.deploy);
      if ObstacleTo(b, e.deploy).None? {
        var arrive := L.Arrive(HostOf(b, e.deploy));
        L.StepAlike(s.locks, t.locks, arrive, arrive);
      }
    }
  }

  /**
   Nor does it delay any: whatever the SETs raise, the same steps are open to everyone, and after
   them the same deploys have ended.
   */
  lemma {:induction false} FailureDelaysNobody(b: Batch, w: World, s: State, t: State, es: seq<Event>, fs: seq<Event>)
    requires SameTemplates(b, w) && SameProgress(s, t) && |es| == |fs|
    requires forall i :: 0 <= i < |es| ==> SameEvent(es[i], fs[i])
    ensures var x, y := After(b, s, es), After(b.(world := w), t, fs);
            x.progress == y.progress && forall k :: 0 <= k < |x.progress| ==> (Ended(x, k) <==> Ended(y, k))
    decreases es
  {
    if es != [] {
      StepSame(b, w, s, t, es[0], fs[0]);
      FailureDelaysNobody(b, w, Next(b, s, es[0]), Next(b.(world := w), t, fs[0]), es[1..], fs[1..]);
    }
  }

  // ---- How a batch uses the locks ----

  /** The steps a run makes the locks take. */
  function LockSteps(b: Batch, s: State, events: seq<Event>): seq<L.Event>
    decreases events
  {
    if events == [] then []
    else
      var e, rest := events[0], LockSteps(b, Next(b, s, events[0]), events[1..]);
      if e.Lock? then [e.step] + rest
      else if e.deploy < |b.states| && e.deploy < |s.progress| && s.progress[e.deploy].Unstarted? && ObstacleTo(b, e.deploy).None?
      then [L.Arrive(HostOf(b, e.deploy))] + rest
      else rest
  }

  lemma {:induction false} LocksFollow(b: Batch, s: State, events: seq<Event>)
    ensures After(b, s, events).locks == L.After(s.locks, LockSteps(b, s, events))
    decreases events
  {
    if events != [] {
      var rest := LockSteps(b, Next(b, s, events[0]), events[1..]);
      LocksFollow(b, Next(b, s, events[0]), events[1..]);
      assert LockSteps(b, s, events) == rest || LockSteps(b, s, events)[1..] == rest;
    }
  }

  /** Two devices of a batch behind one host are set one after the other; so are those of other applies. */
  lemma BatchSetsInTurn(b: Batch, events: seq<Event>, j: nat, k: nat)
    requires TruthfulRun(b, Start(b, L.IDLE), events) && L.LetsSetsEnd(L.IDLE, LockSteps(b, Start(b, L.IDLE), events))
    requires j < k < |b.states|
    ensures var end := After(b, Start(b, L.IDLE), events);
            |end.progress| == |b.states|
            && (end.progress[j].Queued? && end.progress[k].Queued? ==>
                  var t, u := end.progress[j].task, end.progress[k].task;
                  && t != u && t < |end.locks.tasks| && u < |end.locks.tasks|
                  && ObstacleTo(b, j).None? && ObstacleTo(b, k).None?
                  && (HostOf(b, j) == HostOf(b, k) ==> !(end.locks.tasks[t].sending && end.locks.tasks[u].sending)))
  {
    var s := Start(b, L.IDLE);
    RunKeeps(b, s, events);
    LocksFollow(b, s, events);
    L.OneSetPerHost(LockSteps(b, s, events));
    var end := After(b, s, events);
    assert GoodProgress(b, end.locks, j, end.progress[j]) && GoodProgress(b, end.locks, k, end.progress[k]);
  }
}
