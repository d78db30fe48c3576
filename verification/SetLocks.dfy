/**
 Per-host serialisation of SETs (gnmi/executor.py, `_set_locks`), over all interleavings of batch
 and single applies.

 A lock is an `asyncio.Lock`: a free lock nobody waits for is taken at once, everyone else queues
 in order, and a released lock goes to the head of the queue. The SET itself runs in a thread,
 which a cancelled task leaves running.
 */
module SetLocks {
  import opened Prelude
  import opened Dicts

  /** `error`: what the SET raised, if anything. */
  datatype Phase = Waiting | Setting | Finished(error: Option<string>) | Cancelled

  /** `sending`: the task's SET is in flight. */
  datatype Task = Task(host: string, phase: Phase, sending: bool)

  datatype Lock = Lock(holder: Option<nat>, waiters: seq<nat>)

  datatype State = State(tasks: seq<Task>, locks: map<string, Lock>)

  datatype Event = Arrive(host: string) | Grant(host: string) | End(task: nat, error: Option<string>) | Cancel(task: nat)

  /** `setdefault(host, Lock())`. */
  function LockOf(s: State, host: string): Lock
  {
    if host in s.locks then s.locks[host] else Lock(None, [])
  }

  function Without(ws: seq<nat>, t: nat): seq<nat>
  {
    if ws == [] then [] else if ws[0] == t then ws[1..] else [ws[0]] + Without(ws[1..], t)
  }

  function Update(s: State, t: nat, task: Task, lock: Lock): State
    requires t < |s.tasks|
  {
    State(s.tasks[t := task], s.locks[task.host := lock])
  }

  predicate Is(s: State, t: nat, phase: Phase) { t < |s.tasks| && s.tasks[t].phase == phase }

  /** One step; an event that is not enabled changes nothing. */
  function Next(s: State, e: Event): State
  {
    match e
    case Arrive(host) =>
      var lock, t := LockOf(s, host), |s.tasks|;
      if lock.holder.None? && lock.waiters == []
      then State(s.tasks + [Task(host, Setting, true)], s.locks[host := Lock(Some(t), [])])
      else State(s.tasks + [Task(host, Waiting, false)], s.locks[host := lock.(waiters := lock.waiters + [t])])
    case Grant(host) =>
      var lock := LockOf(s, host);
      if lock.holder.None? && lock.waiters != [] && lock.waiters[0] < |s.tasks| && s.tasks[lock.waiters[0]].host == host
      then Update(s, lock.waiters[0], Task(host, Setting, true), Lock(Some(lock.waiters[0]), lock.waiters[1..]))
      else s
    case End(t, error) =>
      if Is(s, t, Setting) then Update(s, t, s.tasks[t].(phase := Finished(error), sending := false), LockOf(s, s.tasks[t].host).(holder := None))
      else if Is(s, t, Cancelled) then s.(tasks := s.tasks[t := s.tasks[t].(sending := false)])
      else s
    case Cancel(t) =>
      if Is(s, t, Waiting) then
        var lock := LockOf(s, s.tasks[t].host);
        Update(s, t, s.tasks[t].(phase := Cancelled), lock.(waiters := Without(lock.waiters, t)))
      else if Is(s, t, Setting) then
        Update(s, t, s.tasks[t].(phase := Cancelled), LockOf(s, s.tasks[t].host).(holder := None))
      else s
  }

  // ---- The invariant ----

  /** A lock is held by a task in its SET and queued for by waiting tasks of its own host. */
  predicate GoodLock(s: State, host: string, lock: Lock)
  {
    && (lock.holder.Some? ==> Is(s, lock.holder.value, Setting) && s.tasks[lock.holder.value].host == host)
    && (forall i :: 0 <= i < |lock.waiters| ==> Is(s, lock.waiters[i], Waiting) && s.tasks[lock.waiters[i]].host == host)
    && NoRepeat(lock.waiters)
  }

  /** A task in its SET is sending and holds its lock; a waiting one queues for it. */
  predicate GoodTask(s: State, t: nat)
    requires t < |s.tasks|
  {
    var task := s.tasks[t];
    && (task.phase == Setting ==> task.sending && LockOf(s, task.host).holder == Some(t))
    && (task.phase == Waiting ==> t in LockOf(s, task.host).waiters)
  }

  predicate Inv(s: State)
  {
    && (forall host :: host in s.locks ==> GoodLock(s, host, s.locks[host]))
    && (forall t :: 0 <= t < |s.tasks| ==> GoodTask(s, t))
  }

  /** No task left its SET behind in flight. */
  predicate Quiet(s: State)
  {
    forall t :: 0 <= t < |s.tasks| && s.tasks[t].sending ==> s.tasks[t].phase == Setting
  }

  /** At most one SET in flight per host. */
  predicate Exclusive(s: State)
  {
    forall i, j :: 0 <= i < j < |s.tasks| && s.tasks[i].sending && s.tasks[j].sending ==> s.tasks[i].host != s.tasks[j].host
  }

  lemma QuietIsExclusive(s: State)
    requires Inv(s) && Quiet(s)
    ensures Exclusive(s)
  {
    forall i, j | 0 <= i < j < |s.tasks| && s.tasks[i].sending && s.tasks[j].sending ensures s.tasks[i].host != s.tasks[j].host {
      assert GoodTask(s, i) && GoodTask(s, j);
    }
  }

  lemma LockIsGood(s: State, host: string)
    requires Inv(s)
    ensures GoodLock(s, host, LockOf(s, host))
  {
  }

  /** A cancellation that hits a task in its SET. */
  predicate CutsSet(s: State, e: Event) { e.Cancel? && Is(s, e.task, Setting) }

  /** A lock untouched by a step stays good if its tasks did. */
  lemma OtherLocksStay(s: State, t: State, host: string, lock: Lock)
    requires GoodLock(s, host, lock) && |s.tasks| <= |t.tasks|
    requires forall i :: 0 <= i < |s.tasks| && s.tasks[i].host == host ==> t.tasks[i] == s.tasks[i]
    ensures GoodLock(t, host, lock)
  {
  }

  /** What a step on one host must show. */
  lemma HostStep(s: State, t: State, host: string)
    requires Inv(s) && |s.tasks| <= |t.tasks| && t.locks == s.locks[host := LockOf(t, host)]
    requires forall i :: 0 <= i < |s.tasks| && s.tasks[i].host != host ==> t.tasks[i] == s.tasks[i]
    requires forall i :: 0 <= i < |t.tasks| && (i >= |s.tasks| || s.tasks[i].host == host) ==> t.tasks[i].host == host && GoodTask(t, i)
    requires GoodLock(t, host, LockOf(t, host))
    ensures Inv(t)
  {
    forall h | h in t.locks ensures GoodLock(t, h, t.locks[h]) {
      if h != host { OtherLocksStay(s, t, h, s.locks[h]); }
    }
    forall i | 0 <= i < |t.tasks| ensures GoodTask(t, i) {
      if i < |s.tasks| && s.tasks[i].host != host { assert GoodTask(s, i); }
    }
  }

  lemma ArriveKeeps(s: State, host: string)
    requires Inv(s)
    ensures Inv(Next(s, Arrive(host)))
  {
    var t, lock, n := Next(s, Arrive(host)), LockOf(s, host), |s.tasks|;
    LockIsGood(s, host);
    forall i | 0 <= i < |t.tasks| && (i >= n || s.tasks[i].host == host) ensures t.tasks[i].host == host && GoodTask(t, i) {
      if i < n { assert GoodTask(s, i); }
    }
    HostStep(s, t, host);
  }

  lemma GrantKeeps(s: State, host: string)
    requires Inv(s)
    ensures Inv(Next(s, Grant(host)))
  {
    var t, lock := Next(s, Grant(host)), LockOf(s, host);
    LockIsGood(s, host);
    if lock.holder.None? && lock.waiters != [] {
      var w := lock.waiters[0];
      assert lock.waiters == [w] + lock.waiters[1..];
      forall i | 0 <= i < |t.tasks| && s.tasks[i].host == host ensures t.tasks[i].host == host && GoodTask(t, i) {
        assert GoodTask(s, i);
      }
      HostStep(s, t, host);
    }
  }

  lemma EndKeeps(s: State, n: nat, error: Option<string>)
    requires Inv(s)
    ensures Inv(Next(s, End(n, error)))
  {
    var t := Next(s, End(n, error));
    if Is(s, n, Setting) {
      var host := s.tasks[n].host;
      LockIsGood(s, host);
      assert GoodTask(s, n);
      forall i | 0 <= i < |t.tasks| && s.tasks[i].host == host ensures t.tasks[i].host == host && GoodTask(t, i) {
        assert GoodTask(s, i);
      }
      HostStep(s, t, host);
    } else if Is(s, n, Cancelled) {
      var host := s.tasks[n].host;
      LockIsGood(s, host);
      forall i | 0 <= i < |t.tasks| ensures GoodTask(t, i) { assert GoodTask(s, i); }
    }
  }

  lemma {:induction false} WithoutIs(ws: seq<nat>, n: nat)
    requires NoRepeat(ws)
    ensures NoRepeat(Without(ws, n)) && forall x :: x in Without(ws, n) <==> x in ws && x != n
  {
    if ws != [] {
      WithoutIs(ws[1..], n);
      assert ws == [ws[0]] + ws[1..];
      var rest := Without(ws[1..], n);
      assert ws[0] !in ws[1..];
      forall i | 0 <= i < |rest| ensures rest[i] != ws[0] { assert rest[i] in rest; }
      if ws[0] != n { assert forall x :: x in Without(ws, n) <==> x == ws[0] || x in rest; }
    }
  }

  lemma WithdrawKeeps(s: State, n: nat)
    requires Inv(s) && Is(s, n, Waiting)
    ensures Inv(Next(s, Cancel(n)))
  {
    var t, host := Next(s, Cancel(n)), s.tasks[n].host;
    var lock := LockOf(s, host);
    LockIsGood(s, host);
    WithoutIs(lock.waiters, n);
    assert GoodTask(s, n);
    var left := Without(lock.waiters, n);
    forall i | 0 <= i < |left| ensures Is(t, left[i], Waiting) && t.tasks[left[i]].host == host {
      assert left[i] in left && left[i] in lock.waiters;
    }
    forall i | 0 <= i < |t.tasks| && s.tasks[i].host == host ensures t.tasks[i].host == host && GoodTask(t, i) {
      assert GoodTask(s, i);
    }
    HostStep(s, t, host);
  }

  lemma CutKeeps(s: State, n: nat)
    requires Inv(s) && Is(s, n, Setting)
    ensures Inv(Next(s, Cancel(n)))
  {
    var t, host := Next(s, Cancel(n)), s.tasks[n].host;
    LockIsGood(s, host);
    assert GoodTask(s, n);
    forall i | 0 <= i < |t.tasks| && s.tasks[i].host == host ensures t.tasks[i].host == host && GoodTask(t, i) {
      assert GoodTask(s, i);
    }
    HostStep(s, t, host);
  }

  lemma NextKeeps(s: State, e: Event)
    requires Inv(s)
    ensures Inv(Next(s, e))
  {
    match e
    case Arrive(host) => ArriveKeeps(s, host);
    case Grant(host) => GrantKeeps(s, host);
    case End(n, error) => EndKeeps(s, n, error);
    case Cancel(n) =>
      if Is(s, n, Waiting) {
        WithdrawKeeps(s, n);
      } else if Is(s, n, Setting) {
        CutKeeps(s, n);
      }
  }

  /** A step leaves a SET behind exactly when it cuts one. */
  lemma CutsExactly(s: State, e: Event)
    requires Inv(s) && Quiet(s)
    ensures Quiet(Next(s, e)) <==> !CutsSet(s, e)
  {
    if CutsSet(s, e) {
      assert GoodTask(s, e.task);
      assert Next(s, e).tasks[e.task].sending;
    }
  }

  // ---- Mutual exclusion, exactly ----

  function After(s: State, events: seq<Event>): State
    decreases events
  {
    if events == [] then s else After(Next(s, events[0]), events[1..])
  }

  /** No task of the run is cancelled while its SET is in flight. */
  predicate LetsSetsEnd(s: State, events: seq<Event>)
    decreases events
  {
    events == [] || (!CutsSet(s, events[0]) && LetsSetsEnd(Next(s, events[0]), events[1..]))
  }

  const IDLE: State := State([], map[])

  lemma {:induction false} RunKeeps(s: State, events: seq<Event>)
    requires Inv(s)
    ensures Inv(After(s, events))
    decreases events
  {
    if events != [] {
      NextKeeps(s, events[0]);
      RunKeeps(Next(s, events[0]), events[1..]);
    }
  }

  lemma {:induction false} StaysQuiet(s: State, events: seq<Event>)
    requires Inv(s) && Quiet(s) && LetsSetsEnd(s, events)
    ensures Quiet(After(s, events))
    decreases events
  {
    if events != [] {
      NextKeeps(s, events[0]);
      CutsExactly(s, events[0]);
      StaysQuiet(Next(s, events[0]), events[1..]);
    }
  }

  lemma StaysExclusive(s: State, events: seq<Event>)
    requires Inv(s) && Quiet(s) && LetsSetsEnd(s, events)
    ensures Exclusive(After(s, events))
  {
    RunKeeps(s, events);
    StaysQuiet(s, events);
    QuietIsExclusive(After(s, events));
  }

  /** In every interleaving that lets SETs end, at most one SET is in flight per host. */
  lemma OneSetPerHost(events: seq<Event>)
    requires LetsSetsEnd(IDLE, events)
    ensures Exclusive(After(IDLE, events))
  {
    StaysExclusive(IDLE, events);
  }

  /** The task that would next send to a host whose lock is free. */
  function Intruder(s: State, host: string): Event
  {
    if LockOf(s, host).waiters == [] then Arrive(host) else Grant(host)
  }

  /** Beside a SET left behind, its host's free lock lets the next task send. */
  lemma IntruderSends(s: State, n: nat)
    requires Inv(s) && Is(s, n, Cancelled) && s.tasks[n].sending && LockOf(s, s.tasks[n].host).holder.None?
    ensures !Exclusive(Next(s, Intruder(s, s.tasks[n].host)))
  {
    var host := s.tasks[n].host;
    var lock, t := LockOf(s, host), Next(s, Intruder(s, host));
    LockIsGood(s, host);
    if lock.waiters == [] {
      assert t.tasks[n].sending && t.tasks[|s.tasks|].sending && t.tasks[|s.tasks|].host == host;
    } else {
      var w := lock.waiters[0];
      assert Is(s, w, Waiting) && w != n;
      assert t.tasks[n].sending && t.tasks[w].sending && t.tasks[w].host == host;
    }
  }

  /** Cancelling a task in its SET frees the lock under it: the next task then sends beside it. */
  lemma CutSetBreaks(s: State, n: nat)
    requires Inv(s) && Is(s, n, Setting)
    ensures !Exclusive(Next(Next(s, Cancel(n)), Intruder(s, s.tasks[n].host)))
  {
    assert GoodTask(s, n);
    NextKeeps(s, Cancel(n));
    IntruderSends(Next(s, Cancel(n)), n);
  }

  lemma LeftBehindBreaks(s: State, n: nat)
    requires Inv(s) && Is(s, n, Cancelled) && s.tasks[n].sending
    ensures !Exclusive(s) || !Exclusive(Next(s, Intruder(s, s.tasks[n].host)))
  {
    var lock := LockOf(s, s.tasks[n].host);
    LockIsGood(s, s.tasks[n].host);
    if lock.holder.Some? {
      assert GoodTask(s, lock.holder.value);
      assert s.tasks[lock.holder.value].sending && lock.holder.value != n;
    } else {
      IntruderSends(s, n);
    }
  }

  /** Every SET in flight belongs to a task in its SET or cancelled in it. */
  predicate Accounted(s: State)
  {
    forall t :: 0 <= t < |s.tasks| && s.tasks[t].sending ==> s.tasks[t].phase == Setting || s.tasks[t].phase == Cancelled
  }

  lemma {:induction false} RunAccounts(s: State, events: seq<Event>)
    requires Accounted(s)
    ensures Accounted(After(s, events))
    decreases events
  {
    if events != [] { RunAccounts(Next(s, events[0]), events[1..]); }
  }

  lemma OneEvent(s: State, e: Event)
    requires !CutsSet(s, e)
    ensures LetsSetsEnd(s, [e]) && After(s, [e]) == Next(s, e)
  {
    assert [e][0] == e && [e][1..] == [];
  }

  /** A continuation that lets SETs end keeps them exclusive. */
  predicate SafeAlong(s: State, events: seq<Event>) { LetsSetsEnd(s, events) ==> Exclusive(After(s, events)) }

  /** The SETs stay exclusive along every continuation that lets SETs end exactly when none was left behind. */
  lemma QuietExactly(s: State)
    requires Inv(s) && Accounted(s)
    ensures (forall events :: SafeAlong(s, events)) <==> Quiet(s)
  {
    if Quiet(s) {
      forall events ensures SafeAlong(s, events) {
        if LetsSetsEnd(s, events) { StaysExclusive(s, events); }
      }
    } else {
      var n :| 0 <= n < |s.tasks| && s.tasks[n].sending && s.tasks[n].phase != Setting;
      LeftBehindBreaks(s, n);
      var e := Intruder(s, s.tasks[n].host);
      OneEvent(s, e);
      var events := if Exclusive(s) then [e] else [];
      assert !SafeAlong(s, events);
    }
  }

  /** From a state without such a SET, one step keeps it that way exactly when it cuts none. */
  lemma CutBreaksExactly(s: State, e: Event)
    requires Inv(s) && Quiet(s)
    ensures (forall events :: SafeAlong(Next(s, e), events)) <==> !CutsSet(s, e)
  {
    NextKeeps(s, e);
    CutsExactly(s, e);
    RunAccounts(s, [e]);
    assert [e][1..] == [];
    QuietExactly(Next(s, e));
  }

  /** After any run the SETs stay exclusive whatever follows exactly when no SET of a cancelled task is in flight. */
  lemma ExclusiveExactly(events: seq<Event>)
    ensures var s := After(IDLE, events);
            (forall more :: SafeAlong(s, more)) <==>
              forall t :: 0 <= t < |s.tasks| ==> !(s.tasks[t].phase == Cancelled && s.tasks[t].sending)
  {
    var s := After(IDLE, events);
    RunKeeps(IDLE, events);
    RunAccounts(IDLE, events);
    QuietExactly(s);
  }

  // ---- A failing SET stops nobody else ----

  /** A task keeps its host, and its outcome is the one its own SET ended with. */
  lemma OutcomeIsOwn(s: State, e: Event, t: nat)
    requires Inv(s) && t < |s.tasks|
    ensures var next := Next(s, e);
            && |s.tasks| <= |next.tasks| && next.tasks[t].host == s.tasks[t].host
            && (s.tasks[t].phase.Finished? ==> next.tasks[t].phase == s.tasks[t].phase)
            && (next.tasks[t].phase.Finished? && !s.tasks[t].phase.Finished? ==> e == End(t, next.tasks[t].phase.error))
  {
    if e.Grant? { LockIsGood(s, e.host); }
  }

  /** The same step, but for what a SET raised. */
  predicate SameStep(e: Event, f: Event)
  {
    if e.End? then f.End? && e.task == f.task else e == f
  }

  predicate SameTask(a: Task, b: Task)
  {
    a == b || (a.phase.Finished? && b.phase.Finished? && a.host == b.host && a.sending == b.sending)
  }

  /** The same state, but for what finished SETs raised. */
  predicate Alike(s: State, t: State)
  {
    s.locks == t.locks && |s.tasks| == |t.tasks| && forall i :: 0 <= i < |s.tasks| ==> SameTask(s.tasks[i], t.tasks[i])
  }

  lemma StepAlike(s: State, t: State, e: Event, f: Event)
    requires Alike(s, t) && SameStep(e, f)
    ensures Alike(Next(s, e), Next(t, f))
  {
    var a, b := Next(s, e), Next(t, f);
    match e
    case Arrive(host) => assert a.locks == b.locks;
    case Grant(host) => assert a.locks == b.locks;
    case End(n, _) => assert Is(s, n, Setting) == Is(t, n, Setting);
    case Cancel(n) => assert Is(s, n, Setting) == Is(t, n, Setting) && Is(s, n, Waiting) == Is(t, n, Waiting);
  }

  /** Task `n` is the very same in both states, if it is there at all. */
  predicate Agree(s: State, t: State, n: nat) { n < |s.tasks| && n < |t.tasks| ==> s.tasks[n] == t.tasks[n] }

  lemma StepAgrees(s: State, t: State, e: Event, f: Event, n: nat)
    requires Alike(s, t) && SameStep(e, f) && Agree(s, t, n) && (e.End? && e.task == n ==> e == f)
    ensures Agree(Next(s, e), Next(t, f), n)
  {
  }

  /**
   Whatever other SETs raise, a task fares the same: two runs that take the same steps, and in which
   that task's own SET ends alike, agree on the task, on every lock and on who is in which phase.
   */
  lemma {:induction false} OutcomesStayHome(s: State, t: State, es: seq<Event>, fs: seq<Event>, n: nat)
    requires Alike(s, t) && Agree(s, t, n) && |es| == |fs|
    requires forall i :: 0 <= i < |es| ==> SameStep(es[i], fs[i]) && (es[i].End? && es[i].task == n ==> es[i] == fs[i])
    ensures Alike(After(s, es), After(t, fs)) && Agree(After(s, es), After(t, fs), n)
    decreases es
  {
    if es != [] {
      StepAlike(s, t, es[0], fs[0]);
      StepAgrees(s, t, es[0], fs[0], n);
      OutcomesStayHome(Next(s, es[0]), Next(t, fs[0]), es[1..], fs[1..], n);
    }
  }

  // ---- Nobody waits forever ----

  function Position(ws: seq<nat>, n: nat): nat
  {
    if ws == [] || ws[0] == n then 0 else 1 + Position(ws[1..], n)
  }

  /** How many turns are ahead of a waiting task: two for each task queued before it, one for the holder. */
  function Turns(s: State, n: nat): nat
    requires n < |s.tasks|
  {
    var lock := LockOf(s, s.tasks[n].host);
    2 * Position(lock.waiters, n) + if lock.holder.Some? then 1 else 0
  }

  /** What moves a host on: its SET ends, or its free lock goes to the head of the queue. */
  predicate IsTurn(s: State, host: string, e: Event)
  {
    var lock := LockOf(s, host);
    if lock.holder.Some? then e.End? && e.task == lock.holder.value else e == Grant(host)
  }

  lemma {:induction false} PositionBehind(ws: seq<nat>, n: nat, x: nat)
    requires n in ws
    ensures Position(ws + [x], n) == Position(ws, n)
  {
    assert ws == [ws[0]] + ws[1..];
    if ws[0] != n {
      assert (ws + [x])[1..] == ws[1..] + [x];
      PositionBehind(ws[1..], n, x);
    }
  }

  lemma {:induction false} PositionWithout(ws: seq<nat>, n: nat, x: nat)
    requires n in ws && x != n
    ensures Position(Without(ws, x), n) <= Position(ws, n)
  {
    assert ws == [ws[0]] + ws[1..];
    if ws[0] != n && ws[0] != x { PositionWithout(ws[1..], n, x); }
  }

  /** No event puts a waiting task further back: later arrivals queue behind it. */
  lemma NoOvertaking(s: State, e: Event, n: nat)
    requires Inv(s) && Is(s, n, Waiting) && Is(Next(s, e), n, Waiting)
    ensures Next(s, e).tasks[n].host == s.tasks[n].host && Turns(Next(s, e), n) <= Turns(s, n)
  {
    var lock := LockOf(s, s.tasks[n].host);
    assert GoodTask(s, n);
    LockIsGood(s, s.tasks[n].host);
    match e
    case Arrive(host) => PositionBehind(lock.waiters, n, |s.tasks|);
    case Grant(host) =>
      if host == s.tasks[n].host { assert lock.waiters == [lock.waiters[0]] + lock.waiters[1..]; }
    case End(_, _) =>
    case Cancel(m) =>
      if Is(s, m, Waiting) && m != n { PositionWithout(lock.waiters, n, m); }
  }

  /** A waiting task is never stuck: its host's turn is enabled, and brings the task closer or to its SET. */
  lemma TurnBringsCloser(s: State, e: Event, n: nat)
    requires Inv(s) && Is(s, n, Waiting) && IsTurn(s, s.tasks[n].host, e)
    ensures var t := Next(s, e); t != s && (Is(t, n, Setting) || (Is(t, n, Waiting) && Turns(t, n) < Turns(s, n)))
  {
    var host := s.tasks[n].host;
    var lock := LockOf(s, host);
    assert GoodTask(s, n);
    LockIsGood(s, host);
    if lock.holder.None? { assert lock.waiters == [lock.waiters[0]] + lock.waiters[1..]; }
  }

  /** A waiting task leaves the queue only for its SET or because it is cancelled. */
  lemma LeavesQueue(s: State, e: Event, n: nat)
    requires Inv(s) && Is(s, n, Waiting)
    ensures var t := Next(s, e); Is(t, n, Waiting) || Is(t, n, Setting) || (Is(t, n, Cancelled) && e == Cancel(n))
  {
  }

  /** How often a run takes the host's turn. */
  function TurnsTaken(s: State, events: seq<Event>, host: string): nat
    decreases events
  {
    if events == [] then 0
    else (if IsTurn(s, host, events[0]) then 1 else 0) + TurnsTaken(Next(s, events[0]), events[1..], host)
  }

  /** Where a waiting task ends up: in its SET, or withdrawn by its own cancellation. */
  predicate Served(s: State, events: seq<Event>, n: nat, k: nat)
    requires 0 < k <= |events|
  {
    Is(After(s, events[..k]), n, Setting) || (Is(After(s, events[..k]), n, Cancelled) && events[k - 1] == Cancel(n))
  }

  /**
   No task waits forever: however many tasks arrive meanwhile, once its host has had as many turns
   as were ahead of it and one more, the task has reached its SET or was itself cancelled in the queue.
   */
  lemma {:induction false} ReachesItsSet(s: State, events: seq<Event>, n: nat)
    requires Inv(s) && Is(s, n, Waiting)
    requires TurnsTaken(s, events, s.tasks[n].host) > Turns(s, n)
    ensures exists k :: 0 < k <= |events| && Served(s, events, n, k)
    decreases events
  {
    var e, t := events[0], Next(s, events[0]);
    assert events[..1] == [e] && After(s, [e]) == t;
    NextKeeps(s, e);
    LeavesQueue(s, e, n);
    if Is(t, n, Waiting) {
      NoOvertaking(s, e, n);
      if IsTurn(s, s.tasks[n].host, e) { TurnBringsCloser(s, e, n); }
      ReachesItsSet(t, events[1..], n);
      var k :| 0 < k <= |events[1..]| && Served(t, events[1..], n, k);
      assert events[..k + 1][1..] == events[1..][..k];
      assert Served(s, events, n, k + 1);
    } else {
      assert Served(s, events, n, 1);
    }
  }
}
