/** Threads and ready queues (scheduler.c, thread.c; one processor, 256 priority levels): what the
    scheduler operations do, without the bitmaps that `Scheduler` adds. */
module Ready {
  import opened Lists

  type Tid = int

  const LEVELS := 256

  datatype Stat = Init | Ready | Suspended | Closed

  /** `number` and `high` are the two parts of the priority that index the bitmaps. */
  datatype Thread = Thread(stat: Stat, initPrio: nat, prio: nat, number: nat, high: nat)

  datatype Running = Nobody | Runs(t: Tid)

  /** `nest` is rt_scheduler_lock_nest. */
  datatype State = State(threads: map<Tid, Thread>, queues: seq<seq<Tid>>, current: Running, nest: int)

  // ---- What holds between operations ----------------------------------------------------------------

  /** How often thread `t` should be in the queue of priority `p`. */
  function Expected(s: State, p: nat, t: Tid): nat {
    if t in s.threads && s.threads[t].stat == Ready && s.current != Runs(t) && s.threads[t].prio == p then 1 else 0
  }

  /** Every READY thread but the running one is exactly once in the queue of its priority; nobody
      else is in any queue. */
  ghost predicate Index(s: State) {
    && |s.queues| == LEVELS
    && forall p, t: Tid :: 0 <= p < LEVELS ==> multiset(s.queues[p])[t] == Expected(s, p, t)
  }

  /** The same, except that `x` is in no queue. */
  ghost predicate IndexBut(s: State, x: Tid) {
    && |s.queues| == LEVELS
    && forall p, t: Tid :: 0 <= p < LEVELS ==> multiset(s.queues[p])[t] == if t == x then 0 else Expected(s, p, t)
  }

  predicate Split(th: Thread) {
    th.prio < LEVELS && th.initPrio < LEVELS && (th.stat == Ready || th.stat == Suspended ==> th.number == th.prio / 8 && th.high == th.prio % 8)
  }

  ghost predicate Threads(s: State) {
    && (forall t :: t in s.threads ==> Split(s.threads[t]))
    && (s.current.Runs? ==> s.current.t in s.threads && s.threads[s.current.t].stat != Init)
    && s.nest >= 0
  }

  ghost predicate Inv(s: State) { Index(s) && Threads(s) }

  // ---- Operations -----------------------------------------------------------------------------------

  function SetStat(s: State, t: Tid, st: Stat): State
    requires t in s.threads
  {
    s.(threads := s.threads[t := s.threads[t].(stat := st)])
  }

  /** rt_schedule_insert_thread */
  function Enqueue(s: State, t: Tid): State
    requires t in s.threads && s.threads[t].prio < |s.queues|
  {
    var s1 := SetStat(s, t, Ready);
    if s.current == Runs(t) then s1
    else s1.(queues := s.queues[s.threads[t].prio := s.queues[s.threads[t].prio] + [t]])
  }

  /** rt_schedule_remove_thread */
  function Dequeue(s: State, t: Tid): State
    requires t in s.threads && s.threads[t].prio < |s.queues|
  {
    s.(queues := s.queues[s.threads[t].prio := Without(s.queues[s.threads[t].prio], t)])
  }

  /** The least priority with a queued thread; the number of queues if there is none. */
  function Highest(q: seq<seq<Tid>>): (h: nat)
    ensures h <= |q| && (h < |q| ==> q[h] != []) && forall p :: 0 <= p < h ==> q[p] == []
  {
    if q == [] then 0 else if q[0] != [] then 0 else 1 + Highest(q[1..])
  }

  /** rt_schedule with the scheduler unlocked. */
  function Schedule(s: State): State
    requires s.current.Runs? && s.current.t in s.threads && s.threads[s.current.t].prio < |s.queues|
  {
    var h, c := Highest(s.queues), s.current.t;
    if h == |s.queues| then s
    else
      var ready := s.threads[c].stat == Ready;
      var to := if ready && s.threads[c].prio < h then c else s.queues[h][0];
      if to == c then Dequeue(s, c)
      else
        var s1 := s.(current := Runs(to));
        var s2 := if ready then Enqueue(s1, c) else s1;
        if to in s2.threads && s2.threads[to].prio < |s2.queues| then Dequeue(s2, to) else s2
  }

  function SetPrio(s: State, t: Tid, p: nat): State
    requires t in s.threads
  {
    s.(threads := s.threads[t := s.threads[t].(prio := p, number := p / 8, high := p % 8)])
  }

  /** rt_thread_control with RT_THREAD_CTRL_CHANGE_PRIORITY. */
  function ChangePriority(s: State, t: Tid, p: nat): State
    requires t in s.threads && s.threads[t].prio < |s.queues| && p < |s.queues|
  {
    if s.threads[t].stat == Ready then Enqueue(SetPrio(Dequeue(s, t), t, p), t) else SetPrio(s, t, p)
  }

  // ---- They keep the index ----------------------------------------------------------------------------

  lemma {:induction false} WithoutCount(q: seq<Tid>, t: Tid, u: Tid)
    ensures multiset(Without(q, t))[u] == if u == t then 0 else multiset(q)[u]
  {
    if q != [] {
      WithoutCount(q[1..], t, u);
      assert q == [q[0]] + q[1..];
    }
  }

  lemma DequeueIndex(s: State, t: Tid)
    requires Index(s) && t in s.threads && s.threads[t].prio < LEVELS
    ensures IndexBut(Dequeue(s, t), t)
  {
    var r, q := Dequeue(s, t), s.threads[t].prio;
    forall p, u: Tid | 0 <= p < LEVELS
      ensures multiset(r.queues[p])[u] == if u == t then 0 else Expected(r, p, u)
    {
      WithoutCount(s.queues[q], t, u);
      assert multiset(s.queues[p])[u] == Expected(s, p, u);
    }
  }

  lemma EnqueueIndex(s: State, t: Tid)
    requires IndexBut(s, t) && t in s.threads && s.threads[t].prio < LEVELS
    ensures Index(Enqueue(s, t))
  {
    var r := Enqueue(s, t);
    forall p, u: Tid | 0 <= p < LEVELS ensures multiset(r.queues[p])[u] == Expected(r, p, u) {
      assert multiset(s.queues[p])[u] == if u == t then 0 else Expected(s, p, u);
    }
  }

  /** For a thread that is running or not READY, being in no queue is being where it belongs. */
  lemma OutIsIn(s: State, t: Tid)
    requires s.current == Runs(t) || t !in s.threads || s.threads[t].stat != Ready
    ensures Index(s) <==> IndexBut(s, t)
  {
  }

  /** Changing a thread that is in no queue disturbs nobody. */
  lemma ChangeOut(s: State, t: Tid, th: Thread)
    requires IndexBut(s, t)
    ensures IndexBut(s.(threads := s.threads[t := th]), t)
  {
    var r := s.(threads := s.threads[t := th]);
    forall p, u: Tid | 0 <= p < LEVELS ensures multiset(r.queues[p])[u] == if u == t then 0 else Expected(r, p, u) {
      assert multiset(s.queues[p])[u] == if u == t then 0 else Expected(s, p, u);
    }
  }

  lemma ChangePriorityKeeps(s: State, t: Tid, p: nat)
    requires Inv(s) && t in s.threads && p < LEVELS
    ensures Inv(ChangePriority(s, t, p))
  {
    hide Index; hide IndexBut;
    IndexSize(s);
    if s.threads[t].stat == Ready {
      var s1 := Dequeue(s, t);
      DequeueIndex(s, t);
      ChangeOut(s1, t, s1.threads[t].(prio := p, number := p / 8, high := p % 8));
      EnqueueIndex(SetPrio(s1, t, p), t);
    } else {
      OutIsIn(s, t);
      ChangeOut(s, t, s.threads[t].(prio := p, number := p / 8, high := p % 8));
      OutIsIn(SetPrio(s, t, p), t);
    }
  }

  lemma IndexSize(s: State)
    requires Index(s)
    ensures |s.queues| == LEVELS
  {
  }

  /** Every queued thread is a READY thread of that priority, and not the running one. */
  lemma QueuedIsReady(s: State, p: nat, i: nat)
    requires Index(s) && p < LEVELS && i < |s.queues[p]|
    ensures var t := s.queues[p][i];
            t in s.threads && s.threads[t].stat == Ready && s.threads[t].prio == p && s.current != Runs(t)
  {
    assert multiset(s.queues[p])[s.queues[p][i]] > 0;
  }

  lemma WithoutAppend(q: seq<Tid>, t: Tid, c: Tid)
    requires c != t
    ensures Without(q + [c], t) == Without(q, t) + [c]
  {
    WithoutConcat(q, [c], t);
    WithoutAbsent([c], t);
  }

  lemma SwitchIndex(s: State, to: Tid)
    requires Inv(s) && s.current.Runs? && to != s.current.t && to in s.threads
    ensures var c := s.current.t;
            var b := Dequeue(s, to).(current := Runs(to));
            IndexBut(b, c) && (s.threads[c].stat != Ready ==> Index(b))
  {
    var c, a := s.current.t, Dequeue(s, to);
    var b := a.(current := Runs(to));
    DequeueIndex(s, to);
    forall p, u: Tid | 0 <= p < LEVELS ensures multiset(b.queues[p])[u] == if u == c then 0 else Expected(b, p, u) {
      assert multiset(a.queues[p])[u] == if u == to then 0 else Expected(a, p, u);
    }
    if s.threads[c].stat != Ready { OutIsIn(b, c); }
  }

  lemma ScheduleKeeps(s: State)
    requires Inv(s) && s.current.Runs?
    ensures Inv(Schedule(s))
    ensures Schedule(s).current.Runs?
    ensures forall t :: t in s.threads ==> t in Schedule(s).threads && Schedule(s).threads[t].prio == s.threads[t].prio
  {
    var h, c := Highest(s.queues), s.current.t;
    if h < |s.queues| {
      var ready := s.threads[c].stat == Ready;
      QueuedIsReady(s, h, 0);
      hide Index; hide IndexBut;
      if ready && s.threads[c].prio < h {
        DequeueIndex(s, c);
        OutIsIn(Dequeue(s, c), c);
      } else {
        var to := s.queues[h][0];
        SwitchIndex(s, to);
        var b := Dequeue(s, to).(current := Runs(to));
        if ready {
          EnqueueIndex(b, c);
          WithoutAppend(s.queues[h], to, c);
          assert s.threads[c := s.threads[c].(stat := Ready)] == s.threads;
          assert Schedule(s) == Enqueue(b, c);
        } else {
          assert Schedule(s) == b;
        }
      }
    }
  }

  /** After scheduling, if anyone can run, the running thread is READY and at least as urgent as
      every queued one. */
  lemma SchedulePicks(s: State)
    requires Inv(s) && s.current.Runs?
    requires s.threads[s.current.t].stat == Ready || Highest(s.queues) < LEVELS
    ensures var r := Schedule(s);
            && r.current.Runs? && r.current.t in r.threads && r.threads[r.current.t].stat == Ready
            && forall p :: 0 <= p < |r.queues| && r.queues[p] != [] ==> r.threads[r.current.t].prio <= p
  {
    ScheduleKeeps(s);
    var h, c, r := Highest(s.queues), s.current.t, Schedule(s);
    if h < LEVELS {
      QueuedIsReady(s, h, 0);
      var to := s.queues[h][0];
      forall p | 0 <= p < |r.queues| && r.queues[p] != [] ensures r.threads[r.current.t].prio <= p {
        QueuedIsReady(r, p, 0);
        var q := r.queues[p][0];
        assert multiset(s.queues[p])[q] == Expected(s, p, q);
      }
    }
  }

  // ---- Runs ---------------------------------------------------------------------------------------------

  /** `Resume` covers rt_thread_resume and the waking of a timed-out thread. */
  datatype Action =
    | Startup(t: Tid)
    | Suspend
    | Resume(t: Tid)
    | SetPriority(t: Tid, p: nat)
    | Delete(t: Tid)
    | DoSchedule
    | Begin
    | Enter
    | Exit

  predicate Enabled(s: State, a: Action) {
    match a
    case Startup(t) => t in s.threads && s.threads[t].stat == Init
    case Suspend => s.current.Runs?
    case Resume(t) => t in s.threads
    case SetPriority(t, p) => t in s.threads && p < LEVELS
    case Delete(t) => t in s.threads && s.threads[t].stat != Closed
    case DoSchedule => s.current.Runs?
    case Begin => s.current == Nobody && Highest(s.queues) < LEVELS
    case Enter => true
    case Exit => s.current.Runs?
  }

  /** rt_schedule: nothing while the scheduler is locked. */
  function Reschedule(s: State): State
    requires s.current.Runs? && s.current.t in s.threads && s.threads[s.current.t].prio < |s.queues|
  {
    if s.nest == 0 then Schedule(s) else s
  }

  /** rt_system_scheduler_start: the most urgent queued thread is the first to run. */
  function FirstRun(s: State): State
    requires Highest(s.queues) < |s.queues|
  {
    var t := s.queues[Highest(s.queues)][0];
    var s1 := s.(current := Runs(t));
    if t in s.threads && s.threads[t].prio < |s.queues| then Dequeue(s1, t) else s1
  }

  /** rt_exit_critical: leaving the outermost section schedules. */
  function Leave(s: State): State
    requires s.current.Runs? && s.current.t in s.threads && s.threads[s.current.t].prio < |s.queues|
  {
    if s.nest - 1 <= 0 then Schedule(s.(nest := 0)) else s.(nest := s.nest - 1)
  }

  /** rt_thread_resume: only a suspended thread moves. */
  function DoResume(s: State, t: Tid): State
    requires t in s.threads && s.threads[t].prio < |s.queues|
  {
    if s.threads[t].stat != Suspended then s else Enqueue(s, t)
  }

  function StartUp(s: State, t: Tid): State
    requires t in s.threads && s.threads[t].initPrio < |s.queues|
  {
    DoResume(SetStat(SetPrio(s, t, s.threads[t].initPrio), t, Suspended), t)
  }

  /** rt_thread_suspend on the running thread. */
  function DoSuspend(s: State, t: Tid): State
    requires t in s.threads && s.threads[t].prio < |s.queues|
  {
    if s.threads[t].stat != Ready then s else Dequeue(SetStat(s, t, Suspended), t)
  }

  /** rt_thread_delete */
  function DoDelete(s: State, t: Tid): State
    requires t in s.threads && s.threads[t].prio < |s.queues|
  {
    SetStat(if s.threads[t].stat != Init then Dequeue(s, t) else s, t, Closed)
  }

  function Step(s: State, a: Action): State
    requires Enabled(s, a) && |s.queues| == LEVELS
    requires forall t :: t in s.threads ==> s.threads[t].prio < LEVELS && s.threads[t].initPrio < LEVELS
    requires s.current.Runs? ==> s.current.t in s.threads
  {
    match a
    case Startup(t) =>
      var s1 := StartUp(s, t);
      if s.current.Runs? then Reschedule(s1) else s1
    case Suspend => DoSuspend(s, s.current.t)
    case Resume(t) => DoResume(s, t)
    case SetPriority(t, p) => ChangePriority(s, t, p)
    case Delete(t) => DoDelete(s, t)
    case DoSchedule => Reschedule(s)
    case Begin => FirstRun(s)
    case Enter => s.(nest := s.nest + 1)
    case Exit => Leave(s)
  }

  lemma ResumeKeeps(s: State, t: Tid)
    requires Inv(s) && t in s.threads
    ensures Inv(DoResume(s, t))
  {
    if s.threads[t].stat == Suspended {
      OutIsIn(s, t);
      EnqueueIndex(s, t);
    }
  }

  /** A thread about to be started, at its initial priority and suspended. */
  lemma PreparedKeeps(s: State, t: Tid)
    requires Inv(s) && t in s.threads && s.threads[t].stat == Init
    ensures Inv(SetStat(SetPrio(s, t, s.threads[t].initPrio), t, Suspended))
  {
    hide Index; hide IndexBut;
    IndexSize(s);
    var th := s.threads[t].(prio := s.threads[t].initPrio, number := s.threads[t].initPrio / 8, high := s.threads[t].initPrio % 8, stat := Suspended);
    var s1 := SetStat(SetPrio(s, t, s.threads[t].initPrio), t, Suspended);
    assert s1.threads == s.threads[t := th];
    OutIsIn(s, t);
    ChangeOut(s, t, th);
    OutIsIn(s1, t);
  }

  lemma StartUpKeeps(s: State, t: Tid)
    requires Inv(s) && t in s.threads && s.threads[t].stat == Init
    ensures |s.queues| == LEVELS
    ensures Inv(StartUp(s, t)) && StartUp(s, t).current == s.current
  {
    IndexSize(s);
    PreparedKeeps(s, t);
    hide Index;
    ResumeKeeps(SetStat(SetPrio(s, t, s.threads[t].initPrio), t, Suspended), t);
  }

  lemma SuspendKeeps(s: State)
    requires Inv(s) && s.current.Runs?
    ensures Inv(DoSuspend(s, s.current.t))
  {
    hide Index; hide IndexBut;
    IndexSize(s);
    var t := s.current.t;
    var s1 := SetStat(s, t, Suspended);
    OutIsIn(s, t);
    ChangeOut(s, t, s.threads[t].(stat := Suspended));
    OutIsIn(s1, t);
    DequeueIndex(s1, t);
    OutIsIn(Dequeue(s1, t), t);
  }

  lemma DeleteKeeps(s: State, t: Tid)
    requires Inv(s) && t in s.threads
    ensures Inv(DoDelete(s, t))
  {
    hide Index; hide IndexBut;
    IndexSize(s);
    var s1 := if s.threads[t].stat != Init then Dequeue(s, t) else s;
    DequeueIndex(s, t);
    if s.threads[t].stat == Init { OutIsIn(s, t); }
    ChangeOut(s1, t, s1.threads[t].(stat := Closed));
    OutIsIn(SetStat(s1, t, Closed), t);
  }

  lemma FirstRunKeeps(s: State)
    requires Inv(s) && s.current == Nobody && Highest(s.queues) < LEVELS
    ensures var r, h := FirstRun(s), Highest(s.queues);
            && Inv(r) && r.current == Runs(s.queues[h][0]) && r.threads == s.threads && r.nest == s.nest
            && r.queues == s.queues[h := s.queues[h][1..]]
            && r.threads[r.current.t].stat == Ready && r.threads[r.current.t].prio == h
            && forall p :: 0 <= p < |r.queues| && r.queues[p] != [] ==> h <= p
  {
    var h := Highest(s.queues);
    QueuedIsReady(s, h, 0);
    var t := s.queues[h][0];
    var s1, r := s.(current := Runs(t)), FirstRun(s);
    OnceOnly(s, h);
    WithoutAbsent(s.queues[h][1..], t);
    assert Without(s.queues[h], t) == s.queues[h][1..];
    DequeueIndex(s, t);
    var d := Dequeue(s, t);
    forall p, u: Tid | 0 <= p < LEVELS ensures multiset(r.queues[p])[u] == Expected(r, p, u) {
      assert multiset(d.queues[p])[u] == if u == t then 0 else Expected(d, p, u);
    }
  }

  /** The lock count is not part of the index. */
  lemma NestKeeps(s: State, n: nat)
    requires Inv(s)
    ensures Inv(s.(nest := n))
  {
    var r := s.(nest := n);
    forall p, u: Tid | 0 <= p < LEVELS ensures multiset(r.queues[p])[u] == Expected(r, p, u) {
      assert multiset(s.queues[p])[u] == Expected(s, p, u);
    }
  }

  lemma StepKeepsInv(s: State, a: Action)
    requires Inv(s) && Enabled(s, a)
    ensures Inv(Step(s, a))
  {
    IndexSize(s);
    hide Index;
    match a
    case Startup(t) =>
      StartUpKeeps(s, t);
      if s.current.Runs? && s.nest == 0 { ScheduleKeeps(StartUp(s, t)); }
    case Suspend => SuspendKeeps(s);
    case Resume(t) => ResumeKeeps(s, t);
    case SetPriority(t, p) => ChangePriorityKeeps(s, t, p);
    case Delete(t) => DeleteKeeps(s, t);
    case DoSchedule => ScheduleKeeps(s);
    case Begin => FirstRunKeeps(s);
    case Enter => NestKeeps(s, s.nest + 1);
    case Exit =>
      if s.nest > 1 {
        NestKeeps(s, s.nest - 1);
      } else {
        NestKeeps(s, 0);
        ScheduleKeeps(s.(nest := 0));
      }
  }

  ghost function Run(s: State, run: seq<Action>): State
    requires Inv(s)
    decreases |run|
  {
    if run == [] then s
    else if !Enabled(s, run[0]) then Run(s, run[1..])
    else
      StepKeepsInv(s, run[0]);
      Run(Step(s, run[0]), run[1..])
  }

  /** Through any sequence of operations the queues hold exactly the READY threads. */
  lemma {:induction false} RunKeepsInv(s: State, run: seq<Action>)
    requires Inv(s)
    ensures Inv(Run(s, run))
    decreases |run|
  {
    if run != [] {
      if Enabled(s, run[0]) {
        StepKeepsInv(s, run[0]);
        RunKeepsInv(Step(s, run[0]), run[1..]);
      } else {
        RunKeepsInv(s, run[1..]);
      }
    }
  }

  // ---- What each operation changes --------------------------------------------------------------------

  /** Nothing but `t` enters, leaves or changes places in any queue. */
  ghost predicate SameButFor(q: seq<seq<Tid>>, r: seq<seq<Tid>>, t: Tid) {
    |r| == |q| && forall k :: 0 <= k < |q| ==> Without(r[k], t) == Without(q[k], t)
  }

  ghost predicate Absent(q: seq<seq<Tid>>, t: Tid) {
    forall k :: 0 <= k < |q| ==> t !in q[k]
  }

  /** `t` stands last in queue `p`, once, and in no other queue. */
  ghost predicate LastIn(q: seq<seq<Tid>>, p: nat, t: Tid) {
    && p < |q| && q[p] != [] && q[p][|q[p]| - 1] == t && t !in q[p][..|q[p]| - 1]
    && forall k :: 0 <= k < |q| && k != p ==> t !in q[k]
  }

  /** Where a thread stands that has just been made READY or moved. */
  ghost predicate Stands(q: seq<seq<Tid>>, current: Running, p: nat, t: Tid) {
    if current == Runs(t) then Absent(q, t) else LastIn(q, p, t)
  }

  lemma {:induction false} WithoutTwice(q: seq<Tid>, t: Tid)
    ensures t !in Without(q, t) && Without(Without(q, t), t) == Without(q, t)
  {
    if t in Without(q, t) { WithoutFrom(q, t, t); }
    WithoutAbsent(Without(q, t), t);
  }

  lemma DequeueExact(s: State, t: Tid)
    requires Index(s) && t in s.threads && s.threads[t].prio < LEVELS
    ensures var r := Dequeue(s, t); r.threads == s.threads && Absent(r.queues, t) && SameButFor(s.queues, r.queues, t)
  {
    var r, p := Dequeue(s, t), s.threads[t].prio;
    WithoutTwice(s.queues[p], t);
    forall k | 0 <= k < LEVELS && k != p ensures t !in r.queues[k] {
      assert multiset(s.queues[k])[t] == Expected(s, k, t);
    }
  }

  lemma EnqueueExact(s: State, t: Tid)
    requires Absent(s.queues, t) && t in s.threads && s.threads[t].prio < |s.queues|
    ensures var r := Enqueue(s, t);
      && r.threads == s.threads[t := s.threads[t].(stat := Ready)] && r.current == s.current && r.nest == s.nest
      && Stands(r.queues, r.current, s.threads[t].prio, t) && SameButFor(s.queues, r.queues, t)
  {
    var p := s.threads[t].prio;
    var q := s.queues[p];
    if s.current != Runs(t) {
      WithoutConcat(q, [t], t);
      assert [t][1..] == [];
      assert Without([t], t) == [];
      assert (q + [t])[..|q|] == q;
    }
  }

  /** A thread that is running or not READY is in no queue. */
  lemma OutOfQueues(s: State, t: Tid)
    requires Index(s) && (s.current == Runs(t) || t !in s.threads || s.threads[t].stat != Ready)
    ensures Absent(s.queues, t)
  {
    forall k | 0 <= k < |s.queues| ensures t !in s.queues[k] {
      assert multiset(s.queues[k])[t] == Expected(s, k, t);
    }
  }

  /** A change of priority changes the three priority fields of that thread and nothing else; a READY thread that is not
      running goes behind all others of its new priority, and the rest keep their places. */
  lemma PriorityChanged(s: State, t: Tid, p: nat)
    requires Inv(s) && Enabled(s, SetPriority(t, p))
    ensures var r := Step(s, SetPriority(t, p));
      && r.threads == s.threads[t := s.threads[t].(prio := p, number := p / 8, high := p % 8)]
      && r.current == s.current && r.nest == s.nest && SameButFor(s.queues, r.queues, t)
      && (if s.threads[t].stat == Ready then Stands(r.queues, s.current, p, t) else r.queues == s.queues)
  {
    IndexSize(s);
    if s.threads[t].stat == Ready {
      DequeueExact(s, t);
      EnqueueExact(SetPrio(Dequeue(s, t), t, p), t);
    }
  }

  /** Only a suspended thread is resumed: it becomes READY and goes behind all others of its priority. */
  lemma ResumeExact(s: State, t: Tid)
    requires Inv(s) && t in s.threads
    ensures |s.queues| == LEVELS
    ensures var r := DoResume(s, t);
      if s.threads[t].stat != Suspended then r == s
      else
        && r.threads == s.threads[t := s.threads[t].(stat := Ready)] && r.current == s.current && r.nest == s.nest
        && Stands(r.queues, s.current, s.threads[t].prio, t) && SameButFor(s.queues, r.queues, t)
  {
    if s.threads[t].stat == Suspended {
      OutOfQueues(s, t);
      EnqueueExact(s, t);
    }
  }

  /** A started thread is READY at its initial priority, behind all others there. */
  lemma StartUpExact(s: State, t: Tid)
    requires Inv(s) && t in s.threads && s.threads[t].stat == Init
    ensures |s.queues| == LEVELS
    ensures var r, p := StartUp(s, t), s.threads[t].initPrio;
      && r.threads == s.threads[t := Thread(Ready, p, p, p / 8, p % 8)] && r.current == s.current && r.nest == s.nest
      && LastIn(r.queues, p, t) && SameButFor(s.queues, r.queues, t)
  {
    OutOfQueues(s, t);
    EnqueueExact(SetStat(SetPrio(s, t, s.threads[t].initPrio), t, Suspended), t);
  }

  /** The running thread becomes suspended if it is READY; the queues stay as they are. */
  lemma SuspendExact(s: State)
    requires Inv(s) && s.current.Runs?
    ensures |s.queues| == LEVELS
    ensures var t, r := s.current.t, DoSuspend(s, s.current.t);
      r == if s.threads[t].stat == Ready then s.(threads := s.threads[t := s.threads[t].(stat := Suspended)]) else s
  {
    var t := s.current.t;
    OutOfQueues(s, t);
    WithoutAbsent(s.queues[s.threads[t].prio], t);
  }

  /** A deleted thread is closed and in no queue; the others keep their places. */
  lemma DeleteExact(s: State, t: Tid)
    requires Inv(s) && t in s.threads
    ensures |s.queues| == LEVELS
    ensures var r := DoDelete(s, t);
      && r.threads == s.threads[t := s.threads[t].(stat := Closed)] && r.current == s.current && r.nest == s.nest
      && Absent(r.queues, t) && SameButFor(s.queues, r.queues, t)
  {
    if s.threads[t].stat == Init {
      OutOfQueues(s, t);
    } else {
      DequeueExact(s, t);
    }
  }

  /** A schedule leaves the running thread alone if it is READY and more urgent than every queued thread, or if nobody is
      queued. Otherwise the first thread of the most urgent queue runs, and a running thread that is still READY goes behind
      all others of its priority. */
  lemma ScheduleExact(s: State)
    requires Inv(s) && s.current.Runs?
    ensures |s.queues| == LEVELS
    ensures var c, h, r := s.current.t, Highest(s.queues), Schedule(s);
      if h == LEVELS || (s.threads[c].stat == Ready && s.threads[c].prio < h) then r == s
      else
        && r.threads == s.threads && r.nest == s.nest && r.current == Runs(s.queues[h][0])
        && r.queues == Relieved(s.queues[h := s.queues[h][1..]], s.threads[c], c)
  {
    var c, h := s.current.t, Highest(s.queues);
    OutOfQueues(s, c);
    WithoutAbsent(s.queues[s.threads[c].prio], c);
    if h < LEVELS && !(s.threads[c].stat == Ready && s.threads[c].prio < h) {
      SwitchExact(s);
    }
  }

  /** The queues after thread `c` is taken off the processor. */
  function Relieved(q: seq<seq<Tid>>, th: Thread, c: Tid): seq<seq<Tid>> {
    if th.stat == Ready && th.prio < |q| then q[th.prio := q[th.prio] + [c]] else q
  }

  lemma SwitchExact(s: State)
    requires Inv(s) && s.current.Runs? && Highest(s.queues) < LEVELS
    requires s.threads[s.current.t].stat == Ready ==> Highest(s.queues) <= s.threads[s.current.t].prio
    ensures |s.queues| == LEVELS
    ensures var c, h, r := s.current.t, Highest(s.queues), Schedule(s);
      && r.threads == s.threads && r.nest == s.nest && r.current == Runs(s.queues[h][0])
      && r.queues == Relieved(s.queues[h := s.queues[h][1..]], s.threads[c], c)
  {
    var c, h := s.current.t, Highest(s.queues);
    QueuedIsReady(s, h, 0);
    OnceOnly(s, h);
    hide Index;
    IndexSize(s);
    var q, to := s.queues[h], s.queues[h][0];
    WithoutAbsent(q[1..], to);
    assert Without(q, to) == q[1..];
    WithoutAppend(q, to, c);
    assert s.threads[c := s.threads[c].(stat := s.threads[c].stat)] == s.threads;
  }

  /** A run that neither starts thread `t` nor sets its priority leaves its priority as it is, and only a deletion closes it. */
  lemma {:induction false} PriorityLasts(s: State, run: seq<Action>, t: Tid)
    requires Inv(s) && t in s.threads
    requires forall i :: 0 <= i < |run| ==> run[i] != Startup(t) && !(run[i].SetPriority? && run[i].t == t)
    ensures t in Run(s, run).threads && Run(s, run).threads[t].prio == s.threads[t].prio
    ensures Delete(t) !in run && s.threads[t].stat != Closed ==> Run(s, run).threads[t].stat != Closed
    decreases |run|
  {
    hide Index;
    hide Step;
    if run != [] {
      IndexSize(s);
      if Enabled(s, run[0]) {
        StepKeepsInv(s, run[0]);
        StepLeaves(s, run[0], t);
        PriorityLasts(Step(s, run[0]), run[1..], t);
      } else {
        PriorityLasts(s, run[1..], t);
      }
    }
  }

  lemma StepLeaves(s: State, a: Action, t: Tid)
    requires Inv(s) && Enabled(s, a) && t in s.threads && a != Startup(t) && !(a.SetPriority? && a.t == t)
    ensures t in Step(s, a).threads && Step(s, a).threads[t].prio == s.threads[t].prio
    ensures a != Delete(t) && s.threads[t].stat != Closed ==> Step(s, a).threads[t].stat != Closed
  {
    hide Index;
    IndexSize(s);
    match a
    case Startup(u) =>
      StartUpKeeps(s, u);
      StartUpExact(s, u);
      if s.current.Runs? { ScheduleExact(StartUp(s, u)); }
    case DoSchedule => ScheduleExact(s);
    case Exit =>
      NestKeeps(s, 0);
      ScheduleExact(s.(nest := 0));
    case _ =>
  }

  /** The priority last set is the one the thread has, whatever else happens before and after. */
  lemma PrioritySet(s: State, run: seq<Action>, t: Tid, p: nat, more: seq<Action>)
    requires Inv(s) && Inv(Run(s, run)) && Enabled(Run(s, run), SetPriority(t, p))
    requires forall i :: 0 <= i < |more| ==> more[i] != Startup(t) && !(more[i].SetPriority? && more[i].t == t)
    ensures t in Run(s, run + ([SetPriority(t, p)] + more)).threads
    ensures Run(s, run + ([SetPriority(t, p)] + more)).threads[t].prio == p
  {
    hide Inv; hide Run;
    var a, s1 := [SetPriority(t, p)], Run(s, run);
    RunConcat(s, run, a + more);
    RunConcat(s1, a, more);
    SetOnce(s1, t, p);
    PriorityLasts(Run(s1, a), more, t);
  }

  lemma SetOnce(s: State, t: Tid, p: nat)
    requires Inv(s) && Enabled(s, SetPriority(t, p))
    ensures var r := Run(s, [SetPriority(t, p)]); Inv(r) && t in r.threads && r.threads[t].prio == p
  {
    hide Index;
    IndexSize(s);
    StepKeepsInv(s, SetPriority(t, p));
    PriorityChanged(s, t, p);
    RunOne(s, SetPriority(t, p));
  }

  // ---- From initialisation on -----------------------------------------------------------------------

  /** rt_system_scheduler_init, with threads that are initialised but not started. */
  function Initial(ths: map<Tid, Thread>): State {
    State(ths, NoQueues(), Nobody, 0)
  }

  function NoQueues(): (q: seq<seq<Tid>>)
    ensures |q| == LEVELS && forall p :: 0 <= p < LEVELS ==> q[p] == []
  {
    seq(LEVELS, _ => [])
  }

  predicate Fresh(ths: map<Tid, Thread>) {
    forall t :: t in ths ==> ths[t].stat == Init && ths[t].initPrio < LEVELS && ths[t].prio < LEVELS
  }

  /** Every run from initialisation keeps the index, and once a thread runs some thread always does. */
  lemma BootKeepsInv(ths: map<Tid, Thread>, run: seq<Action>, more: seq<Action>)
    requires Fresh(ths)
    ensures Inv(Initial(ths))
    ensures var s := Run(Initial(ths), run);
      && Inv(s) && Inv(Run(s, more)) && (s.current.Runs? ==> Run(s, more).current.Runs?)
  {
    var s := Initial(ths);
    forall p, u: Tid | 0 <= p < LEVELS ensures multiset(s.queues[p])[u] == Expected(s, p, u) {
      assert s.queues[p] == [];
    }
    RunKeepsInv(s, run);
    RunKeepsInv(Run(s, run), more);
    StaysRunning(Run(s, run), more);
  }

  lemma {:induction false} StaysRunning(s: State, run: seq<Action>)
    requires Inv(s)
    ensures s.current.Runs? ==> Run(s, run).current.Runs?
    decreases |run|
  {
    if run != [] {
      if Enabled(s, run[0]) {
        StepKeepsInv(s, run[0]);
        StepRuns(s, run[0]);
        StaysRunning(Step(s, run[0]), run[1..]);
      } else {
        StaysRunning(s, run[1..]);
      }
    }
  }

  lemma StepRuns(s: State, a: Action)
    requires Inv(s) && Enabled(s, a)
    ensures s.current.Runs? || a.Begin? ==> Step(s, a).current.Runs?
    ensures !s.current.Runs? && !a.Begin? ==> Step(s, a).current == Nobody
  {
    hide Index;
    IndexSize(s);
    if a.Begin? {
      FirstRunKeeps(s);
    }
    if a.Startup? {
      StartUpKeeps(s, a.t);
    }
  }

  /** Start-up calls for these threads, in this order. */
  function Startups(ts: seq<Tid>): (r: seq<Action>)
    ensures |r| == |ts|
  {
    if ts == [] then [] else Startups(ts[..|ts| - 1]) + [Startup(ts[|ts| - 1])]
  }

  lemma {:induction false} RunConcat(s: State, a: seq<Action>, b: seq<Action>)
    requires Inv(s)
    ensures Inv(Run(s, a)) && Run(s, a + b) == Run(Run(s, a), b)
    decreases |a|
  {
    RunKeepsInv(s, a);
    if a == [] {
      assert a + b == b;
    } else {
      assert (a + b)[1..] == a[1..] + b;
      if Enabled(s, a[0]) {
        StepKeepsInv(s, a[0]);
        RunConcat(Step(s, a[0]), a[1..], b);
      } else {
        RunConcat(s, a[1..], b);
      }
    }
  }

  lemma StartupsLast(ts: seq<Tid>)
    requires ts != []
    ensures Startups(ts) == Startups(ts[..|ts| - 1]) + [Startup(ts[|ts| - 1])]
  {
  }

  lemma StartupAppends(s: State, t: Tid)
    requires Inv(s) && Enabled(s, Startup(t)) && s.current == Nobody
    ensures |s.queues| == LEVELS && s.threads[t].initPrio < LEVELS && Inv(Step(s, Startup(t)))
    ensures var p, r := s.threads[t].initPrio, Step(s, Startup(t));
      && r.queues == s.queues[p := s.queues[p] + [t]] && r.current == Nobody && r.nest == s.nest
      && r.threads.Keys == s.threads.Keys && forall u :: u in s.threads && u != t ==> r.threads[u] == s.threads[u]
  {
    hide Index;
    IndexSize(s);
    StepKeepsInv(s, Startup(t));
  }

  /** Before the scheduler starts, started threads of one priority queue up in start order. */
  lemma {:induction false} StartupsQueue(ths: map<Tid, Thread>, p: nat, ts: seq<Tid>)
    requires Fresh(ths) && p < LEVELS && Distinct(ts)
    requires forall i :: 0 <= i < |ts| ==> ts[i] in ths && ths[ts[i]].initPrio == p
    ensures Inv(Initial(ths))
    ensures var s := Run(Initial(ths), Startups(ts));
      && Inv(s) && s.queues == NoQueues()[p := ts] && s.current == Nobody && s.nest == 0
      && s.threads.Keys == ths.Keys && forall t :: t in ths && t !in ts ==> s.threads[t] == ths[t]
  {
    BootKeepsInv(ths, Startups(ts), []);
    if ts == [] {
      assert NoQueues()[p := ts] == NoQueues();
    } else {
      var n := |ts| - 1;
      var init, t := ts[..n], ts[n];
      assert t !in init;
      StartupsQueue(ths, p, init);
      RunConcat(Initial(ths), Startups(init), [Startup(t)]);
      var s := Run(Initial(ths), Startups(init));
      assert s.threads[t] == ths[t];
      hide Run; hide Index; hide Step; hide Startups;
      StartupAppends(s, t);
      RunOne(s, Startup(t));
      assert init + [t] == ts;
      assert Startups(ts) == Startups(init) + [Startup(t)] by { StartupsLast(ts); }
    }
  }

  /** Threads of one priority that are started before the scheduler share the processor from its start on: the first
      runs and the rest wait in start order. */
  lemma BootShared(ths: map<Tid, Thread>, p: nat, ts: seq<Tid>)
    requires Fresh(ths) && p < LEVELS && Distinct(ts) && |ts| >= 2
    requires forall i :: 0 <= i < |ts| ==> ts[i] in ths && ths[ts[i]].initPrio == p
    ensures Inv(Initial(ths))
    ensures var s := Run(Initial(ths), Startups(ts) + [Begin]); TopShared(s, p) && Circle(s, p) == ts && s.nest == 0
  {
    hide Run;
    hide Index;
    hide Step;
    hide Startups;
    StartupsQueue(ths, p, ts);
    RunConcat(Initial(ths), Startups(ts), [Begin]);
    var s := Run(Initial(ths), Startups(ts));
    QueuesAfter(s, p, ts);
    BeginShared(s, p);
    RunOne(s, Begin);
    BeginStep(s);
  }

  lemma BeginStep(s: State)
    requires Inv(s) && Enabled(s, Begin)
    ensures |s.queues| == LEVELS && Step(s, Begin) == FirstRun(s)
  {
    IndexSize(s);
  }

  lemma QueuesAfter(s: State, p: nat, ts: seq<Tid>)
    requires p < LEVELS && s.queues == NoQueues()[p := ts]
    ensures |s.queues| == LEVELS && s.queues[p] == ts && forall i :: 0 <= i < p ==> s.queues[i] == []
  {
  }

  lemma RunOne(s: State, a: Action)
    requires Inv(s) && Enabled(s, a)
    ensures |s.queues| == LEVELS && Run(s, [a]) == Step(s, a)
  {
    hide Step;
    hide Enabled;
    IndexSize(s);
    StepKeepsInv(s, a);
    assert [a][1..] == [];
  }

  lemma BeginShared(s: State, p: nat)
    requires Inv(s) && s.current == Nobody && p < LEVELS && |s.queues[p]| >= 2
    requires forall i :: 0 <= i < p ==> s.queues[i] == []
    ensures Highest(s.queues) == p
    ensures var r := FirstRun(s); TopShared(r, p) && Circle(r, p) == s.queues[p] && r.nest == s.nest
  {
    FirstRunKeeps(s);
    var q, r := s.queues[p], FirstRun(s);
    QueuedIsReady(s, p, 0);
    OnceOnly(s, p);
    hide Index;
    assert Highest(s.queues) == p;
    assert q == [q[0]] + q[1..];
    WithoutAbsent(q[1..], q[0]);
    assert Without(q, q[0]) == q[1..];
    assert r.queues == s.queues[p := q[1..]];
    assert r.queues[p] != [] && forall i :: 0 <= i < p ==> r.queues[i] == [];
  }

  // ---- Critical sections ------------------------------------------------------------------------------

  /** The scheduler stays locked during the whole run. */
  ghost predicate Held(s: State, run: seq<Action>)
    requires Inv(s)
    decreases |run|
  {
    && s.nest > 0
    && (run == [] ||
        if !Enabled(s, run[0]) then Held(s, run[1..])
        else StepKeepsInv(s, run[0]); Held(Step(s, run[0]), run[1..]))
  }

  /** While the scheduler is locked nobody takes the processor from the running thread. */
  lemma {:induction false} LockedKeepsRunning(s: State, run: seq<Action>)
    requires Inv(s) && s.current.Runs? && Held(s, run)
    ensures Run(s, run).current == s.current
    decreases |run|
  {
    if run != [] {
      if Enabled(s, run[0]) {
        StepKeepsInv(s, run[0]);
        var r := Step(s, run[0]);
        assert r.current == s.current by {
          hide Index;
          IndexSize(s);
          if run[0].Startup? {
            StartUpKeeps(s, run[0].t);
          }
        }
        LockedKeepsRunning(r, run[1..]);
      } else {
        LockedKeepsRunning(s, run[1..]);
      }
    }
  }

  /** Entering is undone by leaving: a nested pair changes nothing, an outermost pair makes up for the schedules that
      were skipped with one. */
  lemma EnterThenExit(s: State)
    requires Inv(s) && s.current.Runs?
    ensures Enabled(s, Enter) && Inv(Step(s, Enter)) && Enabled(Step(s, Enter), Exit)
    ensures Step(Step(s, Enter), DoSchedule) == Step(s, Enter)
    ensures Step(Step(s, Enter), Exit) == Step(s, DoSchedule)
  {
    NestKeeps(s, s.nest + 1);
  }

  // ---- Round robin ------------------------------------------------------------------------------------

  /** `n` calls of rt_schedule. */
  ghost function Scheduled(s: State, n: nat): State
    requires Inv(s) && s.current.Runs?
    decreases n
  {
    ScheduleKeeps(s);
    if n == 0 then s else Scheduled(Schedule(s), n - 1)
  }

  /** The running thread and those waiting behind it at priority `p`. */
  function Circle(s: State, p: nat): seq<Tid>
    requires s.current.Runs? && p < |s.queues|
  {
    [s.current.t] + s.queues[p]
  }

  ghost predicate TopShared(s: State, p: nat) {
    && Inv(s) && s.current.Runs? && p < LEVELS && Highest(s.queues) == p
    && s.threads[s.current.t].stat == Ready && s.threads[s.current.t].prio == p
  }

  /** Among equally urgent top threads one call moves the circle on by one. */
  lemma OneTurn(s: State, p: nat)
    requires TopShared(s, p)
    ensures var r := Schedule(s);
            TopShared(r, p) && Circle(r, p) == Circle(s, p)[1..] + [Circle(s, p)[0]]
  {
    ScheduleKeeps(s);
    QueuedIsReady(s, p, 0);
    var q, c, r := s.queues[p], s.current.t, Schedule(s);
    var to := q[0];
    assert q == [to] + q[1..];
    OnceOnly(s, p);
    WithoutAbsent(q[1..], to);
    assert Without(q, to) == q[1..];
    WithoutAppend(q, to, c);
    assert r.queues == s.queues[p := q[1..] + [c]];
    assert r.queues[p] != [] && forall i :: 0 <= i < p ==> r.queues[i] == [];
  }

  lemma OnceOnly(s: State, p: nat)
    requires Index(s) && p < LEVELS && s.queues[p] != []
    ensures s.queues[p][0] !in s.queues[p][1..]
  {
    var q := s.queues[p];
    var t := q[0];
    assert multiset(s.queues[p])[t] == Expected(s, p, t);
    assert q == [t] + q[1..];
    assert multiset(q) == multiset{t} + multiset(q[1..]);
  }

  /** The circle after `n` turns. */
  function Turned(c: seq<Tid>, n: nat): seq<Tid>
    requires c != []
    decreases n
  {
    if n == 0 then c else Turned(c[1..] + [c[0]], n - 1)
  }

  lemma {:induction false} RoundRobinTurns(s: State, p: nat, n: nat)
    requires TopShared(s, p)
    ensures var r := Scheduled(s, n); TopShared(r, p) && Circle(r, p) == Turned(Circle(s, p), n)
    decreases n
  {
    if n > 0 {
      OneTurn(s, p);
      RoundRobinTurns(Schedule(s), p, n - 1);
    }
  }

  lemma {:induction false} TurnedAt(c: seq<Tid>, n: nat)
    requires c != [] && n <= |c|
    ensures Turned(c, n) == c[n..] + c[..n]
    decreases n
  {
    if n == 0 {
      assert c[0..] + c[..0] == c;
    } else {
      TurnedLast(c, n - 1);
      TurnedAt(c, n - 1);
      var d := c[n - 1..] + c[..n - 1];
      assert d[1..] + [d[0]] == c[n..] + c[..n];
    }
  }

  /** Turning `n` times and then once more. */
  lemma {:induction false} TurnedLast(c: seq<Tid>, n: nat)
    requires c != []
    ensures Turned(c, n) != [] && Turned(c, n + 1) == Turned(c, n)[1..] + [Turned(c, n)[0]]
    decreases n
  {
    if n > 0 {
      TurnedLast(c[1..] + [c[0]], n - 1);
    }
  }

  /** The n-th of k consecutive calls runs the n-th thread of the circle, and after k calls the
      circle is where it was: each of the k equally urgent threads has run once, in rotation. */
  lemma RoundRobin(s: State, p: nat, n: nat)
    requires TopShared(s, p) && n <= |Circle(s, p)|
    ensures var c, r := Circle(s, p), Scheduled(s, n);
            && TopShared(r, p) && r.current == Runs(if n < |c| then c[n] else c[0])
            && (n == |c| ==> Circle(r, p) == c)
  {
    var c := Circle(s, p);
    RoundRobinTurns(s, p, n);
    TurnedAt(c, n);
    var r := Scheduled(s, n);
    assert Circle(r, p)[0] == r.current.t;
    if n == |c| {
      assert c[n..] + c[..n] == c;
    }
  }
}
