/** The scheduler object: ready queues indexed by a two-level bitmap (scheduler.c, thread.c). */
module Scheduler {
  import opened Lists
  import opened FirstBit
  import opened Ready

  const GROUPS := 32

  /** A table bit is set iff its queue is non-empty; a group bit iff its table byte is non-zero. */
  ghost predicate Agrees(group: Word, table: seq<Word>, queues: seq<seq<Tid>>) {
    && |group| == GROUPS && |table| == GROUPS && |queues| == LEVELS
    && (forall n :: 0 <= n < GROUPS ==> |table[n]| == 8 && (group[n] <==> !Zero(table[n])))
    && (forall n, m :: 0 <= n < GROUPS && 0 <= m < |table[n]| && m < 8 ==> (table[n][m] <==> queues[8 * n + m] != []))
  }

  lemma SetBits(group: Word, table: seq<Word>, queues: seq<seq<Tid>>, p: nat, q: seq<Tid>)
    requires Agrees(group, table, queues) && p < LEVELS && q != []
    ensures var n, m := p / 8, p % 8;
            Agrees(group[n := true], table[n := table[n][m := true]], queues[p := q])
  {
    var n, m := p / 8, p % 8;
    var t' := table[n := table[n][m := true]];
    assert t'[n][m];
    forall i, j | 0 <= i < GROUPS && 0 <= j < |t'[i]| && j < 8 ensures t'[i][j] <==> queues[p := q][8 * i + j] != [] {
      assert 8 * i + j == p <==> i == n && j == m;
    }
  }

  lemma ClearBits(group: Word, table: seq<Word>, queues: seq<seq<Tid>>, p: nat)
    requires Agrees(group, table, queues) && p < LEVELS
    ensures var n, m := p / 8, p % 8;
            var t' := table[n := table[n][m := false]];
            Agrees(if Zero(t'[n]) then group[n := false] else group, t', queues[p := []])
  {
    var n, m := p / 8, p % 8;
    var t' := table[n := table[n][m := false]];
    forall i, j | 0 <= i < GROUPS && 0 <= j < |t'[i]| && j < 8 ensures t'[i][j] <==> queues[p := []][8 * i + j] != [] {
      assert 8 * i + j == p <==> i == n && j == m;
    }
    if !Zero(t'[n]) {
      var k :| 0 <= k < |t'[n]| && t'[n][k];
      assert table[n][k];
    }
  }

  lemma KeepBits(group: Word, table: seq<Word>, queues: seq<seq<Tid>>, p: nat, q: seq<Tid>)
    requires Agrees(group, table, queues) && p < LEVELS && (q == [] <==> queues[p] == [])
    ensures Agrees(group, table, queues[p := q])
  {
    forall i, j | 0 <= i < GROUPS && 0 <= j < |table[i]| && j < 8 ensures table[i][j] <==> queues[p := q][8 * i + j] != [] {
    }
  }

  /** __rt_ffs on one byte of the table. */
  lemma FfsByte(b: Word)
    requires |b| == 8 && !Zero(b)
    ensures 0 < Value(b) < 256 && Ffs(Value(b)) == First(b) + 1
  {
    TableIsFirst(b);
    assert Value(b) % 0x100 == Value(b);
  }

  /** The two-level look-up finds the least non-empty priority. */
  lemma LookUp(group: Word, table: seq<Word>, queues: seq<seq<Tid>>)
    requires Agrees(group, table, queues)
    ensures Zero(group) <==> Highest(queues) == LEVELS
    ensures !Zero(group) ==> First(group) < GROUPS && !Zero(table[First(group)])
                             && 8 * First(group) + First(table[First(group)]) == Highest(queues)
  {
    if Zero(group) {
      forall p | 0 <= p < LEVELS ensures queues[p] == [] {
        assert !table[p / 8][p % 8];
      }
    } else {
      var n := First(group);
      assert n < GROUPS by { var k :| 0 <= k < GROUPS && group[k]; }
      var m := First(table[n]);
      assert m < 8 by { var k :| 0 <= k < |table[n]| && table[n][k]; }
      assert queues[8 * n + m] != [];
      forall p | 0 <= p < 8 * n + m ensures queues[p] == [] {
        if p / 8 < n {
          assert Zero(table[p / 8]);
        }
        assert !table[p / 8][p % 8];
      }
    }
  }

  class Kernel {
    var threads: map<Tid, Thread>
    var queues: seq<seq<Tid>>          // rt_thread_priority_table
    var current: Running               // rt_current_thread
    var group: Word                    // rt_thread_ready_priority_group
    var table: seq<Word>               // rt_thread_ready_table
    var lockNest: int                  // rt_scheduler_lock_nest

    ghost function S(): State reads `threads, `queues, `current, `lockNest { State(threads, queues, current, lockNest) }

    ghost predicate Bits() reads `group, `table, `queues { Agrees(group, table, queues) }

    ghost predicate Valid() reads this { Inv(S()) && Bits() }

    /** rt_system_scheduler_init, with threads that are initialised but not started. */
    constructor (ths: map<Tid, Thread>)
      requires Fresh(ths)
      ensures Valid() && S() == Initial(ths)
    {
      threads, current, lockNest := ths, Nobody, 0;
      queues := NoQueues();
      group := seq(GROUPS, _ => false);
      table := seq(GROUPS, _ => seq(8, _ => false));
    }

    /** rt_schedule_insert_thread */
    method InsertThread(t: Tid)
      requires Bits() && t in threads && Split(threads[t].(stat := Ready))
      modifies `threads, `queues, `group, `table
      ensures Bits() && S() == Enqueue(old(S()), t)
      ensures threads == old(threads)[t := old(threads)[t].(stat := Stat.Ready)]
      ensures var p := old(threads)[t].prio; queues == if current == Runs(t) then old(queues) else old(queues)[p := old(queues)[p] + [t]]
    {
      hide Agrees;
      var th := threads[t];
      AgreesSizes();
      threads := threads[t := th.(stat := Ready)];
      if current == Runs(t) {
        return;
      }
      SetBits(group, table, queues, th.prio, queues[th.prio] + [t]);
      queues := queues[th.prio := queues[th.prio] + [t]];
      table := table[th.number := table[th.number][th.high := true]];
      group := group[th.number := true];
    }

    lemma AgreesSizes()
      requires Bits()
      ensures |group| == GROUPS && |table| == GROUPS && |queues| == LEVELS
      ensures forall n :: 0 <= n < GROUPS ==> |table[n]| == 8
    {
    }

    /** rt_schedule_remove_thread */
    method RemoveThread(t: Tid)
      requires Bits() && t in threads && Split(threads[t].(stat := Ready))
      modifies `queues, `group, `table
      ensures Bits() && S() == Dequeue(old(S()), t)
      ensures var p := threads[t].prio; queues == old(queues)[p := Without(old(queues)[p], t)]
    {
      hide Agrees;
      var th := threads[t];
      AgreesSizes();
      ghost var q := Without(queues[th.prio], t);
      ClearBits(group, table, queues, th.prio);
      if q != [] {
        WithoutEmpty(queues[th.prio], t);
        KeepBits(group, table, queues, th.prio, q);
      }
      queues := queues[th.prio := Without(queues[th.prio], t)];
      if queues[th.prio] == [] {
        table := table[th.number := table[th.number][th.high := false]];
        if Zero(table[th.number]) {
          group := group[th.number := false];
        }
      }
    }

    lemma WithoutEmpty(q: seq<Tid>, t: Tid)
      ensures q == [] ==> Without(q, t) == []
    {
    }

    /** _get_highest_priority_thread */
    method GetHighest() returns (t: Tid, prio: nat)
      requires Bits() && !Zero(group)
      ensures prio < |queues| && prio == Highest(queues) && queues[prio] != [] && t == queues[prio][0]
    {
      hide Agrees;
      AgreesSizes();
      LookUp(group, table, queues);
      FfsIsFirst(group);
      var number := Ffs(Value(group)) - 1;
      FfsByte(table[number]);
      prio := number * 8 + Ffs(Value(table[number])) - 1;
      t := queues[prio][0];
    }

    /** rt_schedule.  With the scheduler locked nothing happens. */
    method DoSchedule()
      requires Valid() && current.Runs?
      modifies this
      ensures Valid() && lockNest == old(lockNest) && current.Runs?
      ensures S() == Reschedule(old(S()))
      ensures threads == old(threads) && (old(lockNest) != 0 ==> current == old(current) && queues == old(queues))
      ensures old(lockNest) == 0 && (old(threads)[old(current).t].stat == Ready || Highest(old(queues)) < LEVELS) ==>
                && current.t in threads && threads[current.t].stat == Ready
                && forall p :: 0 <= p < |queues| && queues[p] != [] ==> threads[current.t].prio <= p
    {
      ghost var s := S();
      ScheduleKeeps(s);
      ScheduleExact(s);
      if threads[current.t].stat == Ready || Highest(queues) < LEVELS { SchedulePicks(s); }
      hide Agrees; hide Index; hide Highest; hide Schedule; hide Inv;
      if lockNest == 0 {
        Dispatch();
      }
    }

    /** The body of rt_schedule: the most urgent queued thread against the running one. */
    method Dispatch()
      requires Valid() && current.Runs?
      modifies this
      ensures Agrees(group, table, queues) && lockNest == old(lockNest)
      ensures S() == Schedule(old(S()))
      ensures threads == old(threads)
      ensures var c, h := old(current).t, Highest(old(queues));
        if h == LEVELS || (threads[c].stat == Stat.Ready && threads[c].prio < h) then current == Runs(c) && queues == old(queues)
        else current == Runs(old(queues)[h][0]) && queues == Relieved(old(queues)[h := old(queues)[h][1..]], threads[c], c)
    {
      ghost var s := S();
      LookUp(group, table, queues);
      ScheduleExact(s);
      hide Agrees; hide Index; hide Highest; hide Relieved;
      if !Zero(group) {
        var to, h := GetHighest();
        var c := current.t;
        var insertFrom := false;
        HeadReady(s, h);
        if threads[c].stat == Ready {
          if threads[c].prio < h {
            to := c;
          } else {
            insertFrom := true;
          }
        }
        if to != c {
          current := Runs(to);
          if insertFrom {
            InsertThread(c);
          }
          RemoveThread(to);
        } else {
          RemoveThread(c);
        }
      }
    }

    lemma HeadReady(s: State, h: nat)
      requires Inv(s) && h < |s.queues| && s.queues[h] != []
      ensures var t := s.queues[h][0]; t in s.threads && s.threads[t].stat == Ready && s.threads[t].prio == h && s.current != Runs(t)
    {
      QueuedIsReady(s, h, 0);
    }

    /** rt_thread_resume */
    method ResumeThread(t: Tid) returns (ok: bool)
      requires Valid() && t in threads
      modifies `threads, `queues, `group, `table
      ensures Valid() && S() == DoResume(old(S()), t)
      ensures ok <==> old(threads)[t].stat == Suspended
      ensures !ok ==> threads == old(threads) && queues == old(queues)
      ensures ok ==>
        && threads == old(threads)[t := old(threads)[t].(stat := Ready)]
        && Stands(queues, current, threads[t].prio, t) && SameButFor(old(queues), queues, t)
    {
      ResumeExact(S(), t);
      hide Stands; hide SameButFor;
      ResumeKeeps(S(), t);
      hide Agrees; hide Index;
      if threads[t].stat != Suspended {
        return false;
      }
      InsertThread(t);
      return true;
    }

    /** rt_thread_suspend on the running thread. */
    method SuspendSelf() returns (ok: bool)
      requires Valid() && current.Runs?
      modifies `threads, `queues, `group, `table
      ensures Valid() && S() == DoSuspend(old(S()), current.t)
      ensures ok <==> old(threads)[current.t].stat == Ready
      ensures queues == old(queues)
      ensures threads == if ok then old(threads)[current.t := old(threads)[current.t].(stat := Suspended)] else old(threads)
    {
      SuspendExact(S());
      SuspendKeeps(S());
      hide Agrees; hide Index;
      var t := current.t;
      if threads[t].stat != Ready {
        return false;
      }
      threads := threads[t := threads[t].(stat := Suspended)];
      RemoveThread(t);
      return true;
    }

    /** rt_thread_startup */
    method StartupThread(t: Tid)
      requires Valid() && t in threads && threads[t].stat == Init
      modifies this
      ensures Valid() && lockNest == old(lockNest)
      ensures S() == Step(old(S()), Startup(t))
      ensures var p := old(threads)[t].initPrio; threads == old(threads)[t := Thread(Stat.Ready, p, p, p / 8, p % 8)]
      ensures old(current) == Nobody ==> LastIn(queues, old(threads)[t].initPrio, t) && SameButFor(old(queues), queues, t)
    {
      StartUpExact(S(), t);
      hide LastIn; hide SameButFor;
      ghost var s := S();
      StartUpKeeps(s, t);
      PreparedKeeps(s, t);
      hide Agrees; hide Index;
      var p := threads[t].initPrio;
      threads := threads[t := threads[t].(prio := p, number := p / 8, high := p % 8)];
      threads := threads[t := threads[t].(stat := Suspended)];
      var resumed := ResumeThread(t);
      if current.Runs? {
        DoSchedule();
      }
    }

    /** rt_thread_timeout: the suspended thread becomes ready, then a schedule. */
    method TimeoutThread(t: Tid)
      requires Valid() && t in threads && threads[t].stat == Suspended && current.Runs?
      modifies this
      ensures Valid() && lockNest == old(lockNest)
      ensures S() == Reschedule(DoResume(old(S()), t))
      ensures threads == old(threads)[t := old(threads)[t].(stat := Stat.Ready)]
    {
      ResumeKeeps(S(), t);
      hide Agrees; hide Index;
      InsertThread(t);
      DoSchedule();
    }

    /** rt_thread_control with RT_THREAD_CTRL_CHANGE_PRIORITY. */
    method SetThreadPriority(t: Tid, p: nat)
      requires Valid() && t in threads && p < LEVELS
      modifies `threads, `queues, `group, `table
      ensures Valid() && S() == ChangePriority(old(S()), t, p)
      ensures threads == old(threads)[t := old(threads)[t].(prio := p, number := p / 8, high := p % 8)]
      ensures SameButFor(old(queues), queues, t)
      ensures if old(threads)[t].stat == Ready then Stands(queues, current, p, t) else queues == old(queues)
    {
      PriorityChanged(S(), t, p);
      hide Stands; hide SameButFor;
      ChangePriorityKeeps(S(), t, p);
      hide Agrees; hide Index;
      if threads[t].stat == Ready {
        RemoveThread(t);
        threads := threads[t := threads[t].(prio := p, number := p / 8, high := p % 8)];
        InsertThread(t);
      } else {
        threads := threads[t := threads[t].(prio := p, number := p / 8, high := p % 8)];
      }
    }

    /** rt_thread_delete, without the defunct list. */
    method DeleteThread(t: Tid)
      requires Valid() && t in threads && threads[t].stat != Closed
      modifies `threads, `queues, `group, `table
      ensures Valid() && S() == DoDelete(old(S()), t)
      ensures threads == old(threads)[t := old(threads)[t].(stat := Closed)]
      ensures Absent(queues, t) && SameButFor(old(queues), queues, t)
    {
      DeleteExact(S(), t);
      hide Absent; hide SameButFor;
      DeleteKeeps(S(), t);
      hide Agrees; hide Index;
      if threads[t].stat != Init {
        RemoveThread(t);
      }
      threads := threads[t := threads[t].(stat := Closed)];
    }

    /** rt_system_scheduler_start, with at least one thread started. */
    method StartScheduler()
      requires Valid() && current == Nobody && Highest(queues) < LEVELS
      modifies this
      ensures Valid() && S() == Step(old(S()), Begin)
      ensures var h := Highest(old(queues));
        current == Runs(old(queues)[h][0]) && queues == old(queues)[h := old(queues)[h][1..]] && threads == old(threads) && lockNest == old(lockNest)
      ensures current.Runs? && current.t in threads && threads[current.t].stat == Ready
      ensures forall p :: 0 <= p < |queues| && queues[p] != [] ==> threads[current.t].prio <= p
    {
      FirstRunKeeps(S());
      LookUp(group, table, queues);
      var to, h := GetHighest();
      HeadReady(S(), h);
      hide Agrees; hide Index; hide Highest;
      current := Runs(to);
      RemoveThread(to);
    }

    /** rt_enter_critical */
    method EnterCritical()
      requires Valid()
      modifies `lockNest
      ensures Valid() && S() == Step(old(S()), Enter) && lockNest == old(lockNest) + 1
    {
      NestKeeps(S(), lockNest + 1);
      lockNest := lockNest + 1;
    }

    /** rt_exit_critical: leaving the outermost section schedules. */
    method ExitCritical()
      requires Valid() && current.Runs?
      modifies this
      ensures Valid() && S() == Step(old(S()), Exit)
      ensures threads == old(threads) && lockNest == if old(lockNest) > 1 then old(lockNest) - 1 else 0
      ensures old(lockNest) > 1 ==> current == old(current) && queues == old(queues)
    {
      ghost var s := S();
      NestKeeps(s, if lockNest <= 1 then 0 else lockNest - 1);
      lockNest := lockNest - 1;
      if lockNest <= 0 {
        lockNest := 0;
        DoSchedule();
      }
    }
  }
}
