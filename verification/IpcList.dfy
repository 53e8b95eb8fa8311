/** The suspend lists of IPC objects (ipc.c): how a thread enters one, and the bookkeeping of
    threads that have been resumed but have not yet re-checked the condition they wait for. */
module IpcList {
  import opened Lists

  type Tid = nat

  datatype Flag = Fifo | Prio

  function InsertAt(s: seq<Tid>, k: nat, t: Tid): (r: seq<Tid>)
    requires k <= |s|
  {
    s[..k] + [t] + s[k..]
  }

  function RemoveAt(s: seq<Tid>, k: nat): (r: seq<Tid>)
    requires k < |s|
  {
    s[..k] + s[k + 1..]
  }

  /** Where rt_ipc_list_suspend puts a thread: behind every thread that is at least as urgent
      (a smaller number is more urgent), or simply last on a FIFO object. */
  ghost predicate SuspendPosition(flag: Flag, prio: Tid -> nat, s: seq<Tid>, t: Tid, k: nat) {
    && k <= |s|
    && (flag == Fifo ==> k == |s|)
    && (flag == Prio ==> (forall i :: 0 <= i < k ==> prio(s[i]) <= prio(t)) && (k < |s| ==> prio(t) < prio(s[k])))
  }

  /** rt_ipc_list_suspend */
  method Suspend(flag: Flag, prio: Tid -> nat, s: seq<Tid>, t: Tid) returns (r: seq<Tid>, k: nat)
    ensures k <= |s| && SuspendPosition(flag, prio, s, t, k) && r == InsertAt(s, k, t)
  {
    match flag {
      case Fifo =>
        k := |s|;
      case Prio =>
        k := 0;
        while k < |s| && !(prio(t) < prio(s[k]))
          invariant k <= |s| && forall i :: 0 <= i < k ==> prio(s[i]) <= prio(t)
        {
          k := k + 1;
        }
    }
    r := InsertAt(s, k, t);
  }

  /** A suspend list after rt_ipc_list_resume on its first thread, if there is one. */
  function Woken(s: seq<Tid>): seq<Tid> {
    if s == [] then [] else s[1..]
  }

  ghost predicate Sorted(prio: Tid -> nat, s: seq<Tid>) {
    forall i, j :: 0 <= i < j < |s| ==> prio(s[i]) <= prio(s[j])
  }

  /** A priority-ordered list stays one, and equally urgent threads keep their arrival order. */
  lemma SuspendSorted(prio: Tid -> nat, s: seq<Tid>, t: Tid, k: nat)
    requires Sorted(prio, s) && SuspendPosition(Prio, prio, s, t, k)
    ensures Sorted(prio, InsertAt(s, k, t))
    ensures forall i :: 0 <= i < |s| && prio(s[i]) == prio(t) ==> i < k
  {
    var r := InsertAt(s, k, t);
    assert forall i :: 0 <= i < |r| ==> r[i] == if i < k then s[i] else if i == k then t else s[i - 1];
  }

  lemma RemoveSorted(prio: Tid -> nat, s: seq<Tid>, k: nat)
    requires Sorted(prio, s) && k < |s|
    ensures Sorted(prio, RemoveAt(s, k))
  {
    var r := RemoveAt(s, k);
    assert forall i :: 0 <= i < |r| ==> r[i] == if i < k then s[i] else s[i + 1];
  }

  // ---- Waiters that re-check ----------------------------------------------------------------------

  /** One waiting side of an IPC object.  `waiting` are suspended on the list.  `woken` were resumed
      with RT_EOK and have still to run the loop test again; other threads may get there first. */
  datatype Side = Side(waiting: seq<Tid>, woken: set<Tid>) {

    ghost predicate Ok() {
      Distinct(waiting) && forall t :: t in waiting ==> t !in woken
    }

    /** rt_ipc_list_resume on a list that may be empty. */
    function WakeOne(): Side {
      if waiting == [] then this else Side(waiting[1..], woken + {waiting[0]})
    }

    /** Thread `t` runs its loop test, for the first time or after being woken. */
    function Checks(t: Tid): Side { this.(woken := woken - {t}) }

    function Suspends(t: Tid, k: nat): Side
      requires k <= |waiting|
    {
      Side(InsertAt(waiting, k, t), woken - {t})
    }

    /** The thread timer of waiter `k` fires: it leaves with an error. */
    function TimesOut(k: nat): Side
      requires k < |waiting|
    {
      this.(waiting := RemoveAt(waiting, k))
    }

    /** rt_ipc_list_resume_all: everyone leaves with an error. */
    function WakeAll(): Side { this.(waiting := []) }
  }

  /** Nobody sleeps beside units that no woken thread is on its way to take. */
  ghost predicate NoLostWakeup(units: nat, side: Side) {
    side.waiting != [] ==> units <= |side.woken|
  }

  lemma InsertDistinct(s: seq<Tid>, k: nat, t: Tid)
    requires Distinct(s) && k <= |s| && t !in s
    ensures Distinct(InsertAt(s, k, t)) && forall x :: x in InsertAt(s, k, t) <==> x in s || x == t
  {
    var r := InsertAt(s, k, t);
    assert forall i :: 0 <= i < |r| ==> r[i] == if i < k then s[i] else if i == k then t else s[i - 1];
    assert s == s[..k] + s[k..];
  }

  lemma RemoveDistinct(s: seq<Tid>, k: nat)
    requires Distinct(s) && k < |s|
    ensures Distinct(RemoveAt(s, k)) && forall x :: x in RemoveAt(s, k) <==> x in s && x != s[k]
  {
    var r := RemoveAt(s, k);
    assert forall i :: 0 <= i < |r| ==> r[i] == if i < k then s[i] else s[i + 1];
    assert s == s[..k] + [s[k]] + s[k + 1..];
  }

  /** The thread woken is the first of the list: on a PRIO object the most urgent, on a FIFO object, where everybody is put
      last, the one that waits longest. All others keep their places. */
  lemma WakesFirst(side: Side, prio: Tid -> nat)
    requires side.Ok() && side.waiting != []
    ensures var t, r := side.waiting[0], side.WakeOne();
      && r.waiting == Without(side.waiting, t) && r.woken == side.woken + {t} && t !in r.waiting
      && (Sorted(prio, side.waiting) ==> forall u :: u in side.waiting ==> prio(t) <= prio(u))
  {
    WithoutSplit(side.waiting, 0);
    assert side.waiting[..0] + side.waiting[1..] == side.waiting[1..];
    DistinctHead(side.waiting);
  }

  lemma WakesNobody(side: Side)
    requires side.waiting == []
    ensures side.WakeOne() == side
  {
  }

  /** Exactly the waiter whose time is up leaves; it is not woken, and the others keep their places. */
  lemma TimesOutOne(side: Side, k: nat)
    requires side.Ok() && k < |side.waiting|
    ensures side.TimesOut(k).waiting == Without(side.waiting, side.waiting[k]) && side.TimesOut(k).woken == side.woken
    ensures side.waiting[k] !in side.TimesOut(k).waiting
  {
    WithoutSplit(side.waiting, k);
    RemoveDistinct(side.waiting, k);
  }

  /** A thread that goes to sleep is no longer on its way to take anything, and nobody else is moved. */
  lemma SuspendsOne(side: Side, t: Tid, k: nat)
    requires side.Ok() && k <= |side.waiting| && t !in side.waiting
    ensures var r := side.Suspends(t, k);
      Without(r.waiting, t) == side.waiting && k < |r.waiting| && r.waiting[k] == t && r.woken == side.woken - {t}
  {
    var r := side.Suspends(t, k);
    InsertDistinct(side.waiting, k, t);
    WithoutSplit(r.waiting, k);
    assert r.waiting[..k] + r.waiting[k + 1..] == side.waiting;
  }

  /** One unit appears and one waiter is woken for it. */
  lemma PutKeeps(units: nat, side: Side)
    requires side.Ok() && NoLostWakeup(units, side)
    ensures side.WakeOne().Ok() && NoLostWakeup(units + 1, side.WakeOne())
  {
    if side.waiting != [] {
      assert side.waiting == [side.waiting[0]] + side.waiting[1..];
    }
  }

  /** A thread takes a unit, whether it was woken for it or overtakes those who were. */
  lemma TakeKeeps(units: nat, side: Side, t: Tid)
    requires 0 < units && side.Ok() && NoLostWakeup(units, side)
    ensures side.Checks(t).Ok() && NoLostWakeup(units - 1, side.Checks(t))
  {
  }

  /** A thread that finds nothing goes, or goes back, to sleep. */
  lemma SuspendKeeps(side: Side, t: Tid, k: nat)
    requires side.Ok() && k <= |side.waiting| && t !in side.waiting
    ensures side.Suspends(t, k).Ok() && NoLostWakeup(0, side.Suspends(t, k))
  {
    InsertDistinct(side.waiting, k, t);
  }

  lemma TimeoutKeeps(units: nat, side: Side, k: nat)
    requires side.Ok() && k < |side.waiting| && NoLostWakeup(units, side)
    ensures side.TimesOut(k).Ok() && NoLostWakeup(units, side.TimesOut(k))
  {
    RemoveDistinct(side.waiting, k);
  }

  /** A thread gives up, or errs, when there was nothing to take. */
  lemma ChecksKeeps(units: nat, side: Side, t: Tid)
    requires units == 0 && side.Ok()
    ensures side.Checks(t).Ok() && NoLostWakeup(units, side.Checks(t))
  {
  }

  lemma WakeAllKeeps(units: nat, side: Side)
    ensures side.WakeAll().Ok() && NoLostWakeup(units, side.WakeAll())
  {
  }
}
