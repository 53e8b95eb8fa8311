/** The mutex of ipc.c: nested holding, direct hand-over to the first waiter, and priority
    inheritance.  A smaller number is a more urgent priority.  One mutex is modelled; the
    threads' priorities change only through it. */
module Mutex {
  import opened Lists
  import opened IpcList

  datatype Owner = Nobody | By(t: Tid)

  const NO_PRIORITY := 0xff
  const HOLD_WRAP := 0x100             // hold is an 8-bit field

  /** `prio` are the threads' current priorities; `base` those they had when the run began. */
  datatype State = State(
    flag: Flag, base: seq<nat>, prio: seq<nat>,
    value: nat, owner: Owner, original: nat, hold: nat, waiters: seq<Tid>)

  function Of(p: seq<nat>): Tid -> nat {
    (t: Tid) => if t < |p| then p[t] else 0
  }

  datatype Action =
    | Take(t: Tid, wait: bool, k: nat)
    | Release(t: Tid)
    | Timeout(k: nat)

  ghost predicate Enabled(s: State, a: Action) {
    match a
    case Take(t, _, k) => t < |s.prio| && t !in s.waiters && SuspendPosition(s.flag, Of(s.prio), s.waiters, t, k)
    case Release(t) => t < |s.prio| && t !in s.waiters
    case Timeout(k) => k < |s.waiters|
  }

  /** Raising the owner to the waiter's priority (rt_thread_control in rt_mutex_take). */
  function Boost(s: State, t: Tid): seq<nat>
    requires t < |s.prio|
  {
    if s.owner.By? && s.owner.t < |s.prio| && s.prio[t] < s.prio[s.owner.t]
    then s.prio[s.owner.t := s.prio[t]] else s.prio
  }

  function Step(s: State, a: Action): (r: State)
    requires a.Take? ==> a.t < |s.prio| && a.k <= |s.waiters|
    requires a.Release? ==> a.t < |s.prio|
    requires a.Timeout? ==> a.k < |s.waiters|
  {
    match a
    case Take(t, wait, k) =>
      if s.owner == By(t) then s.(hold := (s.hold + 1) % HOLD_WRAP)
      else if s.value > 0 then
        s.(value := s.value - 1, owner := By(t), original := s.prio[t], hold := (s.hold + 1) % HOLD_WRAP)
      else if !wait then s
      else s.(prio := Boost(s, t), waiters := InsertAt(s.waiters, k, t))
    case Release(t) =>
      if s.owner != By(t) then s
      else
        var hold := (s.hold + HOLD_WRAP - 1) % HOLD_WRAP;
        if hold != 0 then s.(hold := hold)
        else
          var prio := s.prio[t := s.original];
          if s.waiters == [] then
            s.(prio := prio, hold := 0, value := s.value + 1, owner := Nobody, original := NO_PRIORITY)
          else
            var w := s.waiters[0];
            s.(prio := prio, hold := 1, owner := By(w), original := Of(prio)(w), waiters := s.waiters[1..])
    case Timeout(k) => s.(waiters := RemoveAt(s.waiters, k))
  }

  ghost function Run(s: State, run: seq<Action>): State
    decreases |run|
  {
    if run == [] then s
    else Run(if Enabled(s, run[0]) then Step(s, run[0]) else s, run[1..])
  }

  // ---- What every state satisfies -----------------------------------------------------------------

  /** Owner, value, hold and waiters agree. */
  ghost predicate Consistent(s: State) {
    && |s.base| == |s.prio| && Distinct(s.waiters)
    && (forall i :: 0 <= i < |s.waiters| ==> s.waiters[i] < |s.prio|)
    && (s.owner == Nobody ==> s.value == 1 && s.hold == 0 && s.waiters == [] && s.original == NO_PRIORITY)
    && (s.owner.By? ==> s.owner.t < |s.prio| && s.owner.t !in s.waiters && s.value == 0 && 1 <= s.hold < HOLD_WRAP)
  }

  /** Only the owner's priority is ever raised, and it is remembered. */
  ghost predicate Remembered(s: State) {
    && |s.base| == |s.prio|
    && (forall t :: 0 <= t < |s.prio| && s.owner != By(t) ==> s.prio[t] == s.base[t])
    && (s.owner.By? && s.owner.t < |s.prio| ==> s.original == s.base[s.owner.t] && s.prio[s.owner.t] <= s.original)
  }

  /** The owner is at least as urgent as every waiter. */
  ghost predicate Inherits(s: State) {
    s.owner.By? ==> forall i :: 0 <= i < |s.waiters| ==> Of(s.prio)(s.owner.t) <= Of(s.prio)(s.waiters[i])
  }

  ghost predicate Inv(s: State) {
    Consistent(s) && Remembered(s) && (s.flag == Prio ==> Sorted(Of(s.prio), s.waiters) && Inherits(s))
  }

  /** A nested take must not run the 8-bit counter over. */
  predicate NoOverrun(s: State, a: Action) {
    a.Take? && s.owner == By(a.t) ==> s.hold + 1 < HOLD_WRAP
  }

  lemma StepConsistent(s: State, a: Action)
    requires Consistent(s) && Enabled(s, a) && NoOverrun(s, a)
    ensures Consistent(Step(s, a))
  {
    match a
    case Take(t, wait, k) => TakeConsistent(s, t, wait, k);
    case Release(t) =>
      if s.waiters != [] {
        assert s.waiters == [s.waiters[0]] + s.waiters[1..];
      }
    case Timeout(k) => RemoveDistinct(s.waiters, k);
  }

  lemma TakeConsistent(s: State, t: Tid, wait: bool, k: nat)
    requires Consistent(s) && Enabled(s, Take(t, wait, k)) && NoOverrun(s, Take(t, wait, k))
    ensures Consistent(Step(s, Take(t, wait, k)))
  {
    InsertDistinct(s.waiters, k, t);
  }

  lemma StepRemembered(s: State, a: Action)
    requires Consistent(s) && Remembered(s) && Enabled(s, a)
    ensures Remembered(Step(s, a))
  {
  }

  lemma TakeInherits(s: State, t: Tid, wait: bool, k: nat)
    requires Inv(s) && s.flag == Prio && Enabled(s, Take(t, wait, k))
    ensures var r := Step(s, Take(t, wait, k)); Sorted(Of(r.prio), r.waiters) && Inherits(r)
  {
    if s.owner.By? && s.owner != By(t) && wait {
      var p := Boost(s, t);
      assert forall i :: 0 <= i < |s.waiters| ==> Of(p)(s.waiters[i]) == Of(s.prio)(s.waiters[i]);
      SuspendSorted(Of(p), s.waiters, t, k);
      var mine := Of(p)(s.owner.t);
      AllWith(s.waiters, k, t, (u: Tid) => mine <= Of(p)(u));
    }
  }

  /** What holds of the waiters and the newcomer holds of the list with the newcomer in it. */
  lemma AllWith(l: seq<Tid>, k: nat, t: Tid, ok: Tid -> bool)
    requires k <= |l| && ok(t) && forall i :: 0 <= i < |l| ==> ok(l[i])
    ensures forall i :: 0 <= i < |InsertAt(l, k, t)| ==> ok(InsertAt(l, k, t)[i])
  {
    var r := InsertAt(l, k, t);
    forall i | 0 <= i < |r| ensures ok(r[i]) {
      assert r[i] == if i < k then l[i] else if i == k then t else l[i - 1];
    }
  }

  lemma ReleaseInherits(s: State, t: Tid)
    requires Inv(s) && s.flag == Prio && Enabled(s, Release(t))
    ensures var r := Step(s, Release(t)); Sorted(Of(r.prio), r.waiters) && Inherits(r)
  {
    if s.owner == By(t) && s.hold == 1 {
      var p := s.prio[t := s.original];
      assert forall i :: 0 <= i < |s.waiters| ==> Of(p)(s.waiters[i]) == Of(s.prio)(s.waiters[i]);
    }
  }

  lemma TimeoutInherits(s: State, k: nat)
    requires Inv(s) && s.flag == Prio && k < |s.waiters|
    ensures var r := Step(s, Timeout(k)); Sorted(Of(r.prio), r.waiters) && Inherits(r)
  {
    RemoveSorted(Of(s.prio), s.waiters, k);
    var r := RemoveAt(s.waiters, k);
    assert forall i :: 0 <= i < |r| ==> r[i] == if i < k then s.waiters[i] else s.waiters[i + 1];
  }

  lemma StepKeepsInv(s: State, a: Action)
    requires Inv(s) && Enabled(s, a) && NoOverrun(s, a)
    ensures Inv(Step(s, a))
  {
    hide Consistent; hide Remembered; hide Inherits; hide Sorted; hide InsertAt; hide RemoveAt; hide Boost;
    StepConsistent(s, a);
    StepRemembered(s, a);
    if s.flag == Prio {
      match a
      case Take(t, wait, k) => TakeInherits(s, t, wait, k);
      case Release(t) => ReleaseInherits(s, t);
      case Timeout(k) => TimeoutInherits(s, k);
    }
  }

  ghost predicate NoOverruns(s: State, run: seq<Action>)
    decreases |run|
  {
    run != [] ==>
      && (Enabled(s, run[0]) ==> NoOverrun(s, run[0]))
      && NoOverruns(if Enabled(s, run[0]) then Step(s, run[0]) else s, run[1..])
  }

  /** Every reachable state of every run that never nests 256 deep. */
  lemma {:induction false} RunKeepsInv(s: State, run: seq<Action>)
    requires Inv(s) && NoOverruns(s, run)
    ensures Inv(Run(s, run))
    decreases |run|
  {
    hide Inv; hide Step;
    if run != [] {
      if Enabled(s, run[0]) {
        StepKeepsInv(s, run[0]);
      }
      RunKeepsInv(if Enabled(s, run[0]) then Step(s, run[0]) else s, run[1..]);
    }
  }

  function Initial(flag: Flag, prio: seq<nat>): State {
    State(flag, prio, prio, 1, Nobody, NO_PRIORITY, 0, [])
  }

  lemma InheritanceHolds(prio: seq<nat>, run: seq<Action>)
    requires NoOverruns(Initial(Prio, prio), run)
    ensures Inv(Run(Initial(Prio, prio), run))
  {
    RunKeepsInv(Initial(Prio, prio), run);
  }

  // ---- Consequences -----------------------------------------------------------------------------------

  /** The outermost release gives the thread its own priority back, whatever waiters came, timed
      out or stayed; the mutex goes to the most urgent waiter, the first of its priority. */
  lemma OutermostRelease(s: State, t: Tid)
    requires Inv(s) && Enabled(s, Release(t)) && s.owner == By(t) && s.hold == 1
    ensures var r := Step(s, Release(t));
            && r.prio == r.base && r.base == s.base
            && (s.waiters == [] ==> r.owner == Nobody)
            && (s.waiters != [] ==> r.owner == By(s.waiters[0]))
            && (s.waiters != [] && s.flag == Prio ==>
                  forall i :: 0 <= i < |s.waiters| ==> Of(s.base)(s.waiters[0]) <= Of(s.base)(s.waiters[i]))
  {
    var r := Step(s, Release(t));
    assert forall u :: 0 <= u < |r.prio| ==> r.prio[u] == r.base[u];
    assert forall i :: 0 <= i < |s.waiters| ==> Of(s.prio)(s.waiters[i]) == Of(s.base)(s.waiters[i]);
  }

  /** A thread that takes a mutex it cannot have and does not wait for changes nothing. One that waits stands where its
      flag puts it, and at most the owner's priority changes, to its own if that is more urgent. */
  lemma TakeExact(s: State, t: Tid, wait: bool, k: nat)
    requires Inv(s) && Enabled(s, Take(t, wait, k)) && s.owner.By? && s.owner != By(t)
    ensures var o, r := s.owner.t, Step(s, Take(t, wait, k));
      if !wait then r == s
      else
        && r.owner == s.owner && r.hold == s.hold && r.value == s.value && r.original == s.original
        && k < |r.waiters| && r.waiters[k] == t && Without(r.waiters, t) == s.waiters
        && |r.prio| == |s.prio| && r.prio[o] <= s.prio[o] && r.prio[o] <= s.prio[t] && (r.prio[o] == s.prio[o] || r.prio[o] == s.prio[t])
        && forall u :: 0 <= u < |s.prio| && u != o ==> r.prio[u] == s.prio[u]
  {
    hide InsertAt; hide Without; hide Sorted; hide Inherits; hide Remembered; hide SuspendPosition;
    if wait {
      assert k <= |s.waiters| by { Position(s, t, wait, k); }
      Inserted(s.waiters, k, t);
    }
  }

  lemma Position(s: State, t: Tid, wait: bool, k: nat)
    requires Enabled(s, Take(t, wait, k))
    ensures k <= |s.waiters|
  {
  }

  lemma Inserted(l: seq<Tid>, k: nat, t: Tid)
    requires Distinct(l) && k <= |l| && t !in l
    ensures var r := InsertAt(l, k, t); k < |r| && r[k] == t && Without(r, t) == l
  {
    var r := InsertAt(l, k, t);
    InsertDistinct(l, k, t);
    WithoutSplit(r, k);
    assert r[..k] + r[k + 1..] == l;
  }

  /** A waiter whose time is up leaves, alone, and the boost it gave stays. */
  lemma TimeoutExact(s: State, k: nat)
    requires Inv(s) && k < |s.waiters|
    ensures var r := Step(s, Timeout(k));
      && r.waiters == Without(s.waiters, s.waiters[k]) && s.waiters[k] !in r.waiters
      && r == s.(waiters := r.waiters)
  {
    WithoutSplit(s.waiters, k);
    RemoveDistinct(s.waiters, k);
  }

  /** The threads that came to wait since the owner took the mutex, when `acc` had come before. */
  ghost function Comers(s: State, run: seq<Action>, acc: seq<Tid>): seq<Tid>
    decreases |run|
  {
    if run == [] then acc
    else if !Enabled(s, run[0]) then Comers(s, run[1..], acc)
    else Comers(Step(s, run[0]), run[1..], NowCome(s, run[0], acc))
  }

  ghost function NowCome(s: State, a: Action, acc: seq<Tid>): seq<Tid> {
    if a.Release? && s.owner == By(a.t) && s.hold == 1 then []
    else if a.Take? && a.wait && s.owner.By? && s.owner != By(a.t) then acc + [a.t]
    else acc
  }

  /** The owner runs at the most urgent of its own priority and those of the threads `acc`. */
  ghost predicate Lifted(s: State, acc: seq<Tid>) {
    if s.owner == Nobody then acc == []
    else
      var p := Of(s.prio)(s.owner.t);
      && p <= Of(s.base)(s.owner.t) && (forall i :: 0 <= i < |acc| ==> p <= Of(s.base)(acc[i]))
      && (p == Of(s.base)(s.owner.t) || exists i :: 0 <= i < |acc| && p == Of(s.base)(acc[i]))
  }

  lemma StepLifts(s: State, a: Action, acc: seq<Tid>)
    requires Inv(s) && Lifted(s, acc) && Enabled(s, a)
    ensures Lifted(Step(s, a), NowCome(s, a, acc)) && Step(s, a).base == s.base
  {
    if a.Take? && a.wait && s.owner.By? && s.owner != By(a.t) {
      ComerLifts(s, a.t, a.k, acc);
    } else {
      hide Sorted; hide Inherits; hide SuspendPosition;
    }
  }

  lemma ComerLifts(s: State, t: Tid, k: nat, acc: seq<Tid>)
    requires Inv(s) && Lifted(s, acc) && Enabled(s, Take(t, true, k)) && s.owner.By? && s.owner != By(t)
    ensures Lifted(Step(s, Take(t, true, k)), acc + [t]) && Step(s, Take(t, true, k)).base == s.base
  {
    TakeExact(s, t, true, k);
    assert s.prio[t] == s.base[t];
    var o, r := s.owner.t, Step(s, Take(t, true, k));
    LiftedMore(s.base, acc, t, s.base[o], s.prio[o], r.prio[o]);
  }

  lemma LiftedMore(base: seq<nat>, acc: seq<Tid>, t: Tid, own: nat, p: nat, q: nat)
    requires p <= own && (forall i :: 0 <= i < |acc| ==> p <= Of(base)(acc[i]))
    requires p == own || exists i :: 0 <= i < |acc| && p == Of(base)(acc[i])
    requires q <= p && q <= Of(base)(t) && (q == p || q == Of(base)(t))
    ensures var more := acc + [t];
      && q <= own && (forall i :: 0 <= i < |more| ==> q <= Of(base)(more[i]))
      && (q == own || exists i :: 0 <= i < |more| && q == Of(base)(more[i]))
  {
    var more := acc + [t];
    assert more[|acc|] == t && forall i :: 0 <= i < |acc| ==> more[i] == acc[i];
    if q == p && p != own {
      var i :| 0 <= i < |acc| && p == Of(base)(acc[i]);
      assert more[i] == acc[i];
    }
  }

  /** In every run the owner's priority is exactly the most urgent of its own and those of all threads that came to wait
      since it took the mutex, on mutexes of both flags, and whether these still wait or not. */
  lemma {:induction false} RunLifts(s: State, run: seq<Action>, acc: seq<Tid>)
    requires Inv(s) && NoOverruns(s, run) && Lifted(s, acc)
    ensures Lifted(Run(s, run), Comers(s, run, acc)) && Run(s, run).base == s.base
    decreases |run|
  {
    hide Inv; hide Step; hide Lifted; hide NowCome;
    if run != [] {
      if Enabled(s, run[0]) {
        StepKeepsInv(s, run[0]);
        StepLifts(s, run[0], acc);
        RunLifts(Step(s, run[0]), run[1..], NowCome(s, run[0], acc));
      } else {
        RunLifts(s, run[1..], acc);
      }
    }
  }

  lemma PriorityIsInherited(flag: Flag, prio: seq<nat>, run: seq<Action>)
    requires NoOverruns(Initial(flag, prio), run)
    ensures var s := Run(Initial(flag, prio), run); s.base == prio && Lifted(s, Comers(Initial(flag, prio), run, []))
  {
    RunLifts(Initial(flag, prio), run, []);
  }

  predicate ByThread(a: Action, t: Tid) { (a.Take? || a.Release?) && a.t == t }

  /** Mutual exclusion: nobody else's action takes the mutex away from its owner. */
  lemma OnlyTheOwnerGivesUp(s: State, a: Action, t: Tid)
    requires Inv(s) && Enabled(s, a) && s.owner == By(t) && !ByThread(a, t)
    ensures Step(s, a).owner == By(t) && Step(s, a).hold == s.hold
  {
  }

  /** How deep thread `t` holds the mutex. */
  function Depth(s: State, t: Tid): nat { if s.owner == By(t) then s.hold else 0 }

  /** Takes and releases of the owner nest. */
  lemma DepthCounts(s: State, t: Tid, k: nat)
    requires Inv(s) && s.owner == By(t) && t < |s.prio| && k <= |s.waiters|
    ensures s.hold + 1 < HOLD_WRAP ==> Depth(Step(s, Take(t, true, k)), t) == Depth(s, t) + 1
    ensures Depth(Step(s, Release(t)), t) == Depth(s, t) - 1
  {
  }

  /** The 256th nested take wraps the counter: the state keeps its meaning exactly when there was
      room in the counter. */
  lemma NestedTakeExact(s: State, t: Tid, wait: bool, k: nat)
    requires Inv(s) && Enabled(s, Take(t, wait, k)) && s.owner == By(t)
    ensures Inv(Step(s, Take(t, wait, k))) <==> s.hold + 1 < HOLD_WRAP
  {
    if s.hold + 1 < HOLD_WRAP {
      StepKeepsInv(s, Take(t, wait, k));
    }
  }

  /** On a FIFO mutex a hand-over does not boost the new owner to the waiters behind it: it inherits
      exactly when it happens to be at least as urgent as all of them. */
  lemma FifoHandOverExact(s: State, t: Tid)
    requires Inv(s) && s.flag == Fifo && Enabled(s, Release(t)) && s.owner == By(t) && s.hold == 1 && s.waiters != []
    ensures Inherits(Step(s, Release(t))) <==>
            forall i :: 0 < i < |s.waiters| ==> s.base[s.waiters[0]] <= Of(s.base)(s.waiters[i])
  {
    var r := Step(s, Release(t));
    OutermostRelease(s, t);
    assert forall i :: 0 <= i < |r.waiters| ==> r.waiters[i] == s.waiters[i + 1];
    assert forall i :: 0 < i < |s.waiters| ==> s.waiters[i] == r.waiters[i - 1];
  }

  /** From initialisation: a thread of priority 5 owns a FIFO mutex, threads of priority 9 and 3 come to wait in this
      order; on release the one of priority 9 owns it while the one of priority 3 waits. */
  lemma FifoHandOverFails()
    ensures var run := [Take(0, true, 0), Take(1, true, 0), Take(2, true, 1), Release(0)];
      var s := Run(Initial(Fifo, [5, 9, 3]), run);
      NoOverruns(Initial(Fifo, [5, 9, 3]), run) && s.owner == By(1) && s.waiters == [2] && s.prio == [5, 9, 3] && !Inherits(s)
  {
    var a0, a1, a2, a3 := Take(0, true, 0), Take(1, true, 0), Take(2, true, 1), Release(0);
    FifoSteps();
    hide Step;
    hide Enabled;
    hide Run;
    hide NoOverruns;
    assert [a0, a1, a2, a3] == [a0] + [a1, a2, a3] && [a1, a2, a3] == [a1] + [a2, a3] && [a2, a3] == [a2] + [a3] && [a3] == [a3] + [];
    RunFirst(Initial(Fifo, [5, 9, 3]), a0, [a1, a2, a3]);
    RunFirst(OWNED, a1, [a2, a3]);
    RunFirst(ONE_WAITS, a2, [a3]);
    RunFirst(TWO_WAIT, a3, []);
    RunNone(HANDED_OVER);
    assert HANDED_OVER.waiters[0] == 2 && Of(HANDED_OVER.prio)(2) == 3 && Of(HANDED_OVER.prio)(1) == 9;
  }

  lemma RunNone(s: State)
    ensures Run(s, []) == s && NoOverruns(s, [])
  {
  }

  const OWNED := State(Fifo, [5, 9, 3], [5, 9, 3], 0, By(0), 5, 1, [])
  const ONE_WAITS := OWNED.(waiters := [1])
  const TWO_WAIT := OWNED.(waiters := [1, 2], prio := [3, 9, 3])
  const HANDED_OVER := State(Fifo, [5, 9, 3], [5, 9, 3], 0, By(1), 9, 1, [2])

  lemma FifoSteps()
    ensures var s := Initial(Fifo, [5, 9, 3]); Enabled(s, Take(0, true, 0)) && Step(s, Take(0, true, 0)) == OWNED
    ensures Enabled(OWNED, Take(1, true, 0)) && Step(OWNED, Take(1, true, 0)) == ONE_WAITS
    ensures Enabled(ONE_WAITS, Take(2, true, 1)) && Step(ONE_WAITS, Take(2, true, 1)) == TWO_WAIT
    ensures Enabled(TWO_WAIT, Release(0)) && Step(TWO_WAIT, Release(0)) == HANDED_OVER
  {
    assert [5, 9, 3][0 := 3] == [3, 9, 3] && [3, 9, 3][0 := 5] == [5, 9, 3];
    assert InsertAt([], 0, 1) == [1] && InsertAt([1], 1, 2) == [1, 2] && [1, 2][1..] == [2];
  }

  lemma RunFirst(s: State, a: Action, rest: seq<Action>)
    requires Enabled(s, a)
    ensures Run(s, [a] + rest) == Run(Step(s, a), rest)
    ensures NoOverruns(s, [a] + rest) <==> NoOverrun(s, a) && NoOverruns(Step(s, a), rest)
  {
    assert ([a] + rest)[1..] == rest;
  }

  /** `n` takes by thread 0. */
  function Takes(n: nat): (r: seq<Action>)
    ensures |r| == n
  {
    if n == 0 then [] else [Take(0, true, 0)] + Takes(n - 1)
  }

  lemma {:induction false} TakesCount(s: State, n: nat)
    requires s.prio != [] && s.waiters == [] && s.owner == By(0)
    ensures Run(s, Takes(n)) == s.(hold := if n == 0 then s.hold else (s.hold + n) % HOLD_WRAP)
    decreases n
  {
    if n > 0 {
      var a := Take(0, true, 0);
      RunFirst(s, a, Takes(n - 1));
      TakesCount(Step(s, a), n - 1);
      hide Run;
      WrapOne(s.hold, n);
    }
  }

  lemma WrapOne(h: nat, n: nat)
    requires n > 0
    ensures ((h + 1) % HOLD_WRAP + (n - 1)) % HOLD_WRAP == (h + n) % HOLD_WRAP
  {
  }

  /** From initialisation: 256 takes by one thread leave a state that means nothing, and after one more take a single
      release gives up a mutex that was taken 257 times. */
  lemma OverrunFails(flag: Flag, prio: seq<nat>)
    requires prio != []
    ensures var s := Run(Initial(flag, prio), Takes(256)); s.owner == By(0) && s.hold == 0 && !Inv(s)
    ensures var s := Run(Initial(flag, prio), Takes(257)); Enabled(s, Release(0)) && Step(s, Release(0)).owner == Nobody
  {
    hide Takes;
    hide Run;
    TakesFromStart(flag, prio, 256);
    TakesFromStart(flag, prio, 257);
  }

  lemma TakesFromStart(flag: Flag, prio: seq<nat>, n: nat)
    requires prio != [] && n > 0
    ensures Run(Initial(flag, prio), Takes(n)) == State(flag, prio, prio, 0, By(0), prio[0], n % HOLD_WRAP, [])
  {
    var s0, a := Initial(flag, prio), Take(0, true, 0);
    assert Enabled(s0, a);
    RunFirst(s0, a, Takes(n - 1));
    TakesCount(Step(s0, a), n - 1);
  }

  // ---- The mutex object --------------------------------------------------------------------------

  datatype Outcome = Acquired | TimedOut | Suspended

  class Mutex {
    const flag: Flag
    var value: nat
    var owner: Owner
    var original: nat
    var hold: nat
    var waiters: seq<Tid>
    var prio: seq<nat>                // current_priority of every thread
    ghost var base: seq<nat>

    ghost function St(): State reads this { State(flag, base, prio, value, owner, original, hold, waiters) }

    /** rt_mutex_init */
    constructor (f: Flag, priorities: seq<nat>)
      ensures Inv(St()) && St() == Initial(f, priorities)
    {
      flag, prio, base := f, priorities, priorities;
      value, owner, original, hold, waiters := 1, Nobody, NO_PRIORITY, 0, [];
    }

    /** The section of rt_mutex_take up to returning or suspending. */
    method TakeSection(t: Tid, wait: bool) returns (r: Outcome, ghost k: nat)
      requires Inv(St()) && t < |prio| && t !in waiters
      modifies this
      ensures Enabled(old(St()), Take(t, wait, k)) && St() == Step(old(St()), Take(t, wait, k))
      ensures NoOverrun(old(St()), Take(t, wait, k)) ==> Inv(St())
      ensures r.Acquired? ==> owner == By(t)
      ensures r.Acquired? <==> old(owner) == By(t) || old(owner) == Nobody
      ensures r.Suspended? <==> wait && !r.Acquired?
      ensures r.Acquired? ==> hold == (old(hold) + 1) % HOLD_WRAP && value == 0 && waiters == old(waiters) && prio == old(prio)
      ensures r.Acquired? ==> original == if old(owner) == Nobody then old(prio)[t] else old(original)
      ensures !r.Acquired? ==> owner == old(owner) && hold == old(hold) && value == old(value) && original == old(original)
      ensures r.TimedOut? ==> waiters == old(waiters) && prio == old(prio)
      ensures r.Suspended? ==> SuspendPosition(flag, Of(old(prio)), old(waiters), t, k) && waiters == InsertAt(old(waiters), k, t)
      ensures r.Suspended? ==>
        && old(owner).By? && old(owner).t < |old(prio)|
        && prio == old(prio)[old(owner).t := if old(prio)[t] < old(prio)[old(owner).t] then old(prio)[t] else old(prio)[old(owner).t]]
    {
      hide Inherits; hide Sorted; hide Remembered;
      ghost var s := St();
      // where the thread would be queued; used only when it suspends
      var list, pos := Suspend(flag, Of(prio), waiters, t);
      k := pos;
      if NoOverrun(s, Take(t, wait, k)) {
        StepKeepsInv(s, Take(t, wait, k));
      }
      if owner == By(t) {
        hold := (hold + 1) % HOLD_WRAP;
        return Acquired, k;
      }
      if value > 0 {
        value := value - 1;
        owner, original := By(t), prio[t];
        hold := (hold + 1) % HOLD_WRAP;
        return Acquired, k;
      }
      if !wait {
        return TimedOut, k;
      }
      if prio[t] < prio[owner.t] {
        prio := prio[owner.t := prio[t]];
      }
      waiters := list;
      return Suspended, k;
    }

    /** rt_mutex_release */
    method ReleaseMutex(t: Tid) returns (ok: bool)
      requires Inv(St()) && t < |prio| && t !in waiters
      modifies this
      ensures St() == Step(old(St()), Release(t)) && Inv(St())
      ensures ok <==> old(owner) == By(t)
      ensures ok && old(hold) == 1 ==> prio == old(base)
      ensures !ok ==> St() == old(St())
      ensures ok && old(hold) > 1 ==> St() == old(St()).(hold := old(hold) - 1)
      ensures ok && old(hold) == 1 && old(waiters) == [] ==> owner == Nobody && value == 1 && hold == 0 && waiters == []
      ensures ok && old(hold) == 1 && old(waiters) != [] ==>
        && owner == By(old(waiters)[0]) && waiters == old(waiters)[1..] && value == 0 && hold == 1
        && old(waiters)[0] < |prio| && original == prio[old(waiters)[0]]
    {
      hide Inherits; hide Sorted;
      ghost var s := St();
      StepKeepsInv(s, Release(t));
      if owner != By(t) {
        return false;
      }
      if hold == 1 {
        OutermostRelease(s, t);
      }
      hold := (hold + HOLD_WRAP - 1) % HOLD_WRAP;
      if hold == 0 {
        if original != prio[t] {
          prio := prio[t := original];
        }
        if waiters != [] {
          owner, original := By(waiters[0]), prio[waiters[0]];
          hold := hold + 1;
          waiters := waiters[1..];
        } else {
          value := value + 1;
          owner, original := Nobody, NO_PRIORITY;
        }
      }
      return true;
    }

    /** rt_thread_timeout for the waiter at position `k`. */
    method WaiterTimeout(k: nat)
      requires Inv(St()) && k < |waiters|
      modifies this
      ensures St() == Step(old(St()), Timeout(k)) && Inv(St())
      ensures waiters == RemoveAt(old(waiters), k) && St() == old(St()).(waiters := waiters)
    {
      StepKeepsInv(St(), Timeout(k));
      waiters := RemoveAt(waiters, k);
    }
  }
}
