/** Hard timers as an ordered list of deadlines on an unbounded clock.  This is what the wrapping
    ticks and the skip list of timer.c stand for; `Timer` proves that they do. */
module TimerSpec {
  import opened Lists

  type Id = int

  /** One firing of a timer: when its time-out function ran. */
  datatype Firing = Firing(id: Id, when: int)

  /** `list` holds the started timers; `at` their deadlines, `period` and `cyclic` their settings. */
  datatype World = World(
    now: int, list: seq<Id>, at: map<Id, int>, period: map<Id, int>, cyclic: map<Id, bool>, log: seq<Firing>)

  /** Stable sorted insertion: behind every timer that is due no later. */
  function Insert(l: seq<Id>, at: map<Id, int>, x: Id): (r: seq<Id>)
    requires x in at && forall i :: 0 <= i < |l| ==> l[i] in at
  {
    if l == [] || at[x] < at[l[0]] then [x] + l else [l[0]] + Insert(l[1..], at, x)
  }

  ghost predicate Known(l: seq<Id>, at: map<Id, int>) {
    forall i :: 0 <= i < |l| ==> l[i] in at
  }

  ghost predicate Sorted(l: seq<Id>, at: map<Id, int>)
    requires Known(l, at)
  {
    forall i, j :: 0 <= i < j < |l| ==> at[l[i]] <= at[l[j]]
  }

  /** Deadlines lie in `[lo, hi)`. */
  ghost predicate Within(l: seq<Id>, at: map<Id, int>, lo: int, hi: int)
    requires Known(l, at)
  {
    forall i :: 0 <= i < |l| ==> lo <= at[l[i]] < hi
  }

  /** RT_TICK_MAX / 2: a period must be shorter, and so the pending deadlines span less than half
      the clock. */
  const HALF := 0x7fff_ffff

  /** A cyclic timer has a period; a one-shot timer needs none once it is started. */
  ghost predicate Lasting(w: World, x: Id)
    requires x in w.period && x in w.cyclic
  {
    w.cyclic[x] ==> 1 <= w.period[x] < HALF
  }

  /** A well-formed world whose earliest deadline is `lo` or later. */
  ghost predicate Ordered(w: World, lo: int) {
    && Distinct(w.list) && Known(w.list, w.at) && Sorted(w.list, w.at) && Within(w.list, w.at, lo, w.now + HALF)
    && (forall i :: 0 <= i < |w.list| ==> w.list[i] in w.period && w.list[i] in w.cyclic && Lasting(w, w.list[i]))
  }

  /** Between ticks every pending deadline is in the future. */
  ghost predicate Inv(w: World) { Ordered(w, w.now + 1) }

  function Start(w: World, x: Id, d: int, cyclic: bool): World
    requires forall i :: 0 <= i < |w.list| ==> w.list[i] in w.at
  {
    WithoutMember(w.list, x);
    var at := w.at[x := w.now + d];
    w.(list := Insert(Without(w.list, x), at, x), at := at, period := w.period[x := d], cyclic := w.cyclic[x := cyclic])
  }

  function Stop(w: World, x: Id): World { w.(list := Without(w.list, x)) }

  /** One turn of the check loop: the first timer is taken off, its function runs, and a cyclic
      timer is started again. */
  function FireFirst(w: World): World
    requires w.list != [] && Known(w.list, w.at)
    requires w.list[0] in w.cyclic && w.list[0] in w.period
  {
    var x := w.list[0];
    var w1 := w.(list := w.list[1..], log := w.log + [Firing(x, w.now)]);
    if w.cyclic[x] then Start(w1, x, w.period[x], true) else w1
  }

  lemma {:induction false} WithoutMember(l: seq<Id>, x: Id)
    ensures x !in Without(l, x) && forall y :: y in Without(l, x) <==> y in l && y != x
    ensures forall i :: 0 <= i < |Without(l, x)| ==> Without(l, x)[i] in l && Without(l, x)[i] != x
  {
    if l != [] {
      WithoutMember(l[1..], x);
      assert l == [l[0]] + l[1..];
    }
  }

  lemma {:induction false} WithoutKeeps(l: seq<Id>, at: map<Id, int>, x: Id)
    requires Distinct(l) && Known(l, at) && Sorted(l, at)
    ensures var r := Without(l, x); Distinct(r) && Known(r, at) && Sorted(r, at)
  {
    if l != [] {
      var t := l[1..];
      assert Distinct(t) && Known(t, at) && Sorted(t, at);
      WithoutKeeps(t, at, x);
      WithoutMember(t, x);
      var r := Without(t, x);
      forall y | y in t ensures y != l[0] && at[l[0]] <= at[y] {
        var k :| 0 <= k < |t| && t[k] == y;
        assert l[k + 1] == y;
      }
    }
  }

  lemma {:induction false} InsertMember(l: seq<Id>, at: map<Id, int>, x: Id)
    requires x in at && Known(l, at)
    ensures |Insert(l, at, x)| == |l| + 1 && forall y :: y in Insert(l, at, x) <==> y in l || y == x
  {
    if l == [] || at[x] < at[l[0]] {
    } else {
      InsertMember(l[1..], at, x);
      assert l == [l[0]] + l[1..];
    }
  }

  lemma {:induction false} InsertKeeps(l: seq<Id>, at: map<Id, int>, x: Id)
    requires x in at && Distinct(l) && Known(l, at) && Sorted(l, at) && x !in l
    ensures var r := Insert(l, at, x); Distinct(r) && Known(r, at) && Sorted(r, at)
  {
    if l == [] || at[x] < at[l[0]] {
    } else {
      var t := l[1..];
      InsertKeeps(t, at, x);
      InsertMember(t, at, x);
      var r := Insert(t, at, x);
      forall i | 0 <= i < |r| ensures r[i] != l[0] && at[l[0]] <= at[r[i]] {
        assert r[i] in t || r[i] == x;
        if r[i] in t {
          var k :| 0 <= k < |t| && t[k] == r[i];
          assert l[k + 1] == r[i];
        }
      }
    }
  }

  // ---- Starting and stopping --------------------------------------------------------------------------

  ghost predicate Pending(w: World, lo: int, y: Id) {
    && y in w.at && lo <= w.at[y] < w.now + HALF
    && y in w.period && y in w.cyclic && Lasting(w, y)
  }

  lemma OrderedElim(w: World, lo: int, y: Id)
    requires Ordered(w, lo) && y in w.list
    ensures Pending(w, lo, y)
  {
    var k :| 0 <= k < |w.list| && w.list[k] == y;
  }

  lemma OrderedIntro(w: World, lo: int)
    requires Distinct(w.list) && Known(w.list, w.at) && Sorted(w.list, w.at)
    requires forall y :: y in w.list ==> Pending(w, lo, y)
    ensures Ordered(w, lo)
  {
    hide Distinct;
    hide Sorted;
    forall i | 0 <= i < |w.list| ensures Pending(w, lo, w.list[i]) {
      assert w.list[i] in w.list;
    }
  }

  /** The list after the timer is taken out and put back with its new deadline. */
  lemma StartList(l: seq<Id>, at: map<Id, int>, x: Id, t: int)
    requires Distinct(l) && Known(l, at) && Sorted(l, at)
    ensures var at', rest := at[x := t], Without(l, x);
      && Known(rest, at') && var r := Insert(rest, at', x);
      && Distinct(r) && Known(r, at') && Sorted(r, at') && forall y :: y in r <==> y in l || y == x
  {
    var at', rest := at[x := t], Without(l, x);
    WithoutKeeps(l, at, x);
    WithoutMember(l, x);
    SortedFrame(rest, at, at', x, t);
    hide Sorted;
    hide Distinct;
    InsertKeeps(rest, at', x);
    InsertMember(rest, at', x);
  }

  lemma SortedFrame(l: seq<Id>, at: map<Id, int>, at': map<Id, int>, x: Id, t: int)
    requires Known(l, at) && Sorted(l, at) && x !in l && at' == at[x := t]
    ensures Known(l, at') && Sorted(l, at')
  {
    forall i | 0 <= i < |l| ensures l[i] in at' && at'[l[i]] == at[l[i]] {
      assert l[i] in l;
    }
  }

  lemma StartOrdered(w: World, x: Id, d: int, cyclic: bool, lo: int)
    requires Ordered(w, lo) && 1 <= d < HALF && lo <= w.now + 1
    ensures Ordered(Start(w, x, d, cyclic), lo)
    ensures forall y :: y in Start(w, x, d, cyclic).list <==> y in w.list || y == x
  {
    var r := Start(w, x, d, cyclic);
    StartList(w.list, w.at, x, w.now + d);
    forall y | y in r.list ensures Pending(r, lo, y) {
      if y != x {
        OrderedElim(w, lo, y);
      }
    }
    hide Ordered;
    hide Distinct;
    hide Sorted;
    OrderedIntro(r, lo);
  }

  lemma StopOrdered(w: World, x: Id, lo: int)
    requires Ordered(w, lo)
    ensures Ordered(Stop(w, x), lo)
    ensures forall y :: y in Stop(w, x).list <==> y in w.list && y != x
  {
    WithoutKeeps(w.list, w.at, x);
    WithoutMember(w.list, x);
    var r := Without(w.list, x);
    forall i | 0 <= i < |r| ensures lo <= w.at[r[i]] < w.now + HALF && r[i] in w.period && r[i] in w.cyclic && Lasting(w, r[i]) {
      var k :| 0 <= k < |w.list| && w.list[k] == r[i];
    }
  }

  /** Setting time and mode of a timer leaves the list as it is. */
  lemma ConfigureOrdered(w: World, x: Id, d: int, cyclic: bool, lo: int)
    requires Ordered(w, lo) && (x in w.list && cyclic ==> 1 <= d < HALF)
    ensures Ordered(w.(period := w.period[x := d], cyclic := w.cyclic[x := cyclic]), lo)
  {
    var r := w.(period := w.period[x := d], cyclic := w.cyclic[x := cyclic]);
    hide Distinct;
    hide Sorted;
    forall y | y in r.list ensures Pending(r, lo, y) {
      OrderedElim(w, lo, y);
    }
    OrderedIntro(r, lo);
  }

  // ---- The check loop ------------------------------------------------------------------------------

  /** The due timers, in list order. */
  function Ripe(l: seq<Id>, at: map<Id, int>, now: int): seq<Id>
    requires Known(l, at)
  {
    if l == [] then [] else (if at[l[0]] <= now then [l[0]] else []) + Ripe(l[1..], at, now)
  }

  lemma {:induction false} RipeInsert(l: seq<Id>, at: map<Id, int>, at': map<Id, int>, x: Id, now: int)
    requires Known(l, at) && Known(l, at') && x in at' && now < at'[x] && forall i :: 0 <= i < |l| ==> at'[l[i]] == at[l[i]]
    ensures Known(Insert(l, at', x), at') && Ripe(Insert(l, at', x), at', now) == Ripe(l, at, now)
  {
    InsertMember(l, at', x);
    var r := Insert(l, at', x);
    if l == [] || at'[x] < at'[l[0]] {
      assert r[1..] == l;
      RipeFrame(l, at, at', now);
    } else {
      RipeInsert(l[1..], at, at', x, now);
      assert r[1..] == Insert(l[1..], at', x);
    }
  }

  lemma {:induction false} RipeFrame(l: seq<Id>, at: map<Id, int>, at': map<Id, int>, now: int)
    requires Known(l, at) && Known(l, at') && forall i :: 0 <= i < |l| ==> at'[l[i]] == at[l[i]]
    ensures Ripe(l, at', now) == Ripe(l, at, now)
  {
    if l != [] {
      RipeFrame(l[1..], at, at', now);
    }
  }

  /** Taking the first timer off. */
  lemma TailOrdered(w: World, lo: int, log: seq<Firing>)
    requires Ordered(w, lo) && w.list != []
    ensures Ordered(w.(list := w.list[1..], log := log), lo)
    ensures Without(w.list, w.list[0]) == w.list[1..]
    ensures forall y :: y in w.list[1..] <==> y in w.list && y != w.list[0]
  {
    var t := w.list[1..];
    assert w.list == [w.list[0]] + t;
    WithoutAbsent(t, w.list[0]);
    assert forall i :: 0 <= i < |t| ==> t[i] == w.list[i + 1];
  }

  lemma FireFirstKeeps(w: World)
    requires Ordered(w, w.now) && w.list != [] && w.at[w.list[0]] <= w.now
    ensures var x, r := w.list[0], FireFirst(w);
            && Ordered(r, w.now) && r.now == w.now && r.log == w.log + [Firing(x, w.now)]
            && (forall y :: y in r.list <==> (y in w.list && y != x) || (y == x && w.cyclic[x]))
            && (forall y :: y != x && y in w.at ==> y in r.at && r.at[y] == w.at[y])
            && (w.cyclic[x] ==> r.at[x] == w.now + w.period[x])
            && (forall y :: y in w.list ==> y in r.period && r.period[y] == w.period[y] && y in r.cyclic && r.cyclic[y] == w.cyclic[y])
            && Ripe(w.list, w.at, w.now) == [x] + Ripe(r.list, r.at, w.now)
  {
    var x, t := w.list[0], w.list[1..];
    var w1 := w.(list := t, log := w.log + [Firing(x, w.now)]);
    TailOrdered(w, w.now, w1.log);
    OrderedElim(w, w.now, x);
    FireFirstRipe(w);
    hide Ripe;
    hide Distinct;
    hide Sorted;
    if w.cyclic[x] {
      StartOrdered(w1, x, w.period[x], true, w.now);
    }
  }

  lemma FireFirstRipe(w: World)
    requires w.list != [] && Known(w.list, w.at) && w.list[0] !in w.list[1..]
    requires w.list[0] in w.cyclic && w.list[0] in w.period && Lasting(w, w.list[0]) && w.at[w.list[0]] <= w.now
    ensures var r := FireFirst(w); Known(r.list, r.at) && Ripe(w.list, w.at, w.now) == [w.list[0]] + Ripe(r.list, r.at, w.now)
  {
    hide Ripe;
    var x, t := w.list[0], w.list[1..];
    RipeFirst(w.list, w.at, w.now);
    if w.cyclic[x] {
      var at := w.at[x := w.now + w.period[x]];
      WithoutAbsent(t, x);
      forall i | 0 <= i < |t| ensures t[i] in at && at[t[i]] == w.at[t[i]] {
        assert t[i] == w.list[i + 1] && t[i] in t;
      }
      RipeInsert(t, w.at, at, x, w.now);
    }
  }

  lemma RipeFirst(l: seq<Id>, at: map<Id, int>, now: int)
    requires Known(l, at) && l != [] && at[l[0]] <= now
    ensures Known(l[1..], at) && Ripe(l, at, now) == [l[0]] + Ripe(l[1..], at, now)
  {
  }

  /** rt_timer_check: fire as long as the first timer is due. */
  ghost function Check(w: World): (r: World)
    requires Ordered(w, w.now)
    decreases |Ripe(w.list, w.at, w.now)|
  {
    if w.list == [] || w.at[w.list[0]] > w.now then w
    else
      FireFirstKeeps(w);
      Check(FireFirst(w))
  }

  function Firings(l: seq<Id>, now: int): (r: seq<Firing>)
    ensures |r| == |l|
  {
    if l == [] then [] else [Firing(l[0], now)] + Firings(l[1..], now)
  }

  /** The check fires exactly the due timers, each once, in list order. */
  lemma {:induction false} CheckFires(w: World)
    requires Ordered(w, w.now)
    ensures var r := Check(w);
            r.now == w.now && Inv(r) && r.log == w.log + Firings(Ripe(w.list, w.at, w.now), w.now)
    decreases |Ripe(w.list, w.at, w.now)|
  {
    if w.list == [] {
    } else if w.at[w.list[0]] > w.now {
      NoneRipe(w.list, w.at, w.now);
    } else {
      FireFirstKeeps(w);
      var w1, x := FireFirst(w), w.list[0];
      CheckFires(w1);
      var rest := Ripe(w1.list, w1.at, w.now);
      assert ([x] + rest)[1..] == rest;
      assert w.log + [Firing(x, w.now)] + Firings(rest, w.now) == w.log + ([Firing(x, w.now)] + Firings(rest, w.now));
    }
  }

  lemma {:induction false} NoneRipe(l: seq<Id>, at: map<Id, int>, now: int)
    requires Known(l, at) && Sorted(l, at) && (l != [] ==> now < at[l[0]])
    ensures Ripe(l, at, now) == [] && forall i :: 0 <= i < |l| ==> now < at[l[i]]
  {
    if l != [] {
      assert |l| > 1 ==> at[l[0]] <= at[l[1]];
      NoneRipe(l[1..], at, now);
    }
  }

  lemma KnownMember(w: World, x: Id)
    requires Ordered(w, w.now) && x in w.list
    ensures x in w.at && w.now <= w.at[x] && x in w.period && x in w.cyclic && Lasting(w, x)
  {
    var k :| 0 <= k < |w.list| && w.list[k] == x;
  }

  /** What the check means for one timer. */
  lemma {:induction false} CheckAffects(w: World, x: Id)
    requires Ordered(w, w.now)
    ensures var r := Check(w);
            && (x in r.list ==> x in w.list && x in r.period && r.period[x] == w.period[x] && x in r.cyclic && r.cyclic[x] == w.cyclic[x])
            && (x in w.list && w.now < w.at[x] ==> x in r.list && x in r.at && r.at[x] == w.at[x])
            && (x in w.list && w.at[x] == w.now ==>
                  (x in r.list <==> w.cyclic[x]) && (w.cyclic[x] ==> x in r.at && r.at[x] == w.now + w.period[x]))
    decreases |Ripe(w.list, w.at, w.now)|
  {
    if w.list != [] && w.at[w.list[0]] <= w.now {
      FireFirstKeeps(w);
      var w1 := FireFirst(w);
      if x in w.list { KnownMember(w, x); }
      if x in w1.list { KnownMember(w1, x); }
      hide Ordered; hide FireFirst; hide Ripe;
      CheckAffects(w1, x);
    } else if x in w.list {
      NoneRipe(w.list, w.at, w.now);
    }
  }

  // ---- Exact firing ------------------------------------------------------------------------------------

  datatype Action =
    | DoStart(x: Id, d: int, cyclic: bool)
    | DoStop(x: Id)
    | Configure(x: Id, d: int, cyclic: bool)
    | Tick

  /** rt_timer_start asserts that the period is below half the clock; a zero period, which would
      make the check loop endless for a cyclic timer, is left out.  Any time may be set on a timer
      that is not pending, or not cyclic. */
  ghost predicate Enabled(w: World, a: Action) {
    && (a.DoStart? ==> 1 <= a.d < HALF)
    && (a.Configure? && a.x in w.list && a.cyclic ==> 1 <= a.d < HALF)
  }

  predicate Touches(a: Action, x: Id) { !a.Tick? && a.x == x }

  ghost function Step(w: World, a: Action): (r: World)
    requires Inv(w) && Enabled(w, a)
  {
    match a
    case DoStart(x, d, cyclic) => Start(w, x, d, cyclic)
    case DoStop(x) => Stop(w, x)
    case Configure(x, d, cyclic) => w.(period := w.period[x := d], cyclic := w.cyclic[x := cyclic])
    case Tick => Check(w.(now := w.now + 1))
  }

  lemma StepKeepsInv(w: World, a: Action)
    requires Inv(w) && Enabled(w, a)
    ensures Inv(Step(w, a)) && Step(w, a).now == w.now + (if a.Tick? then 1 else 0)
  {
    match a
    case DoStart(x, d, cyclic) => StartOrdered(w, x, d, cyclic, w.now + 1);
    case DoStop(x) => StopOrdered(w, x, w.now + 1);
    case Configure(x, d, cyclic) => ConfigureOrdered(w, x, d, cyclic, w.now + 1);
    case Tick => CheckFires(w.(now := w.now + 1));
  }

  ghost function Run(w: World, run: seq<Action>): (r: World)
    requires Inv(w)
    decreases |run|
  {
    if run == [] then w
    else if !Enabled(w, run[0]) then Run(w, run[1..])
    else
      StepKeepsInv(w, run[0]);
      Run(Step(w, run[0]), run[1..])
  }

  /** When timer `x` fired. */
  function Times(log: seq<Firing>, x: Id): seq<int> {
    if log == [] then []
    else Times(log[..|log| - 1], x) + (if log[|log| - 1].id == x then [log[|log| - 1].when] else [])
  }

  /** When it should have: at its deadline and, if cyclic, every period after that. */
  function Expected(deadline: int, period: int, cyclic: bool, now: int): seq<int>
    requires cyclic ==> 1 <= period
    decreases now - deadline
  {
    if now < deadline then []
    else [deadline] + (if cyclic then Expected(deadline + period, period, cyclic, now) else [])
  }

  lemma {:induction false} TimesConcat(a: seq<Firing>, b: seq<Firing>, x: Id)
    ensures Times(a + b, x) == Times(a, x) + Times(b, x)
  {
    if b == [] {
      assert a + b == a;
    } else {
      assert (a + b)[..|a + b| - 1] == a + b[..|b| - 1];
      TimesConcat(a, b[..|b| - 1], x);
    }
  }

  lemma {:induction false} TimesOfFirings(l: seq<Id>, now: int, x: Id)
    requires Distinct(l)
    ensures Times(Firings(l, now), x) == if x in l then [now] else []
  {
    if l != [] {
      var f, t := [Firing(l[0], now)], l[1..];
      TimesOfFirings(t, now, x);
      TimesConcat(f, Firings(t, now), x);
      assert f[..0] == [] && l == [l[0]] + t;
      assert Distinct(t) && l[0] !in t;
    }
  }

  lemma {:induction false} RipeMembers(l: seq<Id>, at: map<Id, int>, now: int)
    requires Known(l, at) && Distinct(l)
    ensures Distinct(Ripe(l, at, now)) && forall x :: x in Ripe(l, at, now) <==> x in l && at[x] <= now
  {
    if l != [] {
      RipeMembers(l[1..], at, now);
      assert l == [l[0]] + l[1..] && l[0] !in l[1..];
    }
  }

  /** One tick fires `x` exactly when its deadline has come. */
  lemma TickFires(w: World, x: Id)
    requires Inv(w)
    ensures var r := Step(w, Tick);
            Times(r.log, x) == Times(w.log, x) + (if x in w.list && w.at[x] == w.now + 1 then [w.now + 1] else [])
  {
    var w1 := w.(now := w.now + 1);
    CheckFires(w1);
    if x in w.list {
      OrderedElim(w, w.now + 1, x);
    }
    DueOnce(w1.list, w1.at, w1.now, w.log, x);
    hide Ordered;
    hide Times;
    hide Firings;
    hide Ripe;
  }

  lemma DueOnce(l: seq<Id>, at: map<Id, int>, now: int, log: seq<Firing>, x: Id)
    requires Known(l, at) && Distinct(l)
    ensures x in l ==> x in at
    ensures Times(log + Firings(Ripe(l, at, now), now), x) == Times(log, x) + if x in l && at[x] <= now then [now] else []
  {
    RipeMembers(l, at, now);
    var due := Ripe(l, at, now);
    TimesOfFirings(due, now, x);
    TimesConcat(log, Firings(due, now), x);
  }

  lemma StepAffects(w: World, a: Action, x: Id)
    requires Inv(w) && Enabled(w, a) && !Touches(a, x)
    ensures var r := Step(w, a);
            && (x !in w.list ==> x !in r.list)
            && (x in r.list ==> x in w.list && x in r.at && x in r.period && x in r.cyclic && r.period[x] == w.period[x] && r.cyclic[x] == w.cyclic[x])
            && (x in w.list && !(a.Tick? && w.at[x] == w.now + 1) ==> x in r.list && r.at[x] == w.at[x])
            && (x in w.list && a.Tick? && w.at[x] == w.now + 1 ==>
                  (x in r.list <==> w.cyclic[x]) && (w.cyclic[x] ==> r.at[x] == w.at[x] + w.period[x]))
            && (!a.Tick? ==> r.log == w.log)
  {
    if x in w.list {
      KnownMember(w, x);
    }
    match a
    case DoStart(y, d, cyclic) => StartOrdered(w, y, d, cyclic, w.now + 1);
    case DoStop(y) => StopOrdered(w, y, w.now + 1);
    case Configure(y, d, cyclic) =>
    case Tick => CheckAffects(w.(now := w.now + 1), x);
  }

  /** A timer that is not pending does not fire. */
  lemma {:induction false} Quiet(w: World, run: seq<Action>, x: Id)
    requires Inv(w) && x !in w.list && forall i :: 0 <= i < |run| ==> !Touches(run[i], x)
    ensures Times(Run(w, run).log, x) == Times(w.log, x) && x !in Run(w, run).list
    decreases |run|
  {
    if run != [] {
      if Enabled(w, run[0]) {
        StepKeepsInv(w, run[0]);
        StepAffects(w, run[0], x);
        if run[0].Tick? { TickFires(w, x); }
        hide Inv; hide Step; hide Times;
        Quiet(Step(w, run[0]), run[1..], x);
      } else {
        Quiet(w, run[1..], x);
      }
    }
  }

  lemma {:induction false} NowGrows(w: World, run: seq<Action>)
    requires Inv(w)
    ensures w.now <= Run(w, run).now
    decreases |run|
  {
    if run != [] {
      if Enabled(w, run[0]) {
        StepKeepsInv(w, run[0]);
        hide Inv; hide Step;
        NowGrows(Step(w, run[0]), run[1..]);
      } else {
        NowGrows(w, run[1..]);
      }
    }
  }

  /** Exact firing: as long as nobody restarts or stops it, a pending timer fires at its deadline,
      and a cyclic one every period after that; never earlier, later or more often. */
  lemma {:induction false} ExactFiring(w: World, run: seq<Action>, x: Id)
    requires Inv(w) && x in w.list && forall i :: 0 <= i < |run| ==> !Touches(run[i], x)
    ensures x in w.at && x in w.period && x in w.cyclic && Lasting(w, x)
    ensures Times(Run(w, run).log, x) == Times(w.log, x) + Expected(w.at[x], w.period[x], w.cyclic[x], Run(w, run).now)
    decreases |run|
  {
    KnownMember(w, x);
    NowGrows(w, run);
    if run == [] {
    } else if !Enabled(w, run[0]) {
      ExactFiring(w, run[1..], x);
    } else {
      var w1 := Step(w, run[0]);
      StepKeepsInv(w, run[0]);
      StepAffects(w, run[0], x);
      NowGrows(w1, run[1..]);
      if run[0].Tick? { TickFires(w, x); }
      if x in w1.list {
        ExactFiring(w1, run[1..], x);
      } else {
        Quiet(w1, run[1..], x);
      }

    }
  }

  /** Started at tick T with delay d, a timer first fires at T + d. */
  lemma FiresAfterDelay(w: World, x: Id, d: int, cyclic: bool, run: seq<Action>)
    requires Inv(w) && 1 <= d < HALF && forall i :: 0 <= i < |run| ==> !Touches(run[i], x)
    ensures Inv(Start(w, x, d, cyclic))
    ensures var r := Run(Start(w, x, d, cyclic), run);
            Times(r.log, x) == Times(w.log, x) + Expected(w.now + d, d, cyclic, r.now)
  {
    hide Sorted; hide Within; hide Distinct; hide Run; hide Times; hide Expected; hide Insert; hide Without;
    StartOrdered(w, x, d, cyclic, w.now + 1);
    ExactFiring(Start(w, x, d, cyclic), run, x);
  }

  /** A new time set on a pending timer does not move its next firing; a cyclic timer keeps the new time from there on. */
  lemma SetTimeFires(w: World, x: Id, d: int, run: seq<Action>)
    requires Inv(w) && x in w.list && x in w.cyclic && x in w.at && (w.cyclic[x] ==> 1 <= d < HALF)
    requires forall i :: 0 <= i < |run| ==> !Touches(run[i], x)
    ensures var v := w.(period := w.period[x := d], cyclic := w.cyclic[x := w.cyclic[x]]);
      Inv(v) && Times(Run(v, run).log, x) == Times(w.log, x) + Expected(w.at[x], d, w.cyclic[x], Run(v, run).now)
  {
    var v := w.(period := w.period[x := d], cyclic := w.cyclic[x := w.cyclic[x]]);
    ConfigureOrdered(w, x, d, w.cyclic[x], w.now + 1);
    hide Ordered;
    ExactFiring(v, run, x);
  }

  /** Where stable insertion puts a timer: behind all that are due no later, before all others. */
  lemma {:induction false} InsertPosition(l: seq<Id>, at: map<Id, int>, x: Id) returns (k: nat)
    requires x in at && Known(l, at) && Sorted(l, at)
    ensures k <= |l| && Insert(l, at, x) == l[..k] + [x] + l[k..]
    ensures forall i :: 0 <= i < k ==> at[l[i]] <= at[x]
    ensures forall i :: k <= i < |l| ==> at[x] < at[l[i]]
  {
    if l == [] || at[x] < at[l[0]] {
      k := 0;
    } else {
      k := InsertPosition(l[1..], at, x);
      assert [l[0]] + (l[1..][..k] + [x] + l[1..][k..]) == l[..k + 1] + [x] + l[k + 1..];
      k := k + 1;
    }
  }

  // ---- Timers due at the same tick ----------------------------------------------------------------------

  /** `x` is listed, and `y` somewhere behind it. */
  ghost predicate Before(l: seq<Id>, x: Id, y: Id) {
    l != [] && if l[0] == x then y in l[1..] else Before(l[1..], x, y)
  }

  lemma {:induction false} BeforeMembers(l: seq<Id>, x: Id, y: Id)
    requires Before(l, x, y)
    ensures x in l && y in l
  {
    if l[0] != x {
      BeforeMembers(l[1..], x, y);
    }
  }

  lemma {:induction false} BeforeWithout(l: seq<Id>, z: Id, x: Id, y: Id)
    requires Before(l, x, y) && z != x && z != y
    ensures Before(Without(l, z), x, y)
  {
    var t := l[1..];
    if l[0] == x {
      WithoutMember(t, z);
      assert ([x] + Without(t, z))[1..] == Without(t, z);
    } else {
      BeforeWithout(t, z, x, y);
      if l[0] == z {
        assert Without(l, z) == Without(t, z);
      } else {
        assert ([l[0]] + Without(t, z))[1..] == Without(t, z);
      }
    }
  }

  lemma {:induction false} BeforeInsert(l: seq<Id>, at: map<Id, int>, z: Id, x: Id, y: Id)
    requires z in at && Known(l, at) && Before(l, x, y) && z != x
    ensures Before(Insert(l, at, z), x, y)
  {
    var r, t := Insert(l, at, z), l[1..];
    if at[z] < at[l[0]] {
      assert r[1..] == l;
    } else {
      assert r[1..] == Insert(t, at, z);
      if l[0] == x {
        InsertMember(t, at, z);
      } else {
        BeforeInsert(t, at, z, x, y);
      }
    }
  }

  /** Stable insertion goes behind whatever is due no later. */
  lemma {:induction false} InsertBehind(l: seq<Id>, at: map<Id, int>, y: Id, x: Id)
    requires x in at && Known(l, at) && Sorted(l, at) && y in l && at[y] <= at[x]
    ensures Before(Insert(l, at, x), y, x)
  {
    var r, t := Insert(l, at, x), l[1..];
    assert at[l[0]] <= at[y] by {
      var k :| 0 <= k < |l| && l[k] == y;
      assert k > 0 ==> at[l[0]] <= at[l[k]];
    }
    assert r[1..] == Insert(t, at, x);
    InsertMember(t, at, x);
    if l[0] != y {
      assert l == [l[0]] + t;
      InsertBehind(t, at, y, x);
    }
  }

  /** A started timer goes behind every pending one that is due no later. */
  lemma StartBehind(w: World, x: Id, d: int, cyclic: bool, y: Id)
    requires Inv(w) && 1 <= d < HALF && y in w.list && y != x
    ensures y in w.at && (w.at[y] <= w.now + d ==> Before(Start(w, x, d, cyclic).list, y, x))
  {
    OrderedElim(w, w.now + 1, y);
    var at, rest := w.at[x := w.now + d], Without(w.list, x);
    WithoutMember(w.list, x);
    WithoutKeeps(w.list, w.at, x);
    SortedFrame(rest, w.at, at, x, w.now + d);
    hide Sorted;
    hide Distinct;
    hide Insert;
    hide Without;
    if w.at[y] <= w.now + d {
      InsertBehind(rest, at, y, x);
    }
  }

  /** Starting and stopping another timer leaves the order of the rest. */
  lemma StartBefore(w: World, z: Id, d: int, cyclic: bool, x: Id, y: Id)
    requires Known(w.list, w.at) && Before(w.list, x, y) && z != x && z != y
    ensures Before(Start(w, z, d, cyclic).list, x, y)
  {
    WithoutMember(w.list, z);
    BeforeWithout(w.list, z, x, y);
    BeforeInsert(Without(w.list, z), w.at[z := w.now + d], z, x, y);
  }

  /** So do the firings of a check before the two are due. */
  lemma {:induction false} CheckBefore(w: World, x: Id, y: Id)
    requires Ordered(w, w.now) && Before(w.list, x, y) && x in w.at && y in w.at && w.now < w.at[x] && w.now < w.at[y]
    ensures Before(Check(w).list, x, y)
    decreases |Ripe(w.list, w.at, w.now)|
  {
    if w.at[w.list[0]] <= w.now {
      var z, t := w.list[0], w.list[1..];
      FireFirstKeeps(w);
      TailOrdered(w, w.now, w.log + [Firing(z, w.now)]);
      if w.cyclic[z] {
        StartBefore(w.(list := t, log := w.log + [Firing(z, w.now)]), z, w.period[z], true, x, y);
      }
      CheckBefore(FireFirst(w), x, y);
    }
  }

  lemma {:induction false} RipeBefore(l: seq<Id>, at: map<Id, int>, now: int, x: Id, y: Id)
    requires Known(l, at) && Distinct(l) && Before(l, x, y) && x in at && y in at && at[x] <= now && at[y] <= now
    ensures Before(Ripe(l, at, now), x, y)
  {
    var t := l[1..];
    RipeMembers(t, at, now);
    if l[0] != x {
      RipeBefore(t, at, now, x, y);
    }
    if at[l[0]] <= now {
      assert ([l[0]] + Ripe(t, at, now))[1..] == Ripe(t, at, now);
    } else {
      assert Ripe(l, at, now) == Ripe(t, at, now);
    }
  }

  /** In the log the firing of `x` at `when` comes before that of `y`. */
  ghost predicate FiredBefore(log: seq<Firing>, x: Id, y: Id, when: int) {
    exists i, j :: 0 <= i < j < |log| && log[i] == Firing(x, when) && log[j] == Firing(y, when)
  }

  lemma {:induction false} FiringsAt(l: seq<Id>, now: int, k: nat)
    requires k < |l|
    ensures Firings(l, now)[k] == Firing(l[k], now)
  {
    if k > 0 {
      FiringsAt(l[1..], now, k - 1);
    }
  }

  lemma {:induction false} BeforeAt(l: seq<Id>, x: Id, y: Id) returns (i: nat, j: nat)
    requires Before(l, x, y)
    ensures i < j < |l| && l[i] == x && l[j] == y
  {
    if l[0] == x {
      var k :| 0 <= k < |l[1..]| && l[1..][k] == y;
      i, j := 0, k + 1;
    } else {
      i, j := BeforeAt(l[1..], x, y);
      i, j := i + 1, j + 1;
    }
  }

  lemma FiringsBefore(log: seq<Firing>, l: seq<Id>, now: int, x: Id, y: Id)
    requires Before(l, x, y)
    ensures FiredBefore(log + Firings(l, now), x, y, now)
  {
    var i, j := BeforeAt(l, x, y);
    FiringsAt(l, now, i);
    FiringsAt(l, now, j);
    var r := log + Firings(l, now);
    assert r[|log| + i] == Firing(x, now) && r[|log| + j] == Firing(y, now);
  }

  lemma {:induction false} LogGrows(w: World, run: seq<Action>)
    requires Inv(w)
    ensures w.log <= Run(w, run).log
    decreases |run|
  {
    if run != [] {
      if Enabled(w, run[0]) {
        StepKeepsInv(w, run[0]);
        if run[0].Tick? {
          CheckFires(w.(now := w.now + 1));
        }
        LogGrows(Step(w, run[0]), run[1..]);
      } else {
        LogGrows(w, run[1..]);
      }
    }
  }

  /** Of two timers due at the same tick the one listed first fires first, whatever is done to other timers in between. */
  lemma {:induction false} TiesInOrder(w: World, run: seq<Action>, x: Id, y: Id)
    requires Inv(w) && Before(w.list, x, y) && x in w.at && y in w.at && w.at[x] == w.at[y]
    requires forall i :: 0 <= i < |run| ==> !Touches(run[i], x) && !Touches(run[i], y)
    requires w.at[x] <= Run(w, run).now
    ensures FiredBefore(Run(w, run).log, x, y, w.at[x])
    decreases |run|
  {
    BeforeMembers(w.list, x, y);
    KnownMember(w, x);
    if run == [] {
      assert false;
    } else if !Enabled(w, run[0]) {
      TiesInOrder(w, run[1..], x, y);
    } else {
      var w1 := Step(w, run[0]);
      StepKeepsInv(w, run[0]);
      StepAffects(w, run[0], x);
      StepAffects(w, run[0], y);
      StepTies(w, run[0], x, y);
      if run[0].Tick? && w.at[x] == w.now + 1 {
        LogGrows(w1, run[1..]);
      } else {
        TiesInOrder(w1, run[1..], x, y);
      }
    }
  }

  lemma StepTies(w: World, a: Action, x: Id, y: Id)
    requires Inv(w) && Enabled(w, a) && Before(w.list, x, y) && x in w.at && y in w.at && w.at[x] == w.at[y] > w.now
    requires !Touches(a, x) && !Touches(a, y)
    ensures if a.Tick? && w.at[x] == w.now + 1 then FiredBefore(Step(w, a).log, x, y, w.at[x]) else Before(Step(w, a).list, x, y)
  {
    match a
    case DoStart(z, d, cyclic) => StartBefore(w, z, d, cyclic, x, y);
    case DoStop(z) => BeforeWithout(w.list, z, x, y);
    case Configure(z, d, cyclic) =>
    case Tick =>
      var w1 := w.(now := w.now + 1);
      if w.at[x] == w.now + 1 {
        CheckFires(w1);
        RipeBefore(w.list, w.at, w1.now, x, y);
        FiringsBefore(w.log, Ripe(w.list, w.at, w1.now), w1.now, x, y);
      } else {
        CheckBefore(w1, x, y);
      }
  }

  /** Ties fire in start order: a timer started while another one with the same deadline is pending fires after it. */
  lemma TiesInStartOrder(w: World, x: Id, y: Id, d: int, cyclic: bool, run: seq<Action>)
    requires Inv(w) && x in w.list && x in w.at && x != y && 1 <= d < HALF && w.at[x] == w.now + d
    requires forall i :: 0 <= i < |run| ==> !Touches(run[i], x) && !Touches(run[i], y)
    ensures Inv(Start(w, y, d, cyclic))
    ensures var r := Run(Start(w, y, d, cyclic), run); w.now + d <= r.now ==> FiredBefore(r.log, x, y, w.now + d)
  {
    StartOrdered(w, y, d, cyclic, w.now + 1);
    StartBehind(w, y, d, cyclic, x);
    var v := Start(w, y, d, cyclic);
    if w.now + d <= Run(v, run).now {
      TiesInOrder(v, run, x, y);
    }
  }
}
