/** Event sets (ipc.c): threads wait for all (AND) or any (OR) of some bits, and may consume the
    bits they get (CLEAR).  A send scans the waiters in list order while the set may shrink. */
module Event {
  import opened IpcList

  type Bits = bv32

  const FLAG_AND: bv8 := 0x01
  const FLAG_OR: bv8 := 0x02
  const FLAG_CLEAR: bv8 := 0x04

  predicate WantsAll(info: bv8) { info & FLAG_AND != 0 }
  predicate WantsAny(info: bv8) { info & FLAG_OR != 0 }
  predicate Clears(info: bv8) { info & FLAG_CLEAR != 0 }

  /** A suspended thread with its event_set and event_info. */
  datatype Waiter = Waiter(t: Tid, want: Bits, info: bv8)

  datatype Wake = Wake(t: Tid, got: Bits, info: bv8)

  predicate Met(want: Bits, info: bv8, set_: Bits) {
    if WantsAll(info) then want & set_ == want
    else WantsAny(info) && want & set_ != 0
  }

  /** The bits a receiver gets when its condition is met. */
  function Share(want: Bits, set_: Bits): Bits { want & set_ }

  function Minus(a: Bits, b: Bits): Bits { a & !b }

  function Join(a: Bits, b: Bits): Bits { a | b }

  predicate Disjoint(a: Bits, b: Bits) { a & b == 0 }

  function After(set_: Bits, got: Bits, info: bv8): Bits {
    if Clears(info) then Minus(set_, got) else set_
  }

  predicate Subset(a: Bits, b: Bits) { a & b == a }

  lemma MetMonotone(want: Bits, info: bv8, a: Bits, b: Bits)
    requires Subset(a, b) && Met(want, info, a)
    ensures Met(want, info, b)
  {
  }

  // ---- The scan -----------------------------------------------------------------------------------

  datatype Scanned = Scanned(set_: Bits, left: seq<Waiter>, woken: seq<Wake>)

  /** What a send does to the waiters, in list order. */
  function Scan(set_: Bits, ws: seq<Waiter>): (r: Scanned)
    decreases |ws|
  {
    if ws == [] then Scanned(set_, [], [])
    else
      var w := ws[0];
      if Met(w.want, w.info, set_) then
        var got := Share(w.want, set_);
        var rest := Scan(After(set_, got, w.info), ws[1..]);
        rest.(woken := [Wake(w.t, got, w.info)] + rest.woken)
      else
        var rest := Scan(set_, ws[1..]);
        rest.(left := [w] + rest.left)
  }

  /** A scan in progress: what has been decided, and the scan of the rest. */
  function Glue(left: seq<Waiter>, woken: seq<Wake>, rest: Scanned): Scanned {
    Scanned(rest.set_, left + rest.left, woken + rest.woken)
  }

  lemma ScanTurn(set_: Bits, ws: seq<Waiter>, left: seq<Waiter>, woken: seq<Wake>)
    requires ws != []
    ensures var w, got := ws[0], Share(ws[0].want, set_);
            Glue(left, woken, Scan(set_, ws)) ==
              if Met(w.want, w.info, set_)
              then Glue(left, woken + [Wake(w.t, got, w.info)], Scan(After(set_, got, w.info), ws[1..]))
              else Glue(left + [w], woken, Scan(set_, ws[1..]))
  {
    hide Met; hide Share; hide After;
    var w, got := ws[0], Share(ws[0].want, set_);
    var a, b := Scan(After(set_, got, w.info), ws[1..]), Scan(set_, ws[1..]);
    assert woken + ([Wake(w.t, got, w.info)] + a.woken) == woken + [Wake(w.t, got, w.info)] + a.woken;
    assert left + ([w] + b.left) == left + [w] + b.left;
  }

  ghost predicate NobodyMet(ws: seq<Waiter>, set_: Bits) {
    forall i :: 0 <= i < |ws| ==> !Met(ws[i].want, ws[i].info, set_)
  }

  lemma {:induction false} ScanShrinks(set_: Bits, ws: seq<Waiter>)
    ensures Subset(Scan(set_, ws).set_, set_)
    decreases |ws|
  {
    if ws != [] {
      var w := ws[0];
      ScanShrinks(set_, ws[1..]);
      ScanShrinks(After(set_, Share(w.want, set_), w.info), ws[1..]);
    }
  }

  /** Whoever is still waiting after the scan could not be served by what is left, although the
      set may have shrunk since that waiter was looked at. */
  lemma {:induction false} ScanServesAll(set_: Bits, ws: seq<Waiter>)
    ensures NobodyMet(Scan(set_, ws).left, Scan(set_, ws).set_)
    decreases |ws|
  {
    if ws != [] {
      var w := ws[0];
      if Met(w.want, w.info, set_) {
        ScanServesAll(After(set_, Share(w.want, set_), w.info), ws[1..]);
      } else {
        ScanServesAll(set_, ws[1..]);
        ScanShrinks(set_, ws[1..]);
        var r := Scan(set_, ws[1..]);
        if Met(w.want, w.info, r.set_) {
          MetMonotone(w.want, w.info, r.set_, set_);
        }
      }
    }
  }

  /** The bits taken out of the set by woken threads. */
  function Consumed(ws: seq<Wake>): Bits {
    if ws == [] then 0 else Join(if Clears(ws[0].info) then ws[0].got else 0, Consumed(ws[1..]))
  }

  ghost predicate Exclusive(ws: seq<Wake>) {
    forall i, j :: 0 <= i < j < |ws| && Clears(ws[i].info) ==> Disjoint(ws[i].got, ws[j].got)
  }

  /** Exactly the consumed bits leave the set. */
  lemma {:induction false} ScanConsumes(set_: Bits, ws: seq<Waiter>)
    ensures var r := Scan(set_, ws); r.set_ == Minus(set_, Consumed(r.woken))
    decreases |ws|
  {
    hide Met; hide Share; hide Clears; hide Minus; hide Join;
    MaskTwice(set_, 0, 0);
    if ws != [] {
      var w := ws[0];
      var got := Share(w.want, set_);
      if Met(w.want, w.info, set_) {
        var set1 := After(set_, got, w.info);
        ScanConsumes(set1, ws[1..]);
        var rest := Scan(set1, ws[1..]);
        assert ([Wake(w.t, got, w.info)] + rest.woken)[1..] == rest.woken;
        MaskTwice(set_, got, Consumed(rest.woken));
      } else {
        ScanConsumes(set_, ws[1..]);
      }
    }
  }

  lemma MaskTwice(s: Bits, a: Bits, b: Bits)
    ensures Minus(Minus(s, a), b) == Minus(s, Join(a, b)) && Minus(s, Join(0, b)) == Minus(s, b) && Minus(s, 0) == s
  {
  }

  /** Every share lies in the set its waiter saw, so a consumed bit goes to one thread only. */
  lemma {:induction false} ScanExclusive(set_: Bits, ws: seq<Waiter>)
    ensures var r := Scan(set_, ws);
            (forall i :: 0 <= i < |r.woken| ==> Subset(r.woken[i].got, set_)) && Exclusive(r.woken)
    decreases |ws|
  {
    hide Met; hide Share; hide Clears; hide Minus; hide Subset; hide Disjoint;
    if ws != [] {
      var w := ws[0];
      var got := Share(w.want, set_);
      if Met(w.want, w.info, set_) {
        ShareSubset(w.want, set_);
        var set1 := After(set_, got, w.info);
        ScanExclusive(set1, ws[1..]);
        var rest := Scan(set1, ws[1..]);
        forall i | 0 <= i < |rest.woken|
          ensures Subset(rest.woken[i].got, set_) && (Clears(w.info) ==> Disjoint(got, rest.woken[i].got))
        {
          KeptApart(rest.woken[i].got, set_, got);
          assert Subset(rest.woken[i].got, set1);
        }
      } else {
        ScanExclusive(set_, ws[1..]);
      }
    }
  }

  lemma KeptApart(x: Bits, s: Bits, got: Bits)
    ensures Subset(x, Minus(s, got)) ==> Subset(x, s) && Disjoint(got, x)
  {
  }

  lemma ShareSubset(want: Bits, s: Bits)
    ensures Subset(Share(want, s), s)
  {
  }

  /** A woken thread gets all it asked for (AND) or some of it (OR). */
  ghost predicate Served(w: Waiter, k: Wake) {
    && k.t == w.t && k.info == w.info && Subset(k.got, w.want)
    && (if WantsAll(w.info) then k.got == w.want else k.got != 0)
  }

  /** The scan splits the waiters: those left, and those served, both in list order. */
  ghost predicate Splits(ws: seq<Waiter>, left: seq<Waiter>, woken: seq<Wake>)
    decreases |ws|
  {
    if ws == [] then left == [] && woken == []
    else
      || (left != [] && left[0] == ws[0] && Splits(ws[1..], left[1..], woken))
      || (woken != [] && Served(ws[0], woken[0]) && Splits(ws[1..], left, woken[1..]))
  }

  lemma {:induction false} ScanSplits(set_: Bits, ws: seq<Waiter>)
    ensures Splits(ws, Scan(set_, ws).left, Scan(set_, ws).woken)
    decreases |ws|
  {
    if ws != [] {
      var w := ws[0];
      if Met(w.want, w.info, set_) {
        var got := Share(w.want, set_);
        var rest := Scan(After(set_, got, w.info), ws[1..]);
        ScanSplits(After(set_, got, w.info), ws[1..]);
        ShareServes(w, set_);
        assert ([Wake(w.t, got, w.info)] + rest.woken)[1..] == rest.woken;
      } else {
        var rest := Scan(set_, ws[1..]);
        ScanSplits(set_, ws[1..]);
        assert ([w] + rest.left)[1..] == rest.left;
      }
    }
  }

  lemma ShareServes(w: Waiter, set_: Bits)
    requires Met(w.want, w.info, set_)
    ensures Served(w, Wake(w.t, Share(w.want, set_), w.info))
  {
  }

  lemma {:induction false} ScanConcat(set_: Bits, a: seq<Waiter>, b: seq<Waiter>)
    ensures var x := Scan(set_, a); Scan(set_, a + b) == Glue(x.left, x.woken, Scan(x.set_, b))
    decreases |a|
  {
    hide Met; hide Share; hide After;
    if a == [] {
      assert a + b == b;
    } else {
      var w, t := a[0], a[1..];
      assert (a + b)[0] == w && (a + b)[1..] == t + b;
      ScanConcat(set_, t, b);
      ScanConcat(After(set_, Share(w.want, set_), w.info), t, b);
      var got := Share(w.want, set_);
      var x, y := Scan(set_, t), Scan(After(set_, got, w.info), t);
      assert [w] + (x.left + Scan(x.set_, b).left) == [w] + x.left + Scan(x.set_, b).left;
      var k := Wake(w.t, got, w.info);
      assert [k] + (y.woken + Scan(y.set_, b).woken) == [k] + y.woken + Scan(y.set_, b).woken;
    }
  }

  /** The waiters are served in turn: the k-th sees the bits that those before it did not consume, and is woken with all
      wanted bits among them exactly when they meet its condition. */
  lemma InTurn(set_: Bits, ws: seq<Waiter>, k: nat)
    requires k < |ws|
    ensures var x, w, r := Scan(set_, ws[..k]), ws[k], Scan(set_, ws);
      && x.set_ == Minus(set_, Consumed(x.woken))
      && if Met(w.want, w.info, x.set_)
         then |x.woken| < |r.woken| && r.woken[|x.woken|] == Wake(w.t, Share(w.want, x.set_), w.info)
         else |x.left| < |r.left| && r.left[|x.left|] == w
  {
    hide Met; hide Share; hide After; hide Minus; hide Consumed;
    var a, w, b := ws[..k], ws[k], ws[k + 1..];
    assert ws == a + ([w] + b);
    ScanConcat(set_, a, [w] + b);
    ScanConsumes(set_, a);
    var x := Scan(set_, a);
    assert ([w] + b)[1..] == b;
    var rest := Scan(x.set_, [w] + b);
    assert Met(w.want, w.info, x.set_) ==> rest.woken != [] && rest.woken[0] == Wake(w.t, Share(w.want, x.set_), w.info);
  }

  // ---- Runs ----------------------------------------------------------------------------------------

  datatype State = State(set_: Bits, waiters: seq<Waiter>)

  datatype Action =
    | Send(bits: Bits)
    | Recv(t: Tid, want: Bits, info: bv8, wait: bool, k: nat)
    | Timeout(k: nat)
    | Reset

  predicate Enabled(s: State, a: Action) {
    match a
    case Recv(_, _, info, _, k) => (WantsAll(info) || WantsAny(info)) && k <= |s.waiters|
    case Timeout(k) => k < |s.waiters|
    case _ => true
  }

  function Step(s: State, a: Action): (r: State)
    requires Enabled(s, a)
  {
    match a
    case Send(bits) =>
      if bits == 0 then s
      else var r := Scan(Join(s.set_, bits), s.waiters); State(r.set_, r.left)
    case Recv(t, want, info, wait, k) =>
      if want == 0 then s
      else if Met(want, info, s.set_) then s.(set_ := After(s.set_, want, info))
      else if !wait then s
      else s.(waiters := s.waiters[..k] + [Waiter(t, want, info)] + s.waiters[k..])
    case Timeout(k) => s.(waiters := s.waiters[..k] + s.waiters[k + 1..])
    case Reset => State(0, [])
  }

  function Run(s: State, run: seq<Action>): State
    decreases |run|
  {
    if run == [] then s
    else Run(if Enabled(s, run[0]) then Step(s, run[0]) else s, run[1..])
  }

  lemma StepKeepsNobodyMet(s: State, a: Action)
    requires NobodyMet(s.waiters, s.set_) && Enabled(s, a)
    ensures NobodyMet(Step(s, a).waiters, Step(s, a).set_)
  {
    hide Met; hide Minus; hide Join; hide Scan; hide Clears; hide NobodyMet;
    match a
    case Send(bits) => ScanServesAll(Join(s.set_, bits), s.waiters);
    case Recv(t, want, info, wait, k) =>
      MaskSubset(s.set_, want);
      if want != 0 && Met(want, info, s.set_) {
        ShrinkKeeps(s.waiters, s.set_, After(s.set_, want, info));
      } else if want != 0 && wait {
        JoinKeeps(s.waiters, s.set_, k, Waiter(t, want, info));
      }
    case Timeout(k) => LeaveKeeps(s.waiters, s.set_, k);
    case Reset => NobodyMetOfNobody();
  }

  lemma NobodyMetOfNobody()
    ensures NobodyMet([], 0)
  {
  }

  lemma JoinKeeps(ws: seq<Waiter>, set_: Bits, k: nat, w: Waiter)
    requires NobodyMet(ws, set_) && k <= |ws| && !Met(w.want, w.info, set_)
    ensures NobodyMet(ws[..k] + [w] + ws[k..], set_)
  {
    hide Met;
    var r := ws[..k] + [w] + ws[k..];
    forall i | 0 <= i < |r| ensures !Met(r[i].want, r[i].info, set_) {
      assert r[i] == if i < k then ws[i] else if i == k then w else ws[i - 1];
    }
  }

  lemma LeaveKeeps(ws: seq<Waiter>, set_: Bits, k: nat)
    requires NobodyMet(ws, set_) && k < |ws|
    ensures NobodyMet(ws[..k] + ws[k + 1..], set_)
  {
    hide Met;
    var r := ws[..k] + ws[k + 1..];
    forall i | 0 <= i < |r| ensures !Met(r[i].want, r[i].info, set_) {
      assert r[i] == if i < k then ws[i] else ws[i + 1];
    }
  }

  lemma ShrinkKeeps(ws: seq<Waiter>, a: Bits, b: Bits)
    requires NobodyMet(ws, a) && Subset(b, a)
    ensures NobodyMet(ws, b)
  {
    forall i | 0 <= i < |ws| ensures !Met(ws[i].want, ws[i].info, b) {
      if Met(ws[i].want, ws[i].info, b) {
        MetMonotone(ws[i].want, ws[i].info, b, a);
      }
    }
  }

  lemma MaskSubset(a: Bits, b: Bits)
    ensures Subset(Minus(a, b), a) && Subset(a, a)
  {
  }

  /** In every run, no suspended thread's condition holds of the event set. */
  lemma {:induction false} RunKeepsNobodyMet(s: State, run: seq<Action>)
    requires NobodyMet(s.waiters, s.set_)
    ensures NobodyMet(Run(s, run).waiters, Run(s, run).set_)
    decreases |run|
  {
    hide NobodyMet; hide Step;
    if run != [] {
      if Enabled(s, run[0]) {
        StepKeepsNobodyMet(s, run[0]);
      }
      RunKeepsNobodyMet(if Enabled(s, run[0]) then Step(s, run[0]) else s, run[1..]);
    }
  }

  ghost predicate Keeps(ws: seq<Waiter>) {
    forall i :: 0 <= i < |ws| ==> !Clears(ws[i].info)
  }

  /** All bits sent in a run. */
  function SentBits(run: seq<Action>): Bits {
    if run == [] then 0 else Join(if run[0].Send? then run[0].bits else 0, SentBits(run[1..]))
  }

  lemma {:induction false} ScanKeeps(set_: Bits, ws: seq<Waiter>)
    requires Keeps(ws)
    ensures Scan(set_, ws).set_ == set_ && Keeps(Scan(set_, ws).left)
    decreases |ws|
  {
    if ws != [] {
      hide Met; hide Share; hide Clears;
      ScanKeeps(set_, ws[1..]);
    }
  }

  lemma JoinLaws(a: Bits, b: Bits, c: Bits)
    ensures Join(Join(a, b), c) == Join(a, Join(b, c)) && Join(a, 0) == a && Join(0, a) == a
  {
  }

  lemma StepBits(s: State, a: Action)
    requires Keeps(s.waiters) && Enabled(s, a) && !a.Reset? && (a.Recv? ==> !Clears(a.info))
    ensures Step(s, a).set_ == Join(s.set_, if a.Send? then a.bits else 0) && Keeps(Step(s, a).waiters)
  {
    hide Met; hide Join; hide Scan; hide Clears; hide Minus;
    JoinLaws(s.set_, 0, 0);
    if a.Send? {
      ScanKeeps(Join(s.set_, a.bits), s.waiters);
    }
  }

  /** Bits leave the set only by CLEAR and by reset: without these the set is what it was and all that was sent. */
  lemma {:induction false} BitsStay(s: State, run: seq<Action>)
    requires Keeps(s.waiters) && forall i :: 0 <= i < |run| ==> !run[i].Reset? && (run[i].Recv? ==> !Clears(run[i].info))
    ensures Run(s, run).set_ == Join(s.set_, SentBits(run)) && Keeps(Run(s, run).waiters)
    decreases |run|
  {
    hide Join; hide Step; hide Keeps; hide Clears;
    JoinLaws(s.set_, 0, 0);
    if run != [] {
      var bits := if run[0].Send? then run[0].bits else 0;
      JoinLaws(s.set_, bits, SentBits(run[1..]));
      if Enabled(s, run[0]) {
        StepBits(s, run[0]);
        BitsStay(Step(s, run[0]), run[1..]);
      } else {
        JoinLaws(SentBits(run[1..]), 0, 0);
        BitsStay(s, run[1..]);
      }
    }
  }

  /** An immediate receiver that clears removes exactly the bits it is given. */
  lemma ImmediateClearsItsShare(want: Bits, set_: Bits)
    ensures Minus(set_, want) == Minus(set_, Share(want, set_))
  {
  }

  // ---- The event object --------------------------------------------------------------------------

  datatype Reception = Error | Received(got: Bits) | TimedOut | Suspended

  class Event {
    const flag: Flag
    var set_: Bits
    var waiters: seq<Waiter>          // parent.suspend_thread with each thread's event fields

    ghost function St(): State reads this { State(set_, waiters) }

    ghost predicate Valid() reads this { NobodyMet(waiters, set_) }

    constructor (f: Flag)
      ensures Valid() && St() == State(0, [])
    {
      flag, set_, waiters := f, 0, [];
    }

    /** rt_event_send */
    method SendBits(bits: Bits) returns (ok: bool, woken: seq<Wake>)
      requires Valid()
      modifies this
      ensures ok == (bits != 0) && Valid() && St() == Step(old(St()), Send(bits))
      ensures ok ==> woken == Scan(Join(old(set_), bits), old(waiters)).woken
      ensures Splits(old(waiters), waiters, woken) && Exclusive(woken)
      ensures ok ==> set_ == Minus(Join(old(set_), bits), Consumed(woken))
      ensures !ok ==> set_ == old(set_) && waiters == old(waiters)
    {
      hide NobodyMet; hide Splits; hide Consumed; hide Minus; hide Join; hide Scan; hide Disjoint;
      StepKeepsNobodyMet(St(), Send(bits));
      if bits == 0 {
        AllLeft(waiters);
        return false, [];
      }
      ghost var s0, ws := Join(set_, bits), waiters;
      ScanSplits(s0, ws);
      ScanExclusive(s0, ws);
      ScanConsumes(s0, ws);
      set_ := Join(set_, bits);
      woken := ScanWaiters();
      ok := true;
    }

    /** The loop of rt_event_send over the suspend list. */
    method ScanWaiters() returns (woken: seq<Wake>)
      modifies `set_, `waiters
      ensures Scanned(set_, waiters, woken) == Scan(old(set_), old(waiters))
    {
      hide Met; hide Share; hide Minus; hide Clears; hide WantsAll; hide Scan;
      ghost var s0, ws, m := set_, waiters, 0;
      var i := 0;
      woken := [];
      ScanWhole(s0, ws);
      assert ws[0..] == ws && waiters[..0] == [];
      while i < |waiters|
        invariant 0 <= i <= |waiters| && 0 <= m <= |ws| && waiters[i..] == ws[m..]
        invariant Scan(s0, ws) == Glue(waiters[..i], woken, Scan(set_, ws[m..]))
        decreases |ws| - m
      {
        var w := waiters[i];
        assert ws[m..][0] == w && ws[m..][1..] == ws[m + 1..];
        ScanTurn(set_, ws[m..], waiters[..i], woken);
        m := m + 1;
        if Met(w.want, w.info, set_) {
          var got := if WantsAll(w.info) then w.want else Share(w.want, set_);
          ShareIsAll(w.want, w.info, set_);
          if Clears(w.info) {
            set_ := Minus(set_, got);
          }
          assert (waiters[..i] + waiters[i + 1..])[..i] == waiters[..i];
          waiters := waiters[..i] + waiters[i + 1..];
          woken := woken + [Wake(w.t, got, w.info)];
        } else {
          assert waiters[..i] + [w] == waiters[..i + 1];
          i := i + 1;
        }
      }
      ScanDone(set_);
      assert ws[m..] == [] && waiters[..i] + [] == waiters && woken + [] == woken;
    }

    lemma ScanWhole(s: Bits, ws: seq<Waiter>)
      ensures Glue([], [], Scan(s, ws)) == Scan(s, ws)
    {
    }

    lemma ScanDone(s: Bits)
      ensures Scan(s, []) == Scanned(s, [], [])
    {
    }

    lemma ShareIsAll(want: Bits, info: bv8, s: Bits)
      ensures Met(want, info, s) && WantsAll(info) ==> want == Share(want, s)
    {
    }

    lemma {:induction false} AllLeft(ws: seq<Waiter>)
      ensures Splits(ws, ws, [])
      decreases |ws|
    {
      if ws != [] {
        AllLeft(ws[1..]);
      }
    }

    /** The first section of rt_event_recv. */
    method RecvSection(t: Tid, want: Bits, info: bv8, wait: bool, prio: Tid -> nat) returns (r: Reception, ghost k: nat)
      requires Valid() && (WantsAll(info) || WantsAny(info))
      modifies this
      ensures k <= |old(waiters)| && Valid() && St() == Step(old(St()), Recv(t, want, info, wait, k))
      ensures r == if want == 0 then Error
                   else if Met(want, info, old(set_)) then Received(Share(want, old(set_)))
                   else if !wait then TimedOut else Suspended
      ensures r.Suspended? ==> SuspendPosition(flag, prio, Threads(old(waiters)), t, k)
      ensures r.Received? <==> want != 0 && Test(want, info, old(set_))
      ensures r.Received? ==>
                r.got == Share(want, old(set_)) && waiters == old(waiters) && set_ == if Clears(info) then Minus(old(set_), r.got) else old(set_)
      ensures r.Error? || r.TimedOut? ==> set_ == old(set_) && waiters == old(waiters)
      ensures r.Suspended? ==>
                set_ == old(set_) && waiters == old(waiters)[..k] + [Waiter(t, want, info)] + old(waiters)[k..]
    {
      hide NobodyMet; hide Met; hide Share; hide Minus; hide Clears; hide WantsAll; hide WantsAny; hide SuspendPosition; hide Test;
      k := 0;
      if want == 0 {
        return Error, 0;
      }
      Tested(want, info, set_);
      if Test(want, info, set_) {
        StepKeepsNobodyMet(St(), Recv(t, want, info, wait, 0));
        r := Received(Share(want, set_));
        ImmediateClearsItsShare(want, set_);
        if Clears(info) {
          set_ := Minus(set_, want);
        }
      } else if !wait {
        r := TimedOut;
      } else {
        var _, pos := Suspend(flag, prio, Threads(waiters), t);
        k := pos;
        StepKeepsNobodyMet(St(), Recv(t, want, info, wait, k));
        waiters := waiters[..pos] + [Waiter(t, want, info)] + waiters[pos..];
        r := Suspended;
      }
    }

    lemma Tested(want: Bits, info: bv8, s: Bits)
      requires WantsAll(info) || WantsAny(info)
      ensures Met(want, info, s) == Test(want, info, s)
    {
    }

    method WaiterTimeout(k: nat)
      requires Valid() && k < |waiters|
      modifies this
      ensures Valid() && St() == Step(old(St()), Timeout(k))
      ensures set_ == old(set_) && waiters == old(waiters)[..k] + old(waiters)[k + 1..]
    {
      waiters := waiters[..k] + waiters[k + 1..];
    }

    /** rt_event_control with RT_IPC_CMD_RESET. */
    method ResetEvent()
      requires Valid()
      modifies this
      ensures Valid() && St() == Step(old(St()), Reset)
      ensures set_ == 0 && waiters == []
    {
      while waiters != []
        modifies `waiters
        decreases |waiters|
      {
        waiters := waiters[1..];
      }
      set_ := 0;
    }
  }

  /** What the options mean, bit by bit: a receiver with AND goes on when no wanted bit is missing, one with OR when some
      wanted bit is there. */
  lemma OptionsMean(want: Bits, info: bv8, s: Bits)
    ensures WantsAll(info) <==> info & 0x01 == 0x01
    ensures WantsAny(info) <==> info & 0x02 == 0x02
    ensures Clears(info) <==> info & 0x04 == 0x04
    ensures WantsAll(info) ==> (Test(want, info, s) <==> Minus(want, s) == 0)
    ensures !WantsAll(info) ==> (Test(want, info, s) <==> Share(want, s) != 0)
  {
    Flags(info);
    NoneMissing(want, s);
    ShareCommutes(want, s);
    hide Share;
    hide Minus;
    hide WantsAll;
    hide WantsAny;
    hide Clears;
  }

  lemma Flags(info: bv8)
    ensures (info & 0x01 != 0 <==> info & 0x01 == 0x01) && (info & 0x02 != 0 <==> info & 0x02 == 0x02)
    ensures info & 0x04 != 0 <==> info & 0x04 == 0x04
    ensures WantsAll(info) <==> info & 0x01 == 0x01
    ensures WantsAny(info) <==> info & 0x02 == 0x02
    ensures Clears(info) <==> info & 0x04 == 0x04
  {
  }

  lemma NoneMissing(want: Bits, s: Bits)
    ensures s & want == want <==> Minus(want, s) == 0
  {
  }

  lemma ShareCommutes(want: Bits, s: Bits)
    ensures Share(want, s) == s & want
  {
  }

  /** A receiver gets the wanted bits that are there, and CLEAR takes these and no others away. */
  lemma ShareParts(want: Bits, s: Bits)
    ensures Join(Share(want, s), Minus(want, s)) == want && Disjoint(Minus(want, s), s)
    ensures Join(Minus(s, Share(want, s)), Share(want, s)) == s && Disjoint(Minus(s, Share(want, s)), want)
  {
    BothHalves(want, s);
    BothHalves(s, want);
    Apart(want, s);
    Apart(s, want);
    ImmediateClearsItsShare(want, s);
    ShareCommutes(want, s);
    hide Join;
    hide Minus;
    hide Disjoint;
  }

  lemma BothHalves(a: Bits, b: Bits)
    ensures Join(Share(a, b), Minus(a, b)) == a && Join(Minus(a, b), Share(a, b)) == a
  {
  }

  lemma Apart(a: Bits, b: Bits)
    ensures Disjoint(Minus(a, b), b)
  {
  }

  /** The test at the head of rt_event_recv. */
  predicate Test(want: Bits, info: bv8, set_: Bits) {
    if WantsAll(info) then set_ & want == want else set_ & want != 0
  }

  function Threads(ws: seq<Waiter>): (r: seq<Tid>)
    ensures |r| == |ws|
  {
    if ws == [] then [] else [ws[0].t] + Threads(ws[1..])
  }
}
