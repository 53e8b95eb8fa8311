/** The message queue of ipc.c.  Sending reserves a pool node in one atomic section, fills it with
    interrupts enabled and links it in a second section; receiving unlinks, copies and returns the
    node likewise.  Calls of other threads and interrupt handlers run between any two of these. */
module MessageQueue {
  import opened Lists
  import opened IpcList

  type Node = nat
  type Bytes = seq<int>

  /** What became of a linked message. */
  datatype Fate =
    | Queued
    | InHand(n: Node)                       // unlinked by a receiver that holds node `n`
    | Delivered(got: Bytes)                 // copied into that receiver's buffer
    | Dropped                               // released by a reset

  datatype Record = Record(msg: Bytes, urgent: bool, fate: Fate)

  /** A call between its atomic sections, by the node its local variable points to. */
  datatype Call =
    | Reserved(urgent: bool, msg: Bytes)
    | Filled(urgent: bool, msg: Bytes)
    | Taken(want: nat, id: nat)
    | Copied

  datatype Entry = Entry(node: Node, id: nat)

  /** `log` is history: one record per message ever linked, numbered in link order. */
  datatype State = State(
    max: nat, size: nat,
    free: seq<Node>, queue: seq<Entry>, held: map<Node, Call>, buf: seq<Bytes>,
    recv: Side, log: seq<Record>)

  datatype Action =
    | Reserve(msg: Bytes, urgent: bool)
    | Fill(n: Node)
    | Link(n: Node)
    | Recv(t: Tid, want: nat, wait: bool, k: nat)
    | Copy(n: Node)
    | Release(n: Node)
    | RecvTimeout(k: nat)
    | Reset

  /** RT_ASSERT: the buffer is not empty.  The other conditions say that the acting call exists. */
  predicate Enabled(s: State, a: Action) {
    match a
    case Reserve(msg, _) => msg != []
    case Fill(n) => n in s.held && s.held[n].Reserved? && n < |s.buf|
    case Link(n) => n in s.held && s.held[n].Filled?
    case Recv(t, want, _, k) => want > 0 && t !in s.recv.waiting && k <= |s.recv.waiting|
    case Copy(n) => n in s.held && s.held[n].Taken? && n < |s.buf| && s.held[n].id < |s.log|
    case Release(n) => n in s.held && s.held[n].Copied?
    case RecvTimeout(k) => k < |s.recv.waiting|
    case Reset => true
  }

  function Min(a: nat, b: nat): nat { if a < b then a else b }

  /** rt_memcpy of `msg` over the front of a buffer. */
  function Overwrite(buf: Bytes, msg: Bytes): Bytes {
    msg + buf[Min(|msg|, |buf|)..]
  }

  function Nodes(q: seq<Entry>): (r: seq<Node>)
    ensures |r| == |q|
  {
    if q == [] then [] else [q[0].node] + Nodes(q[1..])
  }

  function Ids(q: seq<Entry>): (r: seq<nat>)
    ensures |r| == |q|
  {
    if q == [] then [] else [q[0].id] + Ids(q[1..])
  }

  function SetFate(log: seq<Record>, id: nat, f: Fate): (r: seq<Record>)
    ensures |r| == |log|
  {
    if id < |log| then log[id := log[id].(fate := f)] else log
  }

  /** One turn of the reset loop: the first message is dropped and its node becomes free. */
  function DropFront(s: State): (r: State)
    requires s.queue != []
  {
    s.(free := [s.queue[0].node] + s.free, queue := s.queue[1..], log := SetFate(s.log, s.queue[0].id, Dropped))
  }

  /** Moving the queue to the free list node by node, as the reset loop does. */
  function Drain(s: State): (r: State)
    decreases |s.queue|
  {
    if s.queue == [] then s
    else Drain(DropFront(s))
  }

  function Step(s: State, a: Action): (r: State)
    requires Enabled(s, a)
  {
    match a
    case Reserve(msg, urgent) =>
      if |msg| > s.size || s.free == [] then s
      else s.(free := s.free[1..], held := s.held[s.free[0] := Reserved(urgent, msg)])
    case Fill(n) =>
      s.(buf := s.buf[n := Overwrite(s.buf[n], s.held[n].msg)], held := s.held[n := Filled(s.held[n].urgent, s.held[n].msg)])
    case Link(n) =>
      var e := Entry(n, |s.log|);
      s.(queue := if s.held[n].urgent then [e] + s.queue else s.queue + [e],
         held := s.held - {n}, log := s.log + [Record(s.held[n].msg, s.held[n].urgent, Queued)], recv := s.recv.WakeOne())
    case Recv(t, want, wait, k) =>
      if s.queue == [] then s.(recv := if wait then s.recv.Suspends(t, k) else s.recv.Checks(t))
      else
        var e := s.queue[0];
        s.(queue := s.queue[1..], held := s.held[e.node := Taken(want, e.id)],
           log := SetFate(s.log, e.id, InHand(e.node)), recv := s.recv.Checks(t))
    case Copy(n) =>
      var c := s.held[n];
      s.(held := s.held[n := Copied], log := SetFate(s.log, c.id, Delivered(s.buf[n][..Min(c.want, |s.buf[n]|)])))
    case Release(n) =>
      s.(free := [n] + s.free, held := s.held - {n})
    case RecvTimeout(k) => s.(recv := s.recv.TimesOut(k))
    case Reset => Drain(s.(recv := s.recv.WakeAll()))
  }

  function Run(s: State, run: seq<Action>): State
    decreases |run|
  {
    if run == [] then s
    else Run(if Enabled(s, run[0]) then Step(s, run[0]) else s, run[1..])
  }

  // ---- Where each node is -----------------------------------------------------------------------

  function In(n: Node, held: map<Node, Call>): nat { if n in held then 1 else 0 }

  /** Each node of the pool is in exactly one place: free, queued, or held by one call. */
  ghost predicate Partition(s: State) {
    && (forall n: Node ::
          multiset(s.free)[n] + multiset(Nodes(s.queue))[n] + In(n, s.held) == if n < s.max then 1 else 0)
    && |s.free| + |s.queue| + |s.held| == s.max
  }

  lemma PopFront<T>(s: seq<T>)
    requires s != []
    ensures multiset(s) == multiset{s[0]} + multiset(s[1..])
  {
    assert s == [s[0]] + s[1..];
  }

  lemma {:induction false} NodesAppend(q: seq<Entry>, e: Entry)
    ensures Nodes(q + [e]) == Nodes(q) + [e.node] && Ids(q + [e]) == Ids(q) + [e.id]
  {
    if q == [] {
      assert q + [e] == [e] && [e][1..] == [];
    } else {
      assert (q + [e])[1..] == q[1..] + [e];
      NodesAppend(q[1..], e);
    }
  }

  lemma NodesPrepend(q: seq<Entry>, e: Entry)
    ensures Nodes([e] + q) == [e.node] + Nodes(q) && Ids([e] + q) == [e.id] + Ids(q)
  {
    assert ([e] + q)[1..] == q;
  }

  lemma DropFrontPartition(s: State)
    requires Partition(s) && s.queue != []
    ensures Partition(DropFront(s))
  {
    PopFront(Nodes(s.queue));
  }

  lemma {:induction false} DrainKeepsPartition(s: State)
    requires Partition(s)
    ensures Partition(Drain(s)) && Drain(s).queue == [] && Drain(s).held == s.held && Drain(s).buf == s.buf
    ensures Drain(s).recv == s.recv && |Drain(s).log| == |s.log| && Drain(s).max == s.max && Drain(s).size == s.size
    decreases |s.queue|
  {
    if s.queue != [] {
      DropFrontPartition(s);
      hide Partition;
      DrainKeepsPartition(DropFront(s));
    }
  }

  lemma ReservePartition(s: State, msg: Bytes, urgent: bool)
    requires Partition(s) && msg != []
    ensures Partition(Step(s, Reserve(msg, urgent)))
  {
    hide Nodes;
    if s.free != [] {
      PopFront(s.free);
      var f := s.free[0];
      assert multiset(s.free)[f] + multiset(Nodes(s.queue))[f] + In(f, s.held) <= 1;
    }
  }

  lemma LinkPartition(s: State, n: Node)
    requires Partition(s) && Enabled(s, Link(n))
    ensures Partition(Step(s, Link(n)))
  {
    var e := Entry(n, |s.log|);
    NodesAppend(s.queue, e);
    NodesPrepend(s.queue, e);
    assert (s.held - {n}).Keys == s.held.Keys - {n};
  }

  lemma TakePartition(s: State, t: Tid, want: nat, wait: bool, k: nat)
    requires Partition(s) && Enabled(s, Recv(t, want, wait, k))
    ensures Partition(Step(s, Recv(t, want, wait, k)))
  {
    if s.queue != [] {
      PopFront(Nodes(s.queue));
      var n := s.queue[0].node;
      assert multiset(s.free)[n] + multiset(Nodes(s.queue))[n] + In(n, s.held) <= 1;
    }
  }

  lemma ReleasePartition(s: State, n: Node)
    requires Partition(s) && Enabled(s, Release(n))
    ensures Partition(Step(s, Release(n)))
  {
    assert (s.held - {n}).Keys == s.held.Keys - {n};
  }

  lemma UpdatePartition(s: State, a: Action)
    requires Partition(s) && Enabled(s, a) && (a.Fill? || a.Copy? || a.RecvTimeout?)
    ensures Partition(Step(s, a))
  {
    if !a.RecvTimeout? {
      assert Step(s, a).held.Keys == s.held.Keys;
    }
  }

  lemma StepKeepsPartition(s: State, a: Action)
    requires Partition(s) && Enabled(s, a)
    ensures Partition(Step(s, a))
  {
    hide Partition;
    match a
    case Reserve(msg, urgent) => ReservePartition(s, msg, urgent);
    case Link(n) => LinkPartition(s, n);
    case Recv(t, want, wait, k) => TakePartition(s, t, want, wait, k);
    case Release(n) => ReleasePartition(s, n);
    case Reset =>
      ResidePartition(s);
      DrainKeepsPartition(s.(recv := s.recv.WakeAll()));
    case _ => UpdatePartition(s, a);
  }

  lemma ResidePartition(s: State)
    requires Partition(s)
    ensures Partition(s.(recv := s.recv.WakeAll()))
  {
  }

  // ---- What becomes of each message --------------------------------------------------------------

  predicate IsQueued(log: seq<Record>, id: nat) { id < |log| && log[id].fate.Queued? }

  /** The queue holds exactly the messages whose fate is still open, each once. */
  ghost predicate Open(q: seq<Entry>, log: seq<Record>) {
    forall id: nat :: multiset(Ids(q))[id] == if IsQueued(log, id) then 1 else 0
  }

  /** A message in a receiver's hands is the one that receiver's node carries. */
  ghost predicate InHands(held: map<Node, Call>, log: seq<Record>) {
    && (forall id :: 0 <= id < |log| && log[id].fate.InHand? ==>
          var n := log[id].fate.n; n in held && held[n].Taken? && held[n].id == id)
    && (forall n :: n in held && held[n].Taken? ==> held[n].id < |log| && log[held[n].id].fate == InHand(n))
  }

  ghost predicate Tracked(s: State) {
    Open(s.queue, s.log) && InHands(s.held, s.log)
  }

  lemma OpenPop(q: seq<Entry>, log: seq<Record>, f: Fate)
    requires Open(q, log) && q != [] && !f.Queued?
    ensures IsQueued(log, q[0].id) && Open(q[1..], SetFate(log, q[0].id, f))
  {
    PopFront(Ids(q));
    assert Ids(q)[1..] == Ids(q[1..]);
    var log' := SetFate(log, q[0].id, f);
    forall id: nat ensures multiset(Ids(q[1..]))[id] == if IsQueued(log', id) then 1 else 0 {
      assert multiset(Ids(q))[id] == multiset{q[0].id}[id] + multiset(Ids(q[1..]))[id];
    }
  }

  lemma OpenPush(q: seq<Entry>, log: seq<Record>, e: Entry, msg: Bytes, front: bool)
    requires Open(q, log) && e.id == |log|
    ensures Open(if front then [e] + q else q + [e], log + [Record(msg, front, Queued)])
  {
    NodesAppend(q, e);
    NodesPrepend(q, e);
    assert multiset(Ids(q))[|log|] == 0;
  }

  lemma DropFrontTracked(s: State)
    requires Tracked(s) && s.queue != []
    ensures Tracked(DropFront(s))
  {
    hide Open;
    OpenPop(s.queue, s.log, Dropped);
  }

  lemma {:induction false} DrainKeepsTracked(s: State)
    requires Tracked(s)
    ensures Tracked(Drain(s))
    decreases |s.queue|
  {
    hide Tracked;
    if s.queue != [] {
      DropFrontTracked(s);
      DrainKeepsTracked(DropFront(s));
    }
  }

  lemma LinkTracked(s: State, n: Node)
    requires Tracked(s) && Enabled(s, Link(n))
    ensures Tracked(Step(s, Link(n)))
  {
    hide Open;
    OpenPush(s.queue, s.log, Entry(n, |s.log|), s.held[n].msg, s.held[n].urgent);
  }

  lemma TakeTracked(s: State, t: Tid, want: nat, wait: bool, k: nat)
    requires Tracked(s) && Enabled(s, Recv(t, want, wait, k)) && (s.queue != [] ==> s.queue[0].node !in s.held)
    ensures Tracked(Step(s, Recv(t, want, wait, k)))
  {
    hide Open;
    if s.queue != [] {
      OpenPop(s.queue, s.log, InHand(s.queue[0].node));
    }
  }

  lemma CopyTracked(s: State, n: Node)
    requires Tracked(s) && Enabled(s, Copy(n))
    ensures Tracked(Step(s, Copy(n)))
  {
  }

  lemma OtherTracked(s: State, a: Action)
    requires Tracked(s) && Enabled(s, a) && (a.Reserve? || a.Fill? || a.Release? || a.RecvTimeout?)
    requires a.Reserve? && s.free != [] ==> s.free[0] !in s.held
    ensures Tracked(Step(s, a))
  {
  }

  /** Free and queued nodes are in nobody's hands. */
  lemma OwnedOnce(s: State)
    requires Partition(s)
    ensures forall i :: 0 <= i < |s.free| ==> s.free[i] !in s.held && s.free[i] < s.max
    ensures forall i :: 0 <= i < |s.queue| ==> s.queue[i].node !in s.held && s.queue[i].node < s.max
    ensures forall n :: n in s.held ==> n < s.max
  {
    forall i | 0 <= i < |s.free| ensures s.free[i] !in s.held && s.free[i] < s.max {
      assert multiset(s.free)[s.free[i]] > 0;
      assert multiset(s.free)[s.free[i]] + multiset(Nodes(s.queue))[s.free[i]] + In(s.free[i], s.held) <= 1;
    }
    forall i | 0 <= i < |s.queue| ensures s.queue[i].node !in s.held && s.queue[i].node < s.max {
      var n := s.queue[i].node;
      NodesAt(s.queue, i);
      assert multiset(Nodes(s.queue))[n] > 0;
      assert multiset(s.free)[n] + multiset(Nodes(s.queue))[n] + In(n, s.held) <= 1;
    }
    forall n | n in s.held ensures n < s.max {
      assert multiset(s.free)[n] + multiset(Nodes(s.queue))[n] + In(n, s.held) > 0;
    }
  }

  lemma {:induction false} NodesAt(q: seq<Entry>, i: nat)
    requires i < |q|
    ensures Nodes(q)[i] == q[i].node && Ids(q)[i] == q[i].id
  {
    if i > 0 {
      NodesAt(q[1..], i - 1);
    }
  }

  lemma StepKeepsTracked(s: State, a: Action)
    requires Partition(s) && Tracked(s) && Enabled(s, a)
    ensures Tracked(Step(s, a))
  {
    hide Tracked; hide Partition;
    OwnedOnce(s);
    match a
    case Link(n) => LinkTracked(s, n);
    case Recv(t, want, wait, k) => TakeTracked(s, t, want, wait, k);
    case Copy(n) => CopyTracked(s, n);
    case Reset =>
      WakeTracked(s);
      DrainKeepsTracked(s.(recv := s.recv.WakeAll()));
    case _ => OtherTracked(s, a);
  }

  lemma WakeTracked(s: State)
    requires Tracked(s)
    ensures Tracked(s.(recv := s.recv.WakeAll()))
  {
  }

  // ---- Contents -------------------------------------------------------------------------------------

  predicate StartsWith(buf: Bytes, msg: Bytes) { |msg| <= |buf| && buf[..|msg|] == msg }

  /** A receiver's copy agrees with what was sent, as far as both reach. */
  predicate Agrees(msg: Bytes, got: Bytes) {
    msg[..Min(|msg|, |got|)] == got[..Min(|msg|, |got|)]
  }

  ghost predicate CallIntact(c: Call, buf: Bytes, log: seq<Record>) {
    match c
    case Reserved(_, msg) => |msg| <= |buf|
    case Filled(_, msg) => StartsWith(buf, msg)
    case Taken(_, id) => id < |log| && StartsWith(buf, log[id].msg)
    case Copied => true
  }

  ghost predicate Intact(s: State) {
    && |s.buf| == s.max && (forall n :: 0 <= n < s.max ==> |s.buf[n]| == s.size)
    && (forall i :: 0 <= i < |s.queue| ==>
          s.queue[i].node < s.max && s.queue[i].id < |s.log| && StartsWith(s.buf[s.queue[i].node], s.log[s.queue[i].id].msg))
    && (forall n :: n in s.held ==> n < s.max && CallIntact(s.held[n], s.buf[n], s.log))
    && (forall id :: 0 <= id < |s.log| && s.log[id].fate.Delivered? ==> Agrees(s.log[id].msg, s.log[id].fate.got))
  }

  lemma StepKeepsIntact(s: State, a: Action)
    requires Partition(s) && Intact(s) && Enabled(s, a)
    ensures Intact(Step(s, a))
  {
    hide Partition; hide Intact;
    OwnedOnce(s);
    match a
    case Reset =>
      WakeIntact(s);
      DrainKeepsIntact(s.(recv := s.recv.WakeAll()));
    case Fill(n) => FillIntact(s, n);
    case Link(n) => LinkIntact(s, n);
    case Recv(t, want, wait, k) => TakeIntact(s, t, want, wait, k);
    case Copy(n) => CopyIntact(s, n);
    case _ => OtherIntact(s, a);
  }

  lemma WakeIntact(s: State)
    requires Intact(s)
    ensures Intact(s.(recv := s.recv.WakeAll()))
  {
  }

  lemma LinkIntact(s: State, n: Node)
    requires Intact(s) && Enabled(s, Link(n))
    ensures Intact(Step(s, Link(n)))
  {
    hide StartsWith;
    hide Agrees;
  }

  lemma TakeIntact(s: State, t: Tid, want: nat, wait: bool, k: nat)
    requires Intact(s) && Enabled(s, Recv(t, want, wait, k))
    ensures Intact(Step(s, Recv(t, want, wait, k)))
  {
  }

  lemma CopyIntact(s: State, n: Node)
    requires Intact(s) && Enabled(s, Copy(n))
    ensures Intact(Step(s, Copy(n)))
  {
    var c := s.held[n];
    var msg, got := s.log[c.id].msg, s.buf[n][..Min(c.want, |s.buf[n]|)];
    var m := Min(|msg|, |got|);
    assert got[..m] == s.buf[n][..|msg|][..m] == msg[..m];
  }

  lemma OtherIntact(s: State, a: Action)
    requires Intact(s) && Enabled(s, a) && (a.Reserve? || a.Release? || a.RecvTimeout?)
    requires s.free != [] ==> s.free[0] < s.max
    ensures Intact(Step(s, a))
  {
  }

  lemma FillIntact(s: State, n: Node)
    requires Intact(s) && Enabled(s, Fill(n)) && forall i :: 0 <= i < |s.queue| ==> s.queue[i].node != n
    ensures Intact(Step(s, Fill(n)))
  {
    var m := s.held[n].msg;
    assert Overwrite(s.buf[n], m)[..|m|] == m;
  }

  lemma {:induction false} DrainKeepsIntact(s: State)
    requires Intact(s)
    ensures Intact(Drain(s))
    decreases |s.queue|
  {
    if s.queue != [] {
      DrainKeepsIntact(DropFront(s));
    }
  }

  // ---- Every run --------------------------------------------------------------------------------------

  ghost predicate Awake(s: State) {
    s.recv.Ok() && NoLostWakeup(|s.queue|, s.recv)
  }

  lemma StepKeepsAwake(s: State, a: Action)
    requires Awake(s) && Enabled(s, a)
    ensures Awake(Step(s, a))
  {
    hide NoLostWakeup; hide Side.Ok; hide Side.WakeOne; hide Side.Checks; hide Side.Suspends; hide Side.TimesOut; hide SetFate;
    match a
    case Link(n) => PutKeeps(|s.queue|, s.recv);
    case Recv(t, want, wait, k) =>
      if s.queue != [] {
        TakeKeeps(|s.queue|, s.recv, t);
      } else if wait {
        SuspendKeeps(s.recv, t, k);
      } else {
        ChecksKeeps(0, s.recv, t);
      }
    case RecvTimeout(k) => TimeoutKeeps(|s.queue|, s.recv, k);
    case Reset =>
      WakeAllKeeps(0, s.recv);
      DrainRecv(s.(recv := s.recv.WakeAll()));
    case _ =>
  }

  lemma {:induction false} DrainRecv(s: State)
    ensures Drain(s).recv == s.recv && Drain(s).queue == []
    decreases |s.queue|
  {
    if s.queue != [] {
      DrainRecv(DropFront(s));
    }
  }

  ghost predicate Inv(s: State) {
    Partition(s) && Tracked(s) && Intact(s) && Awake(s)
  }

  lemma StepKeepsInv(s: State, a: Action)
    requires Inv(s) && Enabled(s, a)
    ensures Inv(Step(s, a))
  {
    hide Partition; hide Tracked; hide Intact; hide Awake; hide Step;
    StepKeepsPartition(s, a);
    StepKeepsTracked(s, a);
    StepKeepsIntact(s, a);
    StepKeepsAwake(s, a);
  }

  /** The free list as rt_mq_init leaves it: the last node first. */
  function Countdown(n: nat): (r: seq<Node>)
    ensures |r| == n
  {
    if n == 0 then [] else [n - 1] + Countdown(n - 1)
  }

  function Initial(max: nat, size: nat): State {
    State(max, size, Countdown(max), [], map[], seq(max, _ => seq(size, _ => 0)), Side([], {}), [])
  }

  lemma {:induction false} CountdownOnce(max: nat, n: Node)
    ensures multiset(Countdown(max))[n] == if n < max then 1 else 0
  {
    if max > 0 {
      CountdownOnce(max - 1, n);
    }
  }

  lemma InitialInv(max: nat, size: nat)
    ensures Inv(Initial(max, size))
  {
    var s := Initial(max, size);
    forall n: Node ensures multiset(s.free)[n] + multiset(Nodes(s.queue))[n] + In(n, s.held) == if n < s.max then 1 else 0 {
      CountdownOnce(max, n);
    }
  }

  lemma {:induction false} RunKeepsInv(s: State, run: seq<Action>)
    requires Inv(s)
    ensures Inv(Run(s, run))
    decreases |run|
  {
    hide Inv; hide Step;
    if run != [] {
      if Enabled(s, run[0]) {
        StepKeepsInv(s, run[0]);
      }
      RunKeepsInv(if Enabled(s, run[0]) then Step(s, run[0]) else s, run[1..]);
    }
  }

  /** A delivered or dropped message stays what it is, and no message is ever altered. */
  ghost predicate Settled(a: seq<Record>, b: seq<Record>) {
    |a| <= |b| && forall id :: 0 <= id < |a| ==>
      && b[id].msg == a[id].msg && b[id].urgent == a[id].urgent
      && (a[id].fate.Delivered? || a[id].fate.Dropped? ==> b[id].fate == a[id].fate)
      && (a[id].fate.InHand? ==> b[id].fate == a[id].fate || b[id].fate.Delivered?)
  }

  lemma {:induction false} DrainSettles(s: State)
    requires Open(s.queue, s.log)
    ensures Settled(s.log, Drain(s).log)
    decreases |s.queue|
  {
    if s.queue != [] {
      hide Open;
      OpenPop(s.queue, s.log, Dropped);
      DrainSettles(DropFront(s));
    }
  }

  lemma StepSettles(s: State, a: Action)
    requires Tracked(s) && Enabled(s, a)
    ensures Settled(s.log, Step(s, a).log)
  {
    hide Open;
    match a
    case Recv(_, _, _, _) =>
      if s.queue != [] {
        OpenPop(s.queue, s.log, InHand(s.queue[0].node));
      }
    case Reset => DrainSettles(s.(recv := s.recv.WakeAll()));
    case _ =>
  }

  lemma {:induction false} RunSettles(s: State, run: seq<Action>)
    requires Inv(s)
    ensures Settled(s.log, Run(s, run).log)
    decreases |run|
  {
    if run != [] {
      hide Partition; hide Tracked; hide Intact; hide Awake; hide Step;
      var s1 := if Enabled(s, run[0]) then Step(s, run[0]) else s;
      if Enabled(s, run[0]) {
        StepKeepsInv(s, run[0]);
        StepSettles(s, run[0]);
      }
      RunSettles(s1, run[1..]);
    }
  }

  /** The whole contract of the queue, for every interleaving of any calls: the pool is partitioned,
      every linked message is queued once, in one receiver's hands, delivered with its bytes intact,
      or dropped, and nothing that follows changes what was delivered. */
  lemma EveryRun(max: nat, size: nat, run: seq<Action>, more: seq<Action>)
    ensures var s := Run(Initial(max, size), run);
            && Inv(s)
            && Inv(Run(s, more))
            && Settled(s.log, Run(s, more).log)
  {
    hide Inv; hide Settled; hide Run; hide Initial;
    InitialInv(max, size);
    RunKeepsInv(Initial(max, size), run);
    RunKeepsInv(Run(Initial(max, size), run), more);
    RunSettles(Run(Initial(max, size), run), more);
  }

  /** What a reset makes of a message: a queued one is dropped. */
  function Resetted(r: Record): Record {
    if r.fate.Queued? then r.(fate := Dropped) else r
  }

  lemma {:induction false} DrainDrops(s: State)
    requires Open(s.queue, s.log)
    ensures |Drain(s).log| == |s.log| && forall id :: 0 <= id < |s.log| ==> Drain(s).log[id] == Resetted(s.log[id])
    ensures Drain(s).queue == [] && Drain(s).held == s.held && |Drain(s).free| == |s.free| + |s.queue|
    decreases |s.queue|
  {
    if s.queue == [] {
      forall id | 0 <= id < |s.log| ensures !s.log[id].fate.Queued? {
        assert multiset(Ids(s.queue))[id] == 0;
        assert !IsQueued(s.log, id);
      }
    } else {
      OpenPop(s.queue, s.log, Dropped);
      hide Open;
      DrainDrops(DropFront(s));
    }
  }

  /** A reset drops exactly the queued messages; what calls under way hold is left to them. */
  lemma ResetDrops(s: State)
    requires Inv(s)
    ensures var r := Step(s, Reset);
      && r.queue == [] && r.recv.waiting == [] && r.held == s.held && |r.free| == |s.free| + |s.queue|
      && |r.log| == |s.log| && forall id :: 0 <= id < |s.log| ==> r.log[id] == Resetted(s.log[id])
  {
    hide Partition; hide Intact; hide Awake; hide Open;
    DrainDrops(s.(recv := s.recv.WakeAll()));
    DrainRecv(s.(recv := s.recv.WakeAll()));
  }

  // ---- Order -----------------------------------------------------------------------------------------

  ghost predicate Increasing(q: seq<Entry>, bound: nat) {
    (forall i :: 0 <= i < |q| ==> q[i].id < bound) && forall i, j :: 0 <= i < j < |q| ==> q[i].id < q[j].id
  }

  ghost predicate NoUrgent(held: map<Node, Call>) {
    forall n :: n in held && (held[n].Reserved? || held[n].Filled?) ==> !held[n].urgent
  }

  predicate Plain(a: Action) { a.Reserve? ==> !a.urgent }

  /** As long as nobody sends urgently, the queue is first-in first-out. */
  lemma {:induction false} FifoWithoutUrgent(s: State, run: seq<Action>)
    requires Increasing(s.queue, |s.log|) && NoUrgent(s.held) && forall i :: 0 <= i < |run| ==> Plain(run[i])
    ensures var r := Run(s, run); Increasing(r.queue, |r.log|) && NoUrgent(r.held)
    decreases |run|
  {
    if run != [] {
      hide Increasing; hide NoUrgent; hide Step;
      if Enabled(s, run[0]) {
        StepInOrder(s, run[0]);
      }
      FifoWithoutUrgent(if Enabled(s, run[0]) then Step(s, run[0]) else s, run[1..]);
    }
  }

  lemma StepInOrder(s: State, a: Action)
    requires Increasing(s.queue, |s.log|) && NoUrgent(s.held) && Plain(a) && Enabled(s, a)
    ensures var r := Step(s, a); Increasing(r.queue, |r.log|) && NoUrgent(r.held)
  {
    if a.Reset? {
      DrainRecv(s.(recv := s.recv.WakeAll()));
      DrainHeld(s.(recv := s.recv.WakeAll()));
    }
  }

  lemma {:induction false} DrainHeld(s: State)
    ensures Drain(s).held == s.held
    decreases |s.queue|
  {
    if s.queue != [] {
      DrainHeld(DropFront(s));
    }
  }

  // ---- Urgent messages --------------------------------------------------------------------------------

  /** Of two queued messages the one linked later stands ahead exactly if it was sent urgently. */
  ghost predicate Placed(q: seq<Entry>, log: seq<Record>) {
    && (forall i :: 0 <= i < |q| ==> q[i].id < |log|)
    && forall i, j :: 0 <= i < j < |q| ==>
         if q[j].id < q[i].id then log[q[i].id].urgent else q[i].id < q[j].id && !log[q[j].id].urgent
  }

  lemma PlacedFront(q: seq<Entry>, log: seq<Record>, n: Node, msg: Bytes)
    requires Placed(q, log)
    ensures Placed([Entry(n, |log|)] + q, log + [Record(msg, true, Queued)])
  {
    var r := [Entry(n, |log|)] + q;
    assert forall i :: 0 < i < |r| ==> r[i] == q[i - 1];
  }

  lemma PlacedBack(q: seq<Entry>, log: seq<Record>, n: Node, msg: Bytes)
    requires Placed(q, log)
    ensures Placed(q + [Entry(n, |log|)], log + [Record(msg, false, Queued)])
  {
    var r := q + [Entry(n, |log|)];
    assert forall i :: 0 <= i < |q| ==> r[i] == q[i];
  }

  lemma PlacedTail(q: seq<Entry>, log: seq<Record>, f: Fate)
    requires Placed(q, log) && q != []
    ensures Placed(q[1..], SetFate(log, q[0].id, f))
  {
    var r := q[1..];
    assert forall i :: 0 <= i < |r| ==> r[i] == q[i + 1];
  }

  lemma StepKeepsPlaced(s: State, a: Action)
    requires Placed(s.queue, s.log) && Enabled(s, a) && (a.Copy? ==> s.held[a.n].id < |s.log|)
    ensures Placed(Step(s, a).queue, Step(s, a).log)
  {
    match a
    case Link(n) =>
      hide Placed;
      if s.held[n].urgent {
        PlacedFront(s.queue, s.log, n, s.held[n].msg);
      } else {
        PlacedBack(s.queue, s.log, n, s.held[n].msg);
      }
    case Recv(_, _, _, _) =>
      hide Placed;
      if s.queue != [] {
        PlacedTail(s.queue, s.log, InHand(s.queue[0].node));
      }
    case Reset => DrainRecv(s.(recv := s.recv.WakeAll()));
    case _ =>
  }

  /** In every run. */
  lemma {:induction false} RunKeepsPlaced(s: State, run: seq<Action>)
    requires Placed(s.queue, s.log)
    ensures Placed(Run(s, run).queue, Run(s, run).log)
    decreases |run|
  {
    hide Placed; hide Step;
    if run != [] {
      if Enabled(s, run[0]) {
        StepKeepsPlaced(s, run[0]);
      }
      RunKeepsPlaced(if Enabled(s, run[0]) then Step(s, run[0]) else s, run[1..]);
    }
  }

  /** A receive right after an urgent message was linked takes exactly that message. */
  lemma UrgentIsNext(s: State, n: Node, t: Tid, want: nat, wait: bool, k: nat)
    requires n in s.held && s.held[n].Filled? && s.held[n].urgent
    requires Enabled(Step(s, Link(n)), Recv(t, want, wait, k))
    ensures var r := Step(Step(s, Link(n)), Recv(t, want, wait, k));
      && n in r.held && r.held[n] == Taken(want, |s.log|)
      && |r.log| == |s.log| + 1 && r.log[|s.log|] == Record(s.held[n].msg, true, InHand(n))
      && r.queue == s.queue
  {
  }

  // ---- The queue as a deque ------------------------------------------------------------------------------

  /** What a caller asked to have sent. */
  datatype Ask = Ask(msg: Bytes, urgent: bool)

  /** Requests under way by node, requests linked so far, and the messages a receiver can still get. */
  datatype Deque = Deque(pending: map<Node, Ask>, sent: seq<Ask>, msgs: seq<Bytes>)

  /** What an action means for the callers: a request is accepted when there is a node for it, its second section puts the
      message at one of the ends, and a receive takes the first. */
  function Meaning(s: State, b: Deque, a: Action): Deque {
    match a
    case Reserve(msg, urgent) =>
      if |msg| <= s.size && s.free != [] then b.(pending := b.pending[s.free[0] := Ask(msg, urgent)]) else b
    case Link(n) =>
      if n !in b.pending then b
      else
        var ask := b.pending[n];
        Deque(b.pending - {n}, b.sent + [ask], if ask.urgent then [ask.msg] + b.msgs else b.msgs + [ask.msg])
    case Recv(_, _, _, _) => if b.msgs == [] then b else b.(msgs := b.msgs[1..])
    case Reset => b.(msgs := [])
    case _ => b
  }

  ghost function MeaningOf(s: State, b: Deque, run: seq<Action>): Deque
    decreases |run|
  {
    if run == [] then b
    else if !Enabled(s, run[0]) then MeaningOf(s, b, run[1..])
    else MeaningOf(Step(s, run[0]), Meaning(s, b, run[0]), run[1..])
  }

  function Messages(q: seq<Entry>, log: seq<Record>): (r: seq<Bytes>)
    ensures |r| == |q|
  {
    if q == [] then []
    else [if q[0].id < |log| then log[q[0].id].msg else []] + Messages(q[1..], log)
  }

  ghost predicate AskedFor(held: map<Node, Call>, pending: map<Node, Ask>) {
    forall n :: n in held && (held[n].Reserved? || held[n].Filled?) ==>
      n in pending && pending[n] == Ask(held[n].msg, held[n].urgent)
  }

  ghost predicate Recorded(log: seq<Record>, sent: seq<Ask>) {
    |log| == |sent| && forall id :: 0 <= id < |log| ==> log[id].msg == sent[id].msg && log[id].urgent == sent[id].urgent
  }

  /** The nodes and their payloads stand for the deque. */
  ghost predicate Simulates(s: State, b: Deque) {
    && AskedFor(s.held, b.pending) && Recorded(s.log, b.sent)
    && Messages(s.queue, s.log) == b.msgs && forall i :: 0 <= i < |s.queue| ==> s.queue[i].id < |s.log|
  }

  lemma {:induction false} MessagesFrame(q: seq<Entry>, log: seq<Record>, log': seq<Record>)
    requires |log| <= |log'| && forall id :: 0 <= id < |log| ==> log'[id].msg == log[id].msg
    requires forall i :: 0 <= i < |q| ==> q[i].id < |log|
    ensures Messages(q, log') == Messages(q, log)
  {
    if q != [] {
      MessagesFrame(q[1..], log, log');
    }
  }

  lemma {:induction false} MessagesAppend(q: seq<Entry>, e: Entry, log: seq<Record>)
    requires e.id < |log|
    ensures Messages(q + [e], log) == Messages(q, log) + [log[e.id].msg]
  {
    if q == [] {
      assert q + [e] == [e] && [e][1..] == [];
    } else {
      assert (q + [e])[1..] == q[1..] + [e];
      MessagesAppend(q[1..], e, log);
    }
  }

  lemma LinkSimulates(s: State, b: Deque, n: Node)
    requires Simulates(s, b) && Enabled(s, Link(n))
    ensures Simulates(Step(s, Link(n)), Meaning(s, b, Link(n)))
  {
    var ask, e := b.pending[n], Entry(n, |s.log|);
    var log := s.log + [Record(ask.msg, ask.urgent, Queued)];
    MessagesFrame(s.queue, s.log, log);
    MessagesAppend(s.queue, e, log);
    assert ([e] + s.queue)[1..] == s.queue;
  }

  lemma RecvSimulates(s: State, b: Deque, a: Action)
    requires Simulates(s, b) && a.Recv? && Enabled(s, a) && (s.queue != [] ==> s.queue[0].node !in s.held)
    ensures Simulates(Step(s, a), Meaning(s, b, a))
  {
    if s.queue != [] {
      var e := s.queue[0];
      var log := SetFate(s.log, e.id, InHand(e.node));
      MessagesFrame(s.queue[1..], s.log, log);
    }
  }

  lemma {:induction false} DrainRecords(s: State, sent: seq<Ask>)
    requires Recorded(s.log, sent)
    ensures Recorded(Drain(s).log, sent) && Drain(s).held == s.held && Drain(s).queue == []
    decreases |s.queue|
  {
    if s.queue != [] {
      DrainRecords(DropFront(s), sent);
    }
  }

  lemma StepSimulates(s: State, b: Deque, a: Action)
    requires Inv(s) && Simulates(s, b) && Enabled(s, a)
    ensures Simulates(Step(s, a), Meaning(s, b, a))
  {
    OwnedOnce(s);
    hide Inv; hide Simulates;
    match a
    case Link(n) => LinkSimulates(s, b, n);
    case Recv(_, _, _, _) => RecvSimulates(s, b, a);
    case Reset => ResetSimulates(s, b);
    case Copy(n) => CopySimulates(s, b, n);
    case _ => OtherSimulates(s, b, a);
  }

  lemma ResetSimulates(s: State, b: Deque)
    requires Simulates(s, b)
    ensures Simulates(Step(s, Reset), Meaning(s, b, Reset))
  {
    DrainRecords(s.(recv := s.recv.WakeAll()), b.sent);
  }

  lemma CopySimulates(s: State, b: Deque, n: Node)
    requires Simulates(s, b) && Enabled(s, Copy(n))
    ensures Simulates(Step(s, Copy(n)), Meaning(s, b, Copy(n)))
  {
    MessagesFrame(s.queue, s.log, Step(s, Copy(n)).log);
  }

  lemma OtherSimulates(s: State, b: Deque, a: Action)
    requires Simulates(s, b) && Enabled(s, a) && (a.Reserve? || a.Fill? || a.Release? || a.RecvTimeout?)
    ensures Simulates(Step(s, a), Meaning(s, b, a))
  {
  }

  lemma {:induction false} RunSimulates(s: State, b: Deque, run: seq<Action>)
    requires Inv(s) && Simulates(s, b)
    ensures Simulates(Run(s, run), MeaningOf(s, b, run))
    decreases |run|
  {
    hide Inv; hide Simulates; hide Step; hide Meaning;
    if run != [] {
      if Enabled(s, run[0]) {
        StepKeepsInv(s, run[0]);
        StepSimulates(s, b, run[0]);
        RunSimulates(Step(s, run[0]), Meaning(s, b, run[0]), run[1..]);
      } else {
        RunSimulates(s, b, run[1..]);
      }
    }
  }

  /** From initialisation, over every interleaving: the queued messages are the deque that the callers' requests make, the
      log is the list of these requests in link order, and later messages stand ahead exactly if urgent. */
  lemma QueueIsDeque(max: nat, size: nat, run: seq<Action>)
    ensures var s, b := Run(Initial(max, size), run), MeaningOf(Initial(max, size), Deque(map[], [], []), run);
      && Messages(s.queue, s.log) == b.msgs && Recorded(s.log, b.sent) && Placed(s.queue, s.log)
  {
    InitialInv(max, size);
    RunSimulates(Initial(max, size), Deque(map[], [], []), run);
    RunKeepsPlaced(Initial(max, size), run);
  }

  // ---- The linked nodes ---------------------------------------------------------------------------

  const NULL := -1

  /** Following `next` from `p` visits exactly the nodes `s` and ends in NULL. */
  ghost predicate Chain(next: seq<int>, p: int, s: seq<Node>)
    decreases |s|
  {
    if s == [] then p == NULL else p == s[0] && s[0] < |next| && Chain(next, next[s[0]], s[1..])
  }

  lemma {:induction false} ChainFrame(next: seq<int>, n: Node, v: int, p: int, s: seq<Node>)
    requires Chain(next, p, s) && n < |next| && n !in s
    ensures Chain(next[n := v], p, s)
    decreases |s|
  {
    if s != [] {
      ChainFrame(next, n, v, next[s[0]], s[1..]);
    }
  }

  lemma ChainEnds(next: seq<int>, p: int, s: seq<Node>)
    requires Chain(next, p, s)
    ensures p == NULL <==> s == []
  {
  }

  lemma ChainOne(next: seq<int>, n: Node)
    requires n < |next| && next[n] == NULL
    ensures Chain(next, n, [n])
  {
    assert [n][1..] == [];
  }

  lemma {:induction false} ChainAppend(next: seq<int>, p: int, s: seq<Node>, n: Node)
    requires Chain(next, p, s) && s != [] && Distinct(s) && n !in s && n < |next| && next[n] == NULL
    ensures s[|s| - 1] < |next| && Chain(next[s[|s| - 1] := n], p, s + [n])
    decreases |s|
  {
    var last := s[|s| - 1];
    assert (s + [n])[1..] == s[1..] + [n];
    if |s| == 1 {
      assert s[1..] == [] && [n][1..] == [];
      assert Chain(next[last := n], n, [n]);
    } else {
      assert s[1..][|s| - 2] == last;
      ChainAppend(next, next[s[0]], s[1..], n);
    }
  }

  lemma CountsDistinct(s: seq<Node>)
    requires forall n: Node :: multiset(s)[n] <= 1
    ensures Distinct(s)
  {
    forall i, j | 0 <= i < j < |s| ensures s[i] != s[j] {
      assert s == s[..i] + [s[i]] + s[i + 1..j] + [s[j]] + s[j + 1..];
      assert multiset(s)[s[i]] <= 1;
    }
  }

  /** The three places do not overlap, and neither list repeats a node. */
  lemma ListsDistinct(s: State)
    requires Partition(s)
    ensures Distinct(s.free) && Distinct(Nodes(s.queue))
    ensures forall n :: n in s.held ==> n !in s.free && n !in Nodes(s.queue) && n < s.max
    ensures forall n :: n in Nodes(s.queue) ==> n !in s.free && n < s.max
    ensures forall n :: n in s.free ==> n < s.max
  {
    var q: seq<Node> := Nodes(s.queue);
    forall n: Node ensures multiset(s.free)[n] <= 1 && multiset(q)[n] <= 1 && (n in q ==> n !in s.free && n < s.max) {
      assert multiset(s.free)[n] + multiset(q)[n] + In(n, s.held) == if n < s.max then 1 else 0;
      assert (n in q <==> n in multiset(q)) && (n in s.free <==> n in multiset(s.free));
    }
    forall n: Node ensures (n in s.held ==> n !in s.free && n !in q && n < s.max) && (n in s.free ==> n < s.max) {
      assert multiset(s.free)[n] + multiset(q)[n] + In(n, s.held) == if n < s.max then 1 else 0;
      assert (n in q <==> n in multiset(q)) && (n in s.free <==> n in multiset(s.free));
    }
    CountsDistinct(s.free);
    CountsDistinct(q);
  }

  datatype Reservation = TooLong | Full | Got(n: Node)

  datatype Reception = Received(n: Node) | Empty | Suspended

  class Queue {
    const max: nat
    const size: nat
    const flag: Flag
    var next: seq<int>                // the link field of each pool node
    var buf: seq<Bytes>               // the data bytes of each pool node
    var head: int
    var tail: int
    var freeList: int
    var entry: nat
    var receivers: seq<Tid>           // parent.suspend_thread
    ghost var st: State

    ghost function Last(q: seq<Node>): int { if q == [] then NULL else q[|q| - 1] }

    /** The pointers spell out the free list and the queue of `s`. */
    ghost predicate Spells(s: State) reads this {
      && |next| == s.max && buf == s.buf
      && Chain(next, freeList, s.free)
      && Chain(next, head, Nodes(s.queue)) && tail == Last(Nodes(s.queue))
      && (forall n :: n in s.held && n < s.max && s.held[n].Filled? && !s.held[n].urgent ==> next[n] == NULL)
    }

    ghost predicate Valid() reads this {
      && Inv(st) && st.max == max && st.size == size && Spells(st)
      && entry == |st.queue| && receivers == st.recv.waiting
    }

    /** rt_mq_init */
    constructor (n: nat, msgSize: nat, f: Flag)
      ensures Valid() && st == Initial(n, msgSize) && max == n && size == msgSize && flag == f
    {
      max, size, flag := n, msgSize, f;
      buf := seq(n, _ => seq(msgSize, _ => 0));
      head, tail, entry, receivers := NULL, NULL, 0, [];
      st := Initial(n, msgSize);
      var links, free := seq(n, _ => NULL), NULL;
      for i := 0 to n
        invariant |links| == n && Chain(links, free, Countdown(i))
      {
        CountdownBelow(i);
        ChainFrame(links, i, free, free, Countdown(i));
        assert ([i] + Countdown(i))[1..] == Countdown(i);
        links := links[i := free];
        free := i;
      }
      next, freeList := links, free;
      new;
      InitialInv(n, msgSize);
    }

    /** First section of rt_mq_send and rt_mq_urgent. */
    method ReserveNode(msg: Bytes, urgent: bool) returns (r: Reservation)
      requires Valid() && msg != []
      modifies this
      ensures Valid() && st == Step(old(st), Reserve(msg, urgent))
      ensures r == if |msg| > size then TooLong else if old(st.free) == [] then Full else Got(old(st.free)[0])
      ensures r.Got? ==> st.free == old(st.free)[1..] && st.held == old(st.held)[r.n := Reserved(urgent, msg)]
      ensures !r.Got? ==> st == old(st)
      ensures st.queue == old(st.queue) && st.log == old(st.log) && buf == old(buf) && receivers == old(receivers)
    {
      hide Inv; hide Nodes;
      if |msg| > size {
        return TooLong;
      }
      StepKeepsInv(st, Reserve(msg, urgent));
      var n := freeList;
      if n == NULL {
        return Full;
      }
      freeList := next[n];
      st := Step(st, Reserve(msg, urgent));
      return Got(n);
    }

    /** Between the sections of a send: the copy.  Only rt_mq_send clears the link here. */
    method FillNode(n: Node, msg: Bytes, urgent: bool)
      requires Valid() && n in st.held && st.held[n] == Reserved(urgent, msg)
      modifies this
      ensures n < |old(st).buf| && Valid() && st == Step(old(st), Fill(n))
      ensures n < |buf| == |old(buf)| && StartsWith(buf[n], msg) && forall m :: 0 <= m < |buf| && m != n ==> buf[m] == old(buf)[m]
      ensures st.held == old(st.held)[n := Filled(urgent, msg)]
      ensures st.queue == old(st.queue) && st.free == old(st.free) && st.log == old(st.log) && receivers == old(receivers)
    {
      hide Inv; hide Nodes; hide Overwrite;
      HeldNode(st, n);
      StepKeepsInv(st, Fill(n));
      FilledStarts(st, n);
      if !urgent {
        ChainFrame(next, n, NULL, freeList, st.free);
        ChainFrame(next, n, NULL, head, Nodes(st.queue));
        next := next[n := NULL];
      }
      buf := buf[n := Overwrite(buf[n], msg)];
      st := Step(st, Fill(n));
    }

    lemma FilledStarts(s: State, n: Node)
      requires Inv(s) && n in s.held && s.held[n].Reserved?
      ensures n < |s.buf| && StartsWith(Overwrite(s.buf[n], s.held[n].msg), s.held[n].msg)
    {
      HeldNode(s, n);
      var m := s.held[n].msg;
      assert Overwrite(s.buf[n], m)[..|m|] == m;
    }

    lemma HeldNode(s: State, n: Node)
      requires Inv(s) && n in s.held
      ensures n !in s.free && n !in Nodes(s.queue) && n < s.max && |s.buf| == s.max
      ensures s.held[n].Taken? ==> s.held[n].id < |s.log|
      ensures Distinct(Nodes(s.queue))
    {
      ListsDistinct(s);
    }

    /** Second section of rt_mq_send. */
    method LinkTail(n: Node)
      requires Valid() && n in st.held && st.held[n].Filled? && !st.held[n].urgent
      modifies this
      ensures Valid() && st == Step(old(st), Link(n))
      ensures st.queue == old(st.queue) + [Entry(n, |old(st.log)|)]
      ensures st.log == old(st.log) + [Record(old(st.held)[n].msg, false, Queued)] && st.held == old(st.held) - {n}
      ensures tail == n && receivers == Woken(old(receivers)) && st.free == old(st.free) && buf == old(buf)
    {
      hide Inv; hide Nodes; hide Ids; hide Chain;
      ghost var q := Nodes(st.queue);
      HeldNode(st, n);
      StepKeepsInv(st, Link(n));
      NodesAppend(st.queue, Entry(n, |st.log|));
      ChainEnds(next, head, q);
      if tail != NULL {
        QueueNotFree(st);
        assert q[|q| - 1] in q;
        ChainFrame(next, tail, n, freeList, st.free);
        ChainAppend(next, head, q, n);
        next := next[tail := n];
      } else {
        ChainOne(next, n);
        assert q + [n] == [n];
      }
      tail := n;
      if head == NULL {
        head := n;
      }
      entry := entry + 1;
      if receivers != [] {
        receivers := receivers[1..];
      }
      st := Step(st, Link(n));
    }

    lemma QueueNotFree(s: State)
      requires Inv(s)
      ensures forall n :: n in Nodes(s.queue) ==> n !in s.free && n !in s.held && n < s.max
      ensures Distinct(Nodes(s.queue))
    {
      ListsDistinct(s);
    }

    /** Second section of rt_mq_urgent. */
    method LinkHead(n: Node)
      requires Valid() && n in st.held && st.held[n].Filled? && st.held[n].urgent
      modifies this
      ensures Valid() && st == Step(old(st), Link(n))
      ensures st.queue == [Entry(n, |old(st.log)|)] + old(st.queue)
      ensures st.log == old(st.log) + [Record(old(st.held)[n].msg, true, Queued)] && st.held == old(st.held) - {n}
      ensures head == n && receivers == Woken(old(receivers)) && st.free == old(st.free) && buf == old(buf)
    {
      hide Inv; hide Nodes; hide Ids;
      ghost var q := Nodes(st.queue);
      HeldNode(st, n);
      StepKeepsInv(st, Link(n));
      NodesPrepend(st.queue, Entry(n, |st.log|));
      ChainFrame(next, n, head, freeList, st.free);
      ChainFrame(next, n, head, head, q);
      assert ([n] + q)[1..] == q;
      next := next[n := head];
      head := n;
      if tail == NULL {
        tail := n;
      }
      entry := entry + 1;
      if receivers != [] {
        receivers := receivers[1..];
      }
      st := Step(st, Link(n));
    }

    /** A section of rt_mq_recv up to unlinking a message, returning empty-handed or suspending. */
    method RecvSection(t: Tid, want: nat, wait: bool, prio: Tid -> nat) returns (r: Reception, ghost k: nat)
      requires Valid() && Enabled(st, Recv(t, want, wait, 0))
      modifies this
      ensures Enabled(old(st), Recv(t, want, wait, k)) && Valid() && st == Step(old(st), Recv(t, want, wait, k))
      ensures r.Received? <==> old(st.queue) != []
      ensures r.Received? ==> r.n == old(st.queue)[0].node
      ensures r.Suspended? <==> old(st.queue) == [] && wait
      ensures r.Suspended? ==> SuspendPosition(flag, prio, old(receivers), t, k)
      ensures r.Received? ==> st.queue == old(st.queue)[1..] && st.held == old(st.held)[r.n := Taken(want, old(st.queue)[0].id)]
      ensures !r.Received? ==> st.queue == old(st.queue) && st.held == old(st.held)
      ensures receivers == if r.Suspended? then InsertAt(old(receivers), k, t) else old(receivers)
      ensures st.free == old(st.free) && buf == old(buf)
    {
      hide Inv; hide Ids; hide SuspendPosition; hide SetFate;
      k := 0;
      if entry == 0 {
        if !wait {
          r := Empty;
        } else {
          receivers, k := Suspend(flag, prio, receivers, t);
          r := Suspended;
        }
      } else {
        QueueNotFree(st);
        var n := head;
        head := next[n];
        if tail == n {
          tail := NULL;
        }
        entry := entry - 1;
        r := Received(n);
      }
      StepKeepsInv(st, Recv(t, want, wait, k));
      st := Step(st, Recv(t, want, wait, k));
    }

    /** Between the sections of a receive: the copy. */
    method CopyOut(n: Node, want: nat) returns (got: Bytes)
      requires Valid() && n in st.held && st.held[n].Taken? && st.held[n].want == want
      modifies this
      ensures Enabled(old(st), Copy(n)) && Valid() && st == Step(old(st), Copy(n))
      ensures Agrees(old(st.log)[old(st.held)[n].id].msg, got) && |got| == Min(want, size)
      ensures st.log[old(st.held)[n].id].fate == Delivered(got)
      ensures n < |old(buf)| && got == old(buf)[n][..|got|] && st.held == old(st.held)[n := Copied]
      ensures st.queue == old(st.queue) && st.free == old(st.free) && buf == old(buf) && receivers == old(receivers)
    {
      hide Nodes; hide Ids;
      HeldNode(st, n);
      got := buf[n][..if want > size then size else want];
      StepKeepsInv(st, Copy(n));
      hide Inv;
      CopiedAgrees(st, n);
      st := Step(st, Copy(n));
    }

    lemma CopiedAgrees(s: State, n: Node)
      requires Inv(s) && Enabled(s, Copy(n))
      ensures s.held[n].id < |s.log| && |s.buf[n]| == s.size
      ensures Agrees(s.log[s.held[n].id].msg, s.buf[n][..Min(s.held[n].want, |s.buf[n]|)])
    {
      var c := s.held[n];
      var msg, got := s.log[c.id].msg, s.buf[n][..Min(c.want, |s.buf[n]|)];
      var m := Min(|msg|, |got|);
      assert got[..m] == s.buf[n][..|msg|][..m];
    }

    /** Last section of rt_mq_recv. */
    method ReleaseNode(n: Node)
      requires Valid() && n in st.held && st.held[n].Copied?
      modifies this
      ensures Valid() && st == Step(old(st), Release(n))
      ensures st.free == [n] + old(st.free) && st.held == old(st.held) - {n}
      ensures st.queue == old(st.queue) && st.log == old(st.log) && buf == old(buf) && receivers == old(receivers)
    {
      hide Inv; hide Nodes; hide Ids;
      HeldNode(st, n);
      StepKeepsInv(st, Release(n));
      ChainFrame(next, n, freeList, freeList, st.free);
      ChainFrame(next, n, freeList, head, Nodes(st.queue));
      assert ([n] + st.free)[1..] == st.free;
      next := next[n := freeList];
      freeList := n;
      st := Step(st, Release(n));
    }

    method ReceiverTimeout(k: nat)
      requires Valid() && k < |receivers|
      modifies this
      ensures Valid() && st == Step(old(st), RecvTimeout(k))
      ensures receivers == RemoveAt(old(receivers), k)
      ensures st.queue == old(st.queue) && st.free == old(st.free) && st.held == old(st.held) && st.log == old(st.log) && buf == old(buf)
    {
      hide Inv; hide Nodes;
      StepKeepsInv(st, RecvTimeout(k));
      receivers := RemoveAt(receivers, k);
      st := Step(st, RecvTimeout(k));
    }

    /** rt_mq_control with RT_IPC_CMD_RESET. */
    method ResetQueue()
      requires Valid()
      modifies this
      ensures Valid() && st == Step(old(st), Reset)
      ensures receivers == [] && st.queue == [] && st.held == old(st.held) && |st.free| == |old(st.free)| + |old(st.queue)|
      ensures |st.log| == |old(st.log)| && forall id :: 0 <= id < |st.log| ==> st.log[id] == Resetted(old(st.log)[id])
    {
      hide Inv; hide Ids; hide SetFate; hide Partition; hide Chain; hide DropFront; hide Nodes;
      StepKeepsInv(st, Reset);
      ResetDrops(st);
      ghost var start := st.(recv := st.recv.WakeAll());
      InvPartition(st);
      while receivers != []
        modifies `receivers
        decreases |receivers|
      {
        receivers := receivers[1..];
      }
      ghost var cur := start;
      while head != NULL
        invariant Spells(cur) && Partition(cur) && Drain(cur) == Drain(start)
        invariant cur.recv == start.recv && cur.held == start.held && cur.max == start.max && cur.size == start.size && st == old(st) && receivers == []
        decreases |cur.queue|
        modifies `head, `tail, `next, `freeList
      {
        DropFrontSpelled(cur);
        DropFrontPartition(cur);
        var n := head;
        head := next[n];
        if tail == n {
          tail := NULL;
        }
        next := next[n := freeList];
        freeList := n;
        cur := DropFront(cur);
      }
      EmptyChain(cur);
      entry := 0;
      st := Step(st, Reset);
    }

    lemma InvPartition(s: State)
      requires Inv(s)
      ensures Partition(s) && Partition(s.(recv := s.recv.WakeAll()))
    {
    }

    lemma EmptyChain(s: State)
      requires Spells(s) && head == NULL
      ensures s.queue == [] && Drain(s) == s
    {
    }

    /** What one turn of the reset loop finds and leaves. */
    lemma DropFrontSpelled(s: State)
      requires Spells(s) && head != NULL && Partition(s)
      ensures s.queue != [] && 0 <= head < |next| && Drain(DropFront(s)) == Drain(s)
      ensures var r, next' := DropFront(s), next[head := freeList];
              && Chain(next', head, r.free) && Chain(next', next[head], Nodes(r.queue))
              && (if tail == head then NULL else tail) == Last(Nodes(r.queue))
              && r.held == s.held && r.buf == s.buf && r.max == s.max && r.size == s.size && r.recv == s.recv && |r.queue| < |s.queue|
              && head !in s.held
    {
      ListsDistinct(s);
      var q := Nodes(s.queue);
      assert q[0] == head && q[1..] == Nodes(s.queue[1..]) && head in q;
      ChainFrame(next, head, freeList, freeList, s.free);
      ChainFrame(next, head, freeList, next[head], q[1..]);
      assert ([head] + s.free)[1..] == s.free;
    }
  }

  lemma {:induction false} CountdownBelow(i: nat)
    ensures i !in Countdown(i) && forall x :: x in Countdown(i) ==> x < i
  {
    if i > 0 {
      CountdownBelow(i - 1);
    }
  }
}
