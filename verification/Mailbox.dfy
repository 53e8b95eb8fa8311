/** The mailbox of ipc.c: a ring of mails with threads waiting on both sides.  Every step below is
    one section that runs with interrupts disabled; a call that blocks runs several of them, and
    other threads run theirs in between. */
module Mailbox {
  import opened IpcList

  type Mail = int

  /** `mail` is what the ring holds, oldest first.  The last three fields are history: the mails
      accepted so far, how many of them have left, and which of those went to a receiver. */
  datatype State = State(
    size: nat, mail: seq<Mail>, recv: Side, send: Side,
    accepted: seq<Mail>, base: nat, delivered: seq<nat>)

  /** `wait` says whether the time-out left is non-zero; `k` where a suspending thread is queued. */
  datatype Action =
    | Send(t: Tid, v: Mail, wait: bool, k: nat)
    | Recv(t: Tid, wait: bool, k: nat)
    | SendTimeout(k: nat)
    | RecvTimeout(k: nat)
    | Reset

  /** A suspended thread does not run, and a woken one goes back to its own loop. */
  predicate Enabled(s: State, a: Action) {
    match a
    case Send(t, _, _, k) => t !in s.recv.waiting && t !in s.send.waiting && t !in s.recv.woken && k <= |s.send.waiting|
    case Recv(t, _, k) => t !in s.recv.waiting && t !in s.send.waiting && t !in s.send.woken && k <= |s.recv.waiting|
    case SendTimeout(k) => k < |s.send.waiting|
    case RecvTimeout(k) => k < |s.recv.waiting|
    case Reset => true
  }

  function Step(s: State, a: Action): (r: State)
    requires Enabled(s, a)
  {
    match a
    case Send(t, v, wait, k) =>
      if |s.mail| == s.size then
        s.(send := if wait then s.send.Suspends(t, k) else s.send.Checks(t))
      else
        s.(mail := s.mail + [v], send := s.send.Checks(t), recv := s.recv.WakeOne(), accepted := s.accepted + [v])
    case Recv(t, wait, k) =>
      if s.mail == [] then
        s.(recv := if wait then s.recv.Suspends(t, k) else s.recv.Checks(t))
      else
        s.(mail := s.mail[1..], recv := s.recv.Checks(t), send := s.send.WakeOne(),
           base := s.base + 1, delivered := s.delivered + [s.base])
    case SendTimeout(k) => s.(send := s.send.TimesOut(k))
    case RecvTimeout(k) => s.(recv := s.recv.TimesOut(k))
    case Reset => s.(mail := [], recv := s.recv.WakeAll(), send := s.send.WakeAll(), base := |s.accepted|)
  }

  function Initial(size: nat): State {
    State(size, [], Side([], {}), Side([], {}), [], 0, [])
  }

  /** A run: actions that are not enabled are skipped. */
  function Run(s: State, run: seq<Action>): State
    decreases |run|
  {
    if run == [] then s
    else Run(if Enabled(s, run[0]) then Step(s, run[0]) else s, run[1..])
  }

  ghost predicate Inv(s: State) {
    && |s.mail| <= s.size
    && s.recv.Ok() && NoLostWakeup(|s.mail|, s.recv)
    && s.send.Ok() && NoLostWakeup(s.size - |s.mail|, s.send)
    && Fifo(s)
  }

  /** The ring holds the newest accepted mails; receivers got earlier ones, each once, in order. */
  ghost predicate Fifo(s: State) {
    && s.base <= |s.accepted| && s.mail == s.accepted[s.base..]
    && (forall i, j :: 0 <= i < j < |s.delivered| ==> s.delivered[i] < s.delivered[j])
    && (forall i :: 0 <= i < |s.delivered| ==> s.delivered[i] < s.base)
  }

  lemma StepKeepsInv(s: State, a: Action)
    requires Inv(s) && Enabled(s, a)
    ensures Inv(Step(s, a))
  {
    hide Fifo; hide NoLostWakeup; hide Side.Ok; hide Side.WakeOne; hide Side.Checks; hide Side.Suspends; hide Side.TimesOut;
    StepKeepsFifo(s, a);
    match a
    case Send(t, v, wait, k) =>
      if |s.mail| < s.size {
        PutKeeps(|s.mail|, s.recv);
        TakeKeeps(s.size - |s.mail|, s.send, t);
      } else if wait {
        SuspendKeeps(s.send, t, k);
      } else {
        ChecksKeeps(0, s.send, t);
      }
    case Recv(t, wait, k) =>
      if s.mail != [] {
        TakeKeeps(|s.mail|, s.recv, t);
        PutKeeps(s.size - |s.mail|, s.send);
      } else if wait {
        SuspendKeeps(s.recv, t, k);
      } else {
        ChecksKeeps(0, s.recv, t);
      }
    case SendTimeout(k) => TimeoutKeeps(s.size - |s.mail|, s.send, k);
    case RecvTimeout(k) => TimeoutKeeps(|s.mail|, s.recv, k);
    case Reset =>
      WakeAllKeeps(0, s.recv);
      WakeAllKeeps(s.size, s.send);
  }

  lemma StepKeepsFifo(s: State, a: Action)
    requires Fifo(s) && Enabled(s, a)
    ensures Fifo(Step(s, a))
  {
    hide Side.WakeOne; hide Side.Checks; hide Side.Suspends; hide Side.TimesOut;
    if a.Recv? && s.mail != [] {
      assert s.mail[1..] == s.accepted[s.base + 1..];
    }
  }

  /** No wake-up is lost on either side, and mails stay first-in first-out, in every run. */
  lemma {:induction false} RunKeepsInv(s: State, run: seq<Action>)
    requires Inv(s)
    ensures Inv(Run(s, run))
    decreases |run|
  {
    if run != [] {
      if Enabled(s, run[0]) {
        StepKeepsInv(s, run[0]);
      }
      RunKeepsInv(if Enabled(s, run[0]) then Step(s, run[0]) else s, run[1..]);
    }
  }

  lemma NoLostWakeups(size: nat, run: seq<Action>)
    ensures var s := Run(Initial(size), run);
            && (s.recv.waiting != [] ==> |s.mail| <= |s.recv.woken|)
            && (s.send.waiting != [] ==> s.size - |s.mail| <= |s.send.woken|)
            && Fifo(s)
  {
    RunKeepsInv(Initial(size), run);
  }

  /** Without resets every accepted mail is either delivered, in order, or still in the ring. */
  lemma {:induction false} NothingDropped(s: State, run: seq<Action>)
    requires Inv(s) && s.base == |s.delivered| && Reset !in run
    ensures var r := Run(s, run);
            |r.delivered| + |r.mail| == |r.accepted| && forall i :: 0 <= i < |r.delivered| ==> r.delivered[i] == i
    decreases |run|
  {
    if run == [] {
      Counted(s.delivered, s.base);
    } else {
      var s1 := if Enabled(s, run[0]) then Step(s, run[0]) else s;
      if Enabled(s, run[0]) {
        StepKeepsInv(s, run[0]);
      }
      NothingDropped(s1, run[1..]);
    }
  }

  // ---- What is sent and what is received ----------------------------------------------------------------

  /** The values of the send calls of a run that found room, in order. */
  ghost function Sent(s: State, run: seq<Action>): seq<Mail>
    decreases |run|
  {
    if run == [] then []
    else if !Enabled(s, run[0]) then Sent(s, run[1..])
    else (if run[0].Send? && |s.mail| < s.size then [run[0].v] else []) + Sent(Step(s, run[0]), run[1..])
  }

  /** The mails that the receive calls of a run that found one took, in order. */
  ghost function Received(s: State, run: seq<Action>): seq<Mail>
    decreases |run|
  {
    if run == [] then []
    else if !Enabled(s, run[0]) then Received(s, run[1..])
    else (if run[0].Recv? && s.mail != [] then [s.mail[0]] else []) + Received(Step(s, run[0]), run[1..])
  }

  lemma StepAccepts(s: State, a: Action)
    requires Inv(s) && Enabled(s, a)
    ensures Step(s, a).accepted == s.accepted + if a.Send? && |s.mail| < s.size then [a.v] else []
    ensures !a.Reset? ==>
      s.mail + (if a.Send? && |s.mail| < s.size then [a.v] else [])
        == (if a.Recv? && s.mail != [] then [s.mail[0]] else []) + Step(s, a).mail
  {
  }

  /** The accepted mails are the values that were sent. */
  lemma {:induction false} AcceptedIsSent(s: State, run: seq<Action>)
    requires Inv(s)
    ensures Run(s, run).accepted == s.accepted + Sent(s, run)
    decreases |run|
  {
    if run != [] {
      if Enabled(s, run[0]) {
        StepKeepsInv(s, run[0]);
        StepAccepts(s, run[0]);
        hide Step;
        AcceptedIsSent(Step(s, run[0]), run[1..]);
      } else {
        AcceptedIsSent(s, run[1..]);
      }
    }
  }

  lemma Regroup(mail: seq<Mail>, sent: seq<Mail>, later: seq<Mail>, got: seq<Mail>, mail1: seq<Mail>)
    requires mail + sent == got + mail1
    ensures mail + (sent + later) == got + (mail1 + later)
  {
    assert mail + (sent + later) == (mail + sent) + later;
    assert got + (mail1 + later) == (got + mail1) + later;
  }

  /** Without resets, what was received and what the ring still holds are exactly what was sent, in order. */
  lemma {:induction false} ReceivedIsSent(s: State, run: seq<Action>)
    requires Inv(s) && Reset !in run
    ensures s.mail + Sent(s, run) == Received(s, run) + Run(s, run).mail
    decreases |run|
  {
    if run != [] {
      assert run == [run[0]] + run[1..];
      if Enabled(s, run[0]) {
        var a, s1 := run[0], Step(s, run[0]);
        StepKeepsInv(s, a);
        StepAccepts(s, a);
        ReceivedIsSent(s1, run[1..]);
        hide Step;
        hide Inv;
        hide Enabled;
        Regroup(s.mail, if a.Send? && |s.mail| < s.size then [a.v] else [], Sent(s1, run[1..]),
                if a.Recv? && s.mail != [] then [s.mail[0]] else [], s1.mail);
      } else {
        ReceivedIsSent(s, run[1..]);
      }
    }
  }

  /** From initialisation, the i-th mail received is the i-th mail sent. */
  lemma MailsInOrder(size: nat, run: seq<Action>)
    requires Reset !in run
    ensures var r := Run(Initial(size), run);
      && Sent(Initial(size), run) == Received(Initial(size), run) + r.mail == r.accepted
      && |Received(Initial(size), run)| == |r.delivered|
      && forall i :: 0 <= i < |r.delivered| ==> r.delivered[i] < |r.accepted| && Received(Initial(size), run)[i] == r.accepted[r.delivered[i]]
  {
    var s := Initial(size);
    ReceivedIsSent(s, run);
    AcceptedIsSent(s, run);
    NothingDropped(s, run);
    assert s.mail + Sent(s, run) == Sent(s, run) && s.accepted + Sent(s, run) == Sent(s, run);
  }

  /** `n` increasing numbers below `n` are `0 .. n - 1`. */
  lemma {:induction false} Counted(d: seq<nat>, n: nat)
    requires |d| == n && (forall i, j :: 0 <= i < j < |d| ==> d[i] < d[j]) && forall i :: 0 <= i < |d| ==> d[i] < n
    ensures forall i :: 0 <= i < |d| ==> d[i] == i
  {
    if n > 0 {
      assert d[n - 1] == n - 1 by { AtLeast(d, n - 1); }
      Counted(d[..n - 1], n - 1);
    }
  }

  lemma {:induction false} AtLeast(d: seq<nat>, i: nat)
    requires i < |d| && forall i, j :: 0 <= i < j < |d| ==> d[i] < d[j]
    ensures i <= d[i]
  {
    if i > 0 {
      AtLeast(d, i - 1);
    }
  }

  // ---- The ring buffer ------------------------------------------------------------------------------

  datatype Outcome = Done(v: Mail) | NoWait | Suspended

  function Wrap(i: int, n: int): int { if i >= n then i - n else i }

  /** From slot `out` on, wrapping around, the pool holds `mail`; the next free slot is `inp`. */
  ghost predicate Holds(pool: seq<Mail>, out: nat, inp: nat, mail: seq<Mail>) {
    && |mail| <= |pool|
    && (|pool| == 0 ==> out == inp == 0)
    && (|pool| > 0 ==> out < |pool| && inp == Wrap(out + |mail|, |pool|))
    && (forall i {:trigger mail[i]} :: 0 <= i < |mail| ==> pool[Wrap(out + i, |pool|)] == mail[i])
  }

  lemma PushHolds(pool: seq<Mail>, out: nat, inp: nat, mail: seq<Mail>, v: Mail)
    requires Holds(pool, out, inp, mail) && |mail| < |pool|
    ensures inp < |pool| && Holds(pool[inp := v], out, if inp + 1 >= |pool| then 0 else inp + 1, mail + [v])
  {
    var m := mail + [v];
    assert forall i :: 0 <= i < |m| ==> m[i] == if i < |mail| then mail[i] else v;
  }

  lemma PopHolds(pool: seq<Mail>, out: nat, inp: nat, mail: seq<Mail>)
    requires Holds(pool, out, inp, mail) && mail != []
    ensures out < |pool| && pool[out] == mail[0]
    ensures Holds(pool, if out + 1 >= |pool| then 0 else out + 1, inp, mail[1..])
  {
    var m := mail[1..];
    assert pool[Wrap(out + 0, |pool|)] == mail[0];
    assert forall i :: 0 <= i < |m| ==> m[i] == mail[i + 1];
  }

  class Box {
    const size: nat
    const pool: array<Mail>
    const flag: Flag
    var inOffset: nat
    var outOffset: nat
    var entry: nat
    var receivers: seq<Tid>           // parent.suspend_thread
    var senders: seq<Tid>             // suspend_sender_thread
    ghost var st: State

    ghost predicate Valid() reads this, pool {
      && pool.Length == size && st.size == size && Inv(st)
      && entry == |st.mail| && receivers == st.recv.waiting && senders == st.send.waiting
      && Holds(pool[..], outOffset, inOffset, st.mail)
    }

    /** rt_mb_init */
    constructor (n: nat, f: Flag)
      ensures Valid() && st == Initial(n) && fresh(pool)
    {
      size, flag := n, f;
      pool := new Mail[n](_ => 0);
      inOffset, outOffset, entry := 0, 0, 0;
      receivers, senders := [], [];
      st := Initial(n);
    }

    /** A section of rt_mb_send_wait: from disabling interrupts to returning or suspending. */
    method SendSection(t: Tid, v: Mail, wait: bool, prio: Tid -> nat) returns (r: Outcome, ghost k: nat)
      requires Valid() && Enabled(st, Send(t, v, wait, 0))
      modifies this, pool
      ensures Valid()
      ensures Enabled(old(st), Send(t, v, wait, k)) && st == Step(old(st), Send(t, v, wait, k))
      ensures r.Suspended? ==> SuspendPosition(flag, prio, old(senders), t, k)
      ensures r.Done? <==> |old(st.mail)| < size
      ensures r.Suspended? <==> |old(st.mail)| == size && wait
      ensures r.Done? ==> st.accepted == old(st.accepted) + [v] && st.mail == old(st.mail) + [v]
      ensures !r.Done? ==> st.accepted == old(st.accepted) && st.mail == old(st.mail)
      ensures receivers == if r.Done? then Woken(old(receivers)) else old(receivers)
      ensures senders == if r.Suspended? then InsertAt(old(senders), k, t) else old(senders)
      ensures st.base == old(st.base) && st.delivered == old(st.delivered)
    {
      hide Inv; hide Holds; hide SuspendPosition;
      BoundedBy(st);
      k := 0;
      if entry == size {
        if !wait {
          r := NoWait;
        } else {
          senders, k := Suspend(flag, prio, senders, t);
          r := Suspended;
        }
      } else {
        PushHolds(pool[..], outOffset, inOffset, st.mail, v);
        pool[inOffset] := v;
        assert pool[..] == old(pool[..])[old(inOffset) := v];
        inOffset := inOffset + 1;
        if inOffset >= size {
          inOffset := 0;
        }
        entry := entry + 1;
        if receivers != [] {
          receivers := receivers[1..];
        }
        r := Done(v);
      }
      StepKeepsInv(st, Send(t, v, wait, k));
      st := Step(st, Send(t, v, wait, k));
    }

    lemma BoundedBy(s: State)
      requires Inv(s)
      ensures |s.mail| <= s.size
      ensures s.mail != [] ==> s.base < |s.accepted| && s.accepted[s.base] == s.mail[0]
    {
    }

    /** A section of rt_mb_recv. */
    method RecvSection(t: Tid, wait: bool, prio: Tid -> nat) returns (r: Outcome, ghost k: nat)
      requires Valid() && Enabled(st, Recv(t, wait, 0))
      modifies this
      ensures Valid()
      ensures Enabled(old(st), Recv(t, wait, k)) && st == Step(old(st), Recv(t, wait, k))
      ensures r.Suspended? ==> SuspendPosition(flag, prio, old(receivers), t, k)
      ensures r.Done? <==> old(st.mail) != []
      ensures r.Suspended? <==> old(st.mail) == [] && wait
      ensures r.Done? ==> r.v == old(st.mail)[0] == old(st.accepted)[old(st.base)]
      ensures st.mail == (if r.Done? then old(st.mail)[1..] else old(st.mail)) && st.accepted == old(st.accepted)
      ensures st.delivered == old(st.delivered) + if r.Done? then [old(st.base)] else []
      ensures senders == if r.Done? then Woken(old(senders)) else old(senders)
      ensures receivers == if r.Suspended? then InsertAt(old(receivers), k, t) else old(receivers)
    {
      hide Inv; hide Holds; hide SuspendPosition;
      BoundedBy(st);
      k := 0;
      if entry == 0 {
        if !wait {
          r := NoWait;
        } else {
          receivers, k := Suspend(flag, prio, receivers, t);
          r := Suspended;
        }
      } else {
        PopHolds(pool[..], outOffset, inOffset, st.mail);
        r := Done(pool[outOffset]);
        outOffset := outOffset + 1;
        if outOffset >= size {
          outOffset := 0;
        }
        entry := entry - 1;
        if senders != [] {
          senders := senders[1..];
        }
      }
      StepKeepsInv(st, Recv(t, wait, k));
      st := Step(st, Recv(t, wait, k));
    }

    /** rt_thread_timeout for the sender at position `k` of its list. */
    method SenderTimeout(k: nat)
      requires Valid() && k < |senders|
      modifies this
      ensures Valid() && st == Step(old(st), SendTimeout(k))
      ensures senders == RemoveAt(old(senders), k) && receivers == old(receivers)
      ensures st.mail == old(st.mail) && st.accepted == old(st.accepted)
    {
      hide Inv;
      senders := RemoveAt(senders, k);
      StepKeepsInv(st, SendTimeout(k));
      st := Step(st, SendTimeout(k));
    }

    method ReceiverTimeout(k: nat)
      requires Valid() && k < |receivers|
      modifies this
      ensures Valid() && st == Step(old(st), RecvTimeout(k))
      ensures receivers == RemoveAt(old(receivers), k) && senders == old(senders)
      ensures st.mail == old(st.mail) && st.accepted == old(st.accepted)
    {
      hide Inv;
      receivers := RemoveAt(receivers, k);
      StepKeepsInv(st, RecvTimeout(k));
      st := Step(st, RecvTimeout(k));
    }

    /** rt_mb_control with RT_IPC_CMD_RESET; the two loops are rt_ipc_list_resume_all. */
    method ResetBox()
      requires Valid()
      modifies this
      ensures Valid() && st == Step(old(st), Reset)
      ensures receivers == [] && senders == [] && st.mail == [] && entry == 0
      ensures st.accepted == old(st.accepted) && st.delivered == old(st.delivered)
    {
      hide Inv;
      StepKeepsInv(st, Reset);
      while receivers != []
        modifies `receivers
        decreases |receivers|
      {
        receivers := receivers[1..];
      }
      while senders != []
        modifies `senders
        decreases |senders|
      {
        senders := senders[1..];
      }
      entry, inOffset, outOffset := 0, 0, 0;
      st := Step(st, Reset);
    }
  }
}
