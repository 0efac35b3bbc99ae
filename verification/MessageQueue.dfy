/** The client's queue of messages to an application and the shared slot for one
    message (client/app.cpp:784-864, lib/app_ipc.cpp:404-416), and what the
    180-second timeout on the queue tells (client/app_control.cpp:633-642). */
module MessageQueue {
  import opened Wrappers

  datatype Msg = Suspend | Resume | Quit | Abort | RereadAppInfo | NetworkAvailable

  predicate Purges(q: seq<Msg>, m: Msg) {
    q != [] && q[|q| - 1] == m
  }

  function Front<T>(q: seq<T>): seq<T>
    requires q != []
  {
    q[..|q| - 1]
  }

  // ---- queue and slot on values -----------------------------------------

  /** `lastBlock` is 0, or the time since when the application has been in default. */
  datatype Line = Line(msgs: seq<Msg>, slot: Option<Msg>, lastBlock: real)

  /** What the client does to the queue; `Take` is the application taking the
      message in the slot. */
  datatype Op = Send(msg: Msg, now: real) | Poll | Purge(msg: Msg) | Take

  function AfterOp(l: Line, op: Op): Line {
    match op
    case Send(m, now) =>
      if l.msgs == [] && l.slot.None? then Line([], Some(m), 0.0)
      else Line(l.msgs + [m], l.slot, if l.lastBlock == 0.0 then now else l.lastBlock)
    case Poll => if l.msgs != [] && l.slot.None? then Line(l.msgs[1..], Some(l.msgs[0]), 0.0) else l
    case Purge(m) => if Purges(l.msgs, m) then l.(msgs := Front(l.msgs)) else l
    case Take => l.(slot := None)
  }

  function Play(ops: seq<Op>): Line {
    if ops == [] then Line([], None, 0.0) else AfterOp(Play(Front(ops)), ops[|ops| - 1])
  }

  /** `timeout`. */
  predicate TimedOut(l: Line, now: real, diff: real) {
    l.lastBlock != 0.0 && now - l.lastBlock > diff
  }

  // ---- the objects ------------------------------------------------------

  class MsgChannel {
    var slot: Option<Msg>

    constructor ()
      ensures slot == None
    {
      slot := None;
    }

    method SendMsg(m: Msg) returns (ok: bool)
      modifies this
      ensures ok <==> old(slot).None?
      ensures slot == if ok then Some(m) else old(slot)
    {
      if slot.Some? { return false; }
      slot := Some(m);
      return true;
    }

    method GetMsg() returns (m: Option<Msg>)
      modifies this
      ensures m == old(slot) && slot == None
    {
      m := slot;
      slot := None;
    }
  }

  class MsgQueue {
    var msgs: seq<Msg>
    var lastBlock: real

    constructor ()
      ensures msgs == [] && lastBlock == 0.0
    {
      msgs, lastBlock := [], 0.0;
    }

    ghost function View(channel: MsgChannel): Line
      reads this, channel
    {
      Line(msgs, channel.slot, lastBlock)
    }

    method Send(m: Msg, channel: MsgChannel, now: real)
      modifies this, channel
      ensures View(channel) == AfterOp(old(View(channel)), Op.Send(m, now))
    {
      if msgs == [] {
        var ok := channel.SendMsg(m);
        if ok {
          lastBlock := 0.0;
          return;
        }
      }
      msgs := msgs + [m];
      if lastBlock == 0.0 {
        lastBlock := now;
      }
    }

    method Poll(channel: MsgChannel)
      modifies this, channel
      ensures View(channel) == AfterOp(old(View(channel)), Op.Poll)
    {
      if msgs == [] { return; }
      var ok := channel.SendMsg(msgs[0]);
      if ok {
        msgs := msgs[1..];
        lastBlock := 0.0;
      }
    }

    /** Taking a message back leaves `last_block` as it is. */
    method Purge(m: Msg, ghost channel: MsgChannel) returns (n: nat)
      modifies this
      ensures n == (if Purges(old(msgs), m) then 1 else 0)
      ensures View(channel) == AfterOp(old(View(channel)), Op.Purge(m))
    {
      if msgs == [] { return 0; }
      var last := msgs[|msgs| - 1];
      if m == last {
        msgs := msgs[..|msgs| - 1];
        return 1;
      }
      return 0;
    }

    predicate Timeout(now: real, diff: real)
      reads this
    {
      lastBlock != 0.0 && now - lastBlock > diff
    }
  }

  // ---- what has happened ------------------------------------------------

  /** The clock is positive and does not go back. */
  ghost predicate Clocked(ops: seq<Op>) {
    && (forall i :: 0 <= i < |ops| && ops[i].Send? ==> ops[i].now > 0.0)
    && (forall i, j :: 0 <= i < j < |ops| && ops[i].Send? && ops[j].Send? ==> ops[i].now <= ops[j].now)
  }

  function Before(ops: seq<Op>, i: nat): Line
    requires i <= |ops|
  {
    Play(ops[..i])
  }

  /** Operation `i` leaves its message in the queue. */
  predicate Defers(ops: seq<Op>, i: nat)
    requires i < |ops|
  {
    ops[i].Send? && !(Before(ops, i).msgs == [] && Before(ops, i).slot.None?)
  }

  /** Operation `i` puts a message into the slot. */
  predicate Puts(ops: seq<Op>, i: nat)
    requires i < |ops|
  {
    Before(ops, i).slot.None?
      && ((ops[i].Send? && Before(ops, i).msgs == []) || (ops[i].Poll? && Before(ops, i).msgs != []))
  }

  predicate TakesBack(ops: seq<Op>, i: nat)
    requires i < |ops|
  {
    ops[i].Purge? && Purges(Before(ops, i).msgs, ops[i].msg)
  }

  /** Operation `i` left its message in the queue, and since then no message has
      gone into the slot. */
  ghost predicate Unanswered(ops: seq<Op>, i: nat) {
    i < |ops| && Defers(ops, i) && forall j :: i < j < |ops| ==> !Puts(ops, j)
  }

  /** The operations that left the messages in the queue. */
  function Waiting(ops: seq<Op>): seq<nat> {
    if ops == [] then []
    else
      var w, i := Waiting(Front(ops)), |ops| - 1;
      if Defers(ops, i) then w + [i]
      else if Puts(ops, i) && ops[i].Poll? && w != [] then w[1..]
      else if TakesBack(ops, i) && w != [] then Front(w)
      else w
  }

  lemma PrefixOf(ops: seq<Op>, i: nat)
    requires ops != [] && i < |ops|
    ensures Front(ops)[..i] == ops[..i] && Before(ops, |ops| - 1) == Play(Front(ops))
    ensures i < |ops| - 1 ==> (Defers(ops, i) <==> Defers(Front(ops), i)) && (Puts(ops, i) <==> Puts(Front(ops), i))
                              && (TakesBack(ops, i) <==> TakesBack(Front(ops), i))
  {
    assert Front(ops)[..i] == ops[..i];
    assert ops[..|ops| - 1] == Front(ops);
  }

  lemma UnansweredNext(ops: seq<Op>, i: nat)
    requires ops != []
    ensures var n := |ops| - 1;
            Unanswered(ops, i) <==> if i == n then Defers(ops, n) else Unanswered(Front(ops), i) && !Puts(ops, n)
  {
    var n := |ops| - 1;
    forall k: nat | k < n
      ensures (Defers(ops, k) <==> Defers(Front(ops), k)) && (Puts(ops, k) <==> Puts(Front(ops), k))
    {
      PrefixOf(ops, k);
    }
  }

  /** The first operation that is unanswered, if any. */
  function Blocked(ops: seq<Op>): Option<nat> {
    if ops == [] then None
    else
      var b, i := Blocked(Front(ops)), |ops| - 1;
      if Puts(ops, i) then None else if Defers(ops, i) && b.None? then Some(i) else b
  }

  lemma {:induction false} BlockedIsFirst(ops: seq<Op>, i: nat)
    ensures Unanswered(ops, i) ==> Blocked(ops).Some? && Blocked(ops).value <= i
    ensures Blocked(ops) == Some(i) ==> Unanswered(ops, i)
  {
    if ops != [] {
      BlockedIsFirst(Front(ops), i);
      UnansweredNext(ops, i);
      if Blocked(Front(ops)).Some? { BlockedBefore(Front(ops)); }
    }
  }

  lemma {:induction false} BlockedBefore(ops: seq<Op>)
    ensures Blocked(ops).Some? ==> Blocked(ops).value < |ops| && ops[Blocked(ops).value].Send?
  {
    if ops != [] {
      BlockedBefore(Front(ops));
    }
  }

  lemma ClockedFront(ops: seq<Op>)
    requires ops != [] && Clocked(ops)
    ensures Clocked(Front(ops))
  {
  }

  /** `last_block` is the time of that operation. */
  lemma {:induction false} LastBlockIs(ops: seq<Op>)
    requires Clocked(ops)
    ensures Blocked(ops).Some? ==> Blocked(ops).value < |ops| && ops[Blocked(ops).value].Send?
    ensures Play(ops).lastBlock == if Blocked(ops).Some? then ops[Blocked(ops).value].now else 0.0
  {
    BlockedBefore(ops);
    if ops != [] {
      ClockedFront(ops);
      LastBlockIs(Front(ops));
      PrefixOf(ops, |ops| - 1);
    }
  }

  /** The timeout strikes exactly if some message was left in the queue more than
      `diff` seconds ago and no message has gone into the slot since. */
  lemma TimeoutIff(ops: seq<Op>, now: real, diff: real)
    requires Clocked(ops)
    ensures TimedOut(Play(ops), now, diff) <==> exists i: nat :: Unanswered(ops, i) && now - ops[i].now > diff
  {
    hide Play, Waiting;
    LastBlockIs(ops);
    if TimedOut(Play(ops), now, diff) {
      BlockedIsFirst(ops, Blocked(ops).value);
    }
    if i: nat :| Unanswered(ops, i) && now - ops[i].now > diff {
      BlockedIsFirst(ops, i);
      assert ops[Blocked(ops).value].now <= ops[i].now;
    }
  }

  // ---- and whether a message is still waiting ---------------------------

  lemma {:induction false} WaitingCount(ops: seq<Op>)
    ensures |Waiting(ops)| == |Play(ops).msgs|
  {
    if ops != [] {
      WaitingCount(Front(ops));
      PrefixOf(ops, |ops| - 1);
    }
  }

  lemma {:induction false} WaitingInOrder(ops: seq<Op>)
    ensures forall k :: 0 <= k < |Waiting(ops)| ==> Waiting(ops)[k] < |ops| && ops[Waiting(ops)[k]].Send?
    ensures forall k, l :: 0 <= k < l < |Waiting(ops)| ==> Waiting(ops)[k] < Waiting(ops)[l]
  {
    if ops != [] {
      WaitingInOrder(Front(ops));
    }
  }

  lemma {:induction false} WaitingMessages(ops: seq<Op>)
    ensures |Waiting(ops)| == |Play(ops).msgs|
    ensures forall k :: 0 <= k < |Waiting(ops)| ==>
              Waiting(ops)[k] < |ops| && ops[Waiting(ops)[k]].Send? && ops[Waiting(ops)[k]].msg == Play(ops).msgs[k]
  {
    WaitingCount(ops);
    if ops != [] {
      WaitingMessages(Front(ops));
      PrefixOf(ops, |ops| - 1);
    }
  }

  /** `Waiting` are the places of the messages in the queue, in order. */
  lemma WaitingIs(ops: seq<Op>)
    ensures |Waiting(ops)| == |Play(ops).msgs|
    ensures forall k :: 0 <= k < |Waiting(ops)| ==>
              Waiting(ops)[k] < |ops| && ops[Waiting(ops)[k]].Send? && ops[Waiting(ops)[k]].msg == Play(ops).msgs[k]
    ensures forall k, l :: 0 <= k < l < |Waiting(ops)| ==> Waiting(ops)[k] < Waiting(ops)[l]
  {
    WaitingMessages(ops);
    WaitingInOrder(ops);
  }

  /** Operation `j` takes back the message of operation `i`. */
  ghost predicate TakesBackOf(ops: seq<Op>, j: nat, i: nat) {
    j < |ops| && TakesBack(ops, j) && Waiting(ops[..j]) != [] && Waiting(ops[..j])[|Waiting(ops[..j])| - 1] == i
  }

  ghost predicate TakenBack(ops: seq<Op>, i: nat) {
    exists j: nat :: TakesBackOf(ops, j, i)
  }

  lemma TakesBackNext(ops: seq<Op>, i: nat)
    requires ops != []
    ensures TakenBack(ops, i) <==> TakenBack(Front(ops), i) || TakesBackOf(ops, |ops| - 1, i)
  {
    forall j: nat | j < |ops| - 1
      ensures TakesBackOf(ops, j, i) <==> TakesBackOf(Front(ops), j, i)
    {
      PrefixOf(ops, j);
    }
  }

  lemma NotYetTakenBack(ops: seq<Op>, i: nat)
    requires |ops| <= i
    ensures !TakenBack(ops, i)
  {
    forall j: nat | j < |ops|
      ensures !TakesBackOf(ops, j, i)
    {
      WaitingIs(ops[..j]);
    }
  }

  /** A message in default is still waiting unless it has been taken back. */
  lemma {:induction false} WaitingIff(ops: seq<Op>, i: nat)
    requires Unanswered(ops, i)
    ensures i in Waiting(ops) <==> !TakenBack(ops, i)
  {
    hide Play, TakenBack;
    var n := |ops| - 1;
    WaitingIs(Front(ops));
    TakesBackNext(ops, i);
    PrefixOf(ops, n);
    assert ops[..n] == Front(ops);
    var w := Waiting(Front(ops));
    if i == n {
      NotYetTakenBack(Front(ops), n);
      assert (w + [n])[|w|] == n;
    } else {
      UnansweredNext(ops, i);
      WaitingIff(Front(ops), i);
      if TakesBack(ops, n) {
        assert w == Front(w) + [w[|w| - 1]];
      }
    }
  }

  /** As long as it waits, so does all that waited before it. */
  lemma {:induction false} StillBehind(ops: seq<Op>, i: nat)
    requires Unanswered(ops, i) && i in Waiting(ops)
    ensures Waiting(ops[..i]) + [i] <= Waiting(ops)
  {
    var n := |ops| - 1;
    PrefixOf(ops, n);
    assert ops[..n] == Front(ops);
    if i < n {
      UnansweredNext(ops, i);
      PrefixOf(ops, i);
      StillBehind(Front(ops), i);
      WaitingIs(Front(ops));
    }
  }

  /** `last_block` is about the message at the head of the queue exactly if that
      message found the queue empty and has not been taken back. */
  lemma HeadIff(ops: seq<Op>)
    requires Blocked(ops).Some? && Waiting(ops) != []
    ensures Blocked(ops).value < |ops|
    ensures var i := Blocked(ops).value;
            Waiting(ops)[0] == i <==> !TakenBack(ops, i) && Before(ops, i).msgs == []
  {
    var i := Blocked(ops).value;
    BlockedIsFirst(ops, i);
    WaitingIff(ops, i);
    if i in Waiting(ops) {
      StillBehind(ops, i);
      WaitingIs(ops[..i]);
    }
  }

  /** Operation `j` took the last message out of a queue in default, and since
      then no message has been left in the queue or put into the slot. */
  ghost predicate Empties(ops: seq<Op>, j: nat) {
    && j < |ops| && TakesBack(ops, j) && |Before(ops, j).msgs| == 1 && Before(ops, j).lastBlock != 0.0
    && forall k :: j < k < |ops| ==> !Puts(ops, k) && !Defers(ops, k)
  }

  ghost predicate Emptied(ops: seq<Op>) {
    exists j: nat :: Empties(ops, j)
  }

  lemma EmptiesNext(ops: seq<Op>, j: nat)
    requires ops != [] && j < |ops| - 1
    ensures var n := |ops| - 1; Empties(ops, j) <==> Empties(Front(ops), j) && !Puts(ops, n) && !Defers(ops, n)
  {
    forall k: nat | k < |ops| - 1
      ensures (Defers(ops, k) <==> Defers(Front(ops), k)) && (Puts(ops, k) <==> Puts(Front(ops), k))
      ensures TakesBack(ops, k) <==> TakesBack(Front(ops), k)
      ensures Before(ops, k) == Before(Front(ops), k)
    {
      PrefixOf(ops, k);
    }
  }

  lemma EmptiedNext(ops: seq<Op>)
    requires ops != []
    ensures var n := |ops| - 1;
            Emptied(ops) <==>
              if TakesBack(ops, n) && |Before(ops, n).msgs| == 1 && Before(ops, n).lastBlock != 0.0 then true
              else Emptied(Front(ops)) && !Puts(ops, n) && !Defers(ops, n)
  {
    var n := |ops| - 1;
    if TakesBack(ops, n) && |Before(ops, n).msgs| == 1 && Before(ops, n).lastBlock != 0.0 {
      assert Empties(ops, n);
    } else {
      forall j: nat | j < n
        ensures Empties(ops, j) <==> Empties(Front(ops), j) && !Puts(ops, n) && !Defers(ops, n)
      {
        EmptiesNext(ops, j);
      }
    }
  }

  lemma NeverEmptied()
    ensures !Emptied([])
  {
  }

  lemma ClockedIsPositive(ops: seq<Op>)
    requires ops != [] && Clocked(ops)
    ensures ops[|ops| - 1].Send? ==> ops[|ops| - 1].now > 0.0
  {
  }

  /** The timeout runs on with nothing waiting exactly if the queue was emptied
      by taking its last message back. */
  lemma {:induction false} EmptyInDefaultIff(ops: seq<Op>)
    requires Clocked(ops)
    ensures Play(ops).msgs == [] && Play(ops).lastBlock != 0.0 <==> Emptied(ops)
  {
    hide Clocked, Emptied;
    if ops != [] {
      ClockedFront(ops);
      ClockedIsPositive(ops);
      EmptyInDefaultIff(Front(ops));
      PrefixOf(ops, |ops| - 1);
      EmptiedNext(ops);
    } else {
      NeverEmptied();
    }
  }

  /** Operation `j` polled a message into the slot, and since then none has been
      left in the queue or put into the slot. */
  ghost predicate PolledLast(ops: seq<Op>, j: nat) {
    && j < |ops| && ops[j].Poll? && Puts(ops, j)
    && forall k :: j < k < |ops| ==> !Puts(ops, k) && !Defers(ops, k)
  }

  lemma PolledLastNext(ops: seq<Op>, j: nat)
    requires ops != [] && PolledLast(Front(ops), j) && !Puts(ops, |ops| - 1) && !Defers(ops, |ops| - 1)
    ensures PolledLast(ops, j)
  {
    forall k: nat | k < |ops| - 1
      ensures (Defers(ops, k) <==> Defers(Front(ops), k)) && (Puts(ops, k) <==> Puts(Front(ops), k))
    {
      PrefixOf(ops, k);
    }
  }

  lemma {:induction false} LeftByPoll(ops: seq<Op>)
    requires Waiting(ops) != [] && Blocked(ops).None?
    ensures exists j: nat :: PolledLast(ops, j)
  {
    var n := |ops| - 1;
    PrefixOf(ops, n);
    WaitingIs(Front(ops));
    if Puts(ops, n) {
      assert PolledLast(ops, n);
    } else {
      LeftByPoll(Front(ops));
      var j: nat :| PolledLast(Front(ops), j);
      PolledLastNext(ops, j);
    }
  }

  /** A waiting message is not timed exactly if the queue has only shrunk since a
      poll: the poll clears `last_block` though messages may be left behind. */
  lemma UntimedIff(ops: seq<Op>)
    requires Clocked(ops) && Play(ops).msgs != []
    ensures Play(ops).lastBlock == 0.0 <==> exists j: nat :: PolledLast(ops, j)
  {
    LastBlockIs(ops);
    WaitingIs(ops);
    if Blocked(ops).None? {
      LeftByPoll(ops);
    } else {
      var i := Blocked(ops).value;
      BlockedIsFirst(ops, i);
      assert forall j: nat :: !PolledLast(ops, j);
    }
  }

  /** The next operation. */
  lemma Then(ops: seq<Op>, op: Op) returns (more: seq<Op>)
    ensures more == ops + [op] && Play(more) == AfterOp(Play(ops), op)
  {
    more := ops + [op];
    assert Front(more) == ops;
  }

  // ---- stuck messages ---------------------------------------------------

  /** The slot has held the same message since operation `p`. */
  ghost predicate HeldSince(ops: seq<Op>, p: nat) {
    p < |ops| && Before(ops, p + 1).slot.Some? && forall j :: p < j < |ops| ==> !ops[j].Take?
  }

  /** The application has had the same message in its slot for `diff` seconds. */
  ghost predicate StuckFor(ops: seq<Op>, now: real, diff: real) {
    exists i: nat :: HeldSince(ops, i) && ops[i].Send? && now - ops[i].now > diff
  }

  lemma HeldNext(ops: seq<Op>, p: nat)
    requires p + 1 < |ops|
    ensures HeldSince(ops, p) <==> HeldSince(Front(ops), p) && !ops[|ops| - 1].Take?
  {
    assert Front(ops)[..p + 1] == ops[..p + 1];
  }

  /** A message that is not taken stays, and keeps the others out. */
  lemma {:induction false} HeldStays(ops: seq<Op>, p: nat)
    requires HeldSince(ops, p)
    ensures Play(ops).slot.Some? && forall j :: p < j < |ops| ==> !Puts(ops, j)
  {
    var n := |ops| - 1;
    PrefixOf(ops, n);
    if p < n {
      HeldNext(ops, p);
      HeldStays(Front(ops), p);
      forall j | p < j < |ops| ensures !Puts(ops, j) {
        PrefixOf(ops, j);
      }
    } else {
      assert ops[..p + 1] == ops;
    }
  }

  /** Without a put the slot does not fill, so that a full one has not been emptied. */
  lemma {:induction false} HeldIfFull(ops: seq<Op>, p: nat)
    requires p < |ops| && Play(ops).slot.Some? && forall j :: p < j < |ops| ==> !Puts(ops, j)
    ensures HeldSince(ops, p)
  {
    var n := |ops| - 1;
    PrefixOf(ops, n);
    if p < n {
      forall j | p < j < n ensures !Puts(Front(ops), j) {
        PrefixOf(ops, j);
      }
      assert !Puts(ops, n);
      HeldIfFull(Front(ops), p);
      HeldNext(ops, p);
    } else {
      assert ops[..p + 1] == ops;
    }
  }

  /** When the timeout strikes, the application has had the same message in its
      slot all that time exactly if the slot is full now. */
  lemma TimeoutMeansStuckIff(ops: seq<Op>, now: real, diff: real)
    requires Clocked(ops) && TimedOut(Play(ops), now, diff)
    ensures StuckFor(ops, now, diff) <==> Play(ops).slot.Some?
  {
    hide Play;
    TimeoutIff(ops, now, diff);
    if Play(ops).slot.Some? {
      var i: nat :| Unanswered(ops, i) && now - ops[i].now > diff;
      HeldIfFull(ops, i);
    }
    if i: nat :| HeldSince(ops, i) && ops[i].Send? && now - ops[i].now > diff {
      HeldStays(ops, i);
    }
  }

  /** A message that has not been taken out of the slot leads to the timeout
      exactly if some message has been left in the queue behind it and that was
      more than `diff` seconds ago. */
  lemma StuckTimesOutIff(ops: seq<Op>, p: nat, now: real, diff: real)
    requires Clocked(ops) && p < |ops| && Puts(ops, p) && HeldSince(ops, p)
    ensures TimedOut(Play(ops), now, diff) <==> exists i :: p < i < |ops| && Defers(ops, i) && now - ops[i].now > diff
  {
    hide Play;
    TimeoutIff(ops, now, diff);
    HeldStays(ops, p);
    if i: nat :| Unanswered(ops, i) && now - ops[i].now > diff {
      assert p < i;
    }
    if i :| p < i < |ops| && Defers(ops, i) && now - ops[i].now > diff {
      assert Unanswered(ops, i);
    }
  }

  lemma {:induction false} WaitingWasLeft(ops: seq<Op>, i: nat)
    requires i in Waiting(ops)
    ensures i < |ops| && Defers(ops, i)
  {
    var n := |ops| - 1;
    if !Defers(ops, n) || i != n {
      WaitingWasLeft(Front(ops), i);
      PrefixOf(ops, i);
    }
  }

  /** A message that has waited in the queue for `diff` seconds leads to the timeout
      exactly if no message has gone into the slot since it was left there, or a
      later one has been left that long ago and none has gone in since then. */
  lemma WaitingTimesOutIff(ops: seq<Op>, i: nat, now: real, diff: real)
    requires Clocked(ops) && i in Waiting(ops)
    ensures i < |ops| && ops[i].Send?
    ensures now - ops[i].now > diff ==>
              (TimedOut(Play(ops), now, diff) <==>
               Unanswered(ops, i) || exists k :: i < k < |ops| && Unanswered(ops, k) && now - ops[k].now > diff)
  {
    hide Play, Waiting;
    WaitingWasLeft(ops, i);
    TimeoutIff(ops, now, diff);
    if k: nat :| Unanswered(ops, k) && now - ops[k].now > diff {
      assert k <= i ==> Unanswered(ops, i);
    }
  }

  ghost predicate AllSince(ops: seq<Op>, places: seq<nat>, since: real) {
    forall i :: i in places ==> i < |ops| && ops[i].Send? && ops[i].now >= since
  }

  /** Every waiting message has been left in the queue at `since` or later. */
  ghost predicate WaitingSince(ops: seq<Op>, since: real) {
    AllSince(ops, Waiting(ops), since)
  }

  /** Operation `j` took the last message out of a queue in default, and since
      then no message has been put into the slot, and none left in the queue
      before `since`. */
  ghost predicate EmptiesBefore(ops: seq<Op>, j: nat, since: real) {
    && j < |ops| && TakesBack(ops, j) && |Before(ops, j).msgs| == 1 && Before(ops, j).lastBlock != 0.0
    && forall k :: j < k < |ops| ==> !Puts(ops, k) && (Defers(ops, k) ==> ops[k].now >= since)
  }

  lemma EmptiesBeforeNext(ops: seq<Op>, j: nat, since: real)
    requires ops != [] && j < |ops| - 1
    ensures var n := |ops| - 1;
            EmptiesBefore(ops, j, since) <==>
              EmptiesBefore(Front(ops), j, since) && !Puts(ops, n) && (Defers(ops, n) ==> ops[n].now >= since)
  {
    forall k: nat | k < |ops| - 1
      ensures (Defers(ops, k) <==> Defers(Front(ops), k)) && (Puts(ops, k) <==> Puts(Front(ops), k))
      ensures TakesBack(ops, k) <==> TakesBack(Front(ops), k)
      ensures Before(ops, k) == Before(Front(ops), k)
    {
      PrefixOf(ops, k);
    }
  }

  ghost predicate EmptiedBefore(ops: seq<Op>, since: real) {
    exists j: nat :: EmptiesBefore(ops, j, since)
  }

  lemma EmptiedBeforeNext(ops: seq<Op>, since: real)
    requires ops != []
    ensures var n := |ops| - 1;
            EmptiedBefore(ops, since) <==>
              if TakesBack(ops, n) && |Before(ops, n).msgs| == 1 && Before(ops, n).lastBlock != 0.0 then true
              else EmptiedBefore(Front(ops), since) && !Puts(ops, n) && (Defers(ops, n) ==> ops[n].now >= since)
  {
    var n := |ops| - 1;
    if TakesBack(ops, n) && |Before(ops, n).msgs| == 1 && Before(ops, n).lastBlock != 0.0 {
      assert EmptiesBefore(ops, n, since);
    } else {
      forall j: nat | j < n
        ensures EmptiesBefore(ops, j, since) <==>
                EmptiesBefore(Front(ops), j, since) && !Puts(ops, n) && (Defers(ops, n) ==> ops[n].now >= since)
      {
        EmptiesBeforeNext(ops, j, since);
      }
    }
  }

  /** If the oldest waiting message is recent, all are. */
  lemma HeadIsOldest(ops: seq<Op>, since: real)
    requires Clocked(ops) && Waiting(ops) != []
    ensures Waiting(ops)[0] < |ops| && ops[Waiting(ops)[0]].Send?
    ensures WaitingSince(ops, since) <==> ops[Waiting(ops)[0]].now >= since
  {
    hide Waiting;
    WaitingInOrder(ops);
    var w := Waiting(ops);
    assert w[0] in w;
    forall i | i in w ensures i < |ops| && ops[i].Send? && ops[w[0]].now <= ops[i].now {
      var k :| 0 <= k < |w| && w[k] == i;
    }
  }

  lemma AllSinceFront(ops: seq<Op>, places: seq<nat>, since: real)
    requires ops != [] && forall i :: i in places ==> i < |ops| - 1
    ensures AllSince(ops, places, since) <==> AllSince(Front(ops), places, since)
  {
  }

  lemma OneMoreWaits(ops: seq<Op>, since: real)
    requires ops != [] && Defers(ops, |ops| - 1)
    ensures WaitingSince(ops, since) <==> WaitingSince(Front(ops), since) && ops[|ops| - 1].now >= since
  {
    WaitingInOrder(Front(ops));
    AllSinceFront(ops, Waiting(Front(ops)), since);
  }

  lemma LastTakenBack(ops: seq<Op>, since: real)
    requires Clocked(ops) && ops != [] && TakesBack(ops, |ops| - 1)
    ensures Waiting(Front(ops)) != []
    ensures WaitingSince(ops, since) <==> WaitingSince(Front(ops), since) || |Waiting(Front(ops))| == 1
  {
    var w := Waiting(Front(ops));
    ClockedFront(ops);
    PrefixOf(ops, |ops| - 1);
    WaitingCount(Front(ops));
    assert Waiting(ops) == Front(w);
    HeadIsOldest(Front(ops), since);
    if |w| > 1 { HeadIsOldest(ops, since); }
  }

  lemma {:induction false} WaitingSinceIff(ops: seq<Op>, since: real)
    requires Clocked(ops) && Blocked(ops).Some?
    requires Blocked(ops).value < |ops| && ops[Blocked(ops).value].Send? && ops[Blocked(ops).value].now < since
    ensures WaitingSince(ops, since) <==> EmptiedBefore(ops, since)
  {
    hide Waiting;
    var n := |ops| - 1;
    BlockedIsFirst(ops, Blocked(ops).value);
    hide WaitingSince, EmptiedBefore, Clocked, Play;
    ClockedFront(ops);
    EmptiedBeforeNext(ops, since);
    PrefixOf(ops, n);
    if Defers(ops, n) { OneMoreWaits(ops, since); }
    if TakesBack(ops, n) { LastTakenBack(ops, since); }
    if Blocked(ops).value < n {
      BlockedBefore(Front(ops));
      WaitingSinceIff(Front(ops), since);
      LastBlockIs(Front(ops));
      WaitingCount(Front(ops));
      BlockedIsPositive(Front(ops));
      if !Defers(ops, n) && !TakesBack(ops, n) { SameWait(ops, since); }
    }
  }

  lemma BlockedIsPositive(ops: seq<Op>)
    requires Clocked(ops) && Blocked(ops).Some?
    ensures Play(ops).lastBlock != 0.0
  {
    LastBlockIs(ops);
  }

  lemma SameWait(ops: seq<Op>, since: real)
    requires ops != [] && !Defers(ops, |ops| - 1) && !TakesBack(ops, |ops| - 1) && !Puts(ops, |ops| - 1)
    ensures WaitingSince(ops, since) <==> WaitingSince(Front(ops), since)
  {
    WaitingInOrder(Front(ops));
    AllSinceFront(ops, Waiting(Front(ops)), since);
  }

  /** When the timeout strikes, no message has been waiting in the queue for
      `diff` seconds exactly if the queue was emptied by taking its last message
      back, and nothing has been left in it that long since. */
  lemma NoneWaitsThatLongIff(ops: seq<Op>, now: real, diff: real)
    requires Clocked(ops) && TimedOut(Play(ops), now, diff)
    ensures WaitingSince(ops, now - diff) <==> EmptiedBefore(ops, now - diff)
  {
    hide WaitingSince, EmptiedBefore;
    LastBlockIs(ops);
    WaitingSinceIff(ops, now - diff);
  }

  /** The timeout does not mean that a message is stuck: here none is in the slot,
      and none waits. */
  lemma TimeoutOnNothing() returns (ops: seq<Op>)
    ensures Clocked(ops) && Play(ops) == Line([], None, 1.0) && TimedOut(Play(ops), 182.0, 180.0)
  {
    ops := Then([], Send(NetworkAvailable, 1.0));
    ops := Then(ops, Send(Suspend, 1.0));
    assert Play(ops) == Line([Suspend], Some(NetworkAvailable), 1.0);
    ops := Then(ops, Purge(Suspend));
    ops := Then(ops, Take);
  }

  /** Nor does a stuck message mean that the timeout will strike: here one is never
      taken, another waits behind it, and no time is noted. */
  lemma StuckUnnoticed(now: real) returns (ops: seq<Op>)
    ensures Clocked(ops) && Play(ops) == Line([RereadAppInfo], Some(Suspend), 0.0) && !TimedOut(Play(ops), now, 180.0)
  {
    assert Play([]) == Line([], None, 0.0);
    hide Play;
    ops := Then([], Send(NetworkAvailable, 1.0));
    assert Play(ops) == Line([], Some(NetworkAvailable), 0.0);
    ops := Then(ops, Send(Suspend, 1.0));
    assert Play(ops) == Line([Suspend], Some(NetworkAvailable), 1.0);
    ops := Then(ops, Send(RereadAppInfo, 1.0));
    assert Play(ops) == Line([Suspend, RereadAppInfo], Some(NetworkAvailable), 1.0);
    ops := Then(ops, Take);
    assert Play(ops) == Line([Suspend, RereadAppInfo], None, 1.0);
    ops := Then(ops, Poll);
    assert [Suspend, RereadAppInfo][1..] == [RereadAppInfo];
  }
}
