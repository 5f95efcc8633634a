/** Receive half of the streaming engine as a step system: the FPGA's descriptor FIFO, the
    kernel thread `dev_read_task` and the user's `cdev_read` interleave freely
    (sw/langford_driver/langford.c:93-270, 448-489). Steps are as fine as in `TxStream`. */
module RxStream {
  import opened Options
  import opened Ring
  import opened Division

  const DMA_BUFFS: nat := 32
  const DMA_DESCS: nat := 128
  const DESC_DELAY: nat := 4

  /** Which ring the space check before a copy looks at. The code tests the transmit ring
      (langford.c:196); the ring it then fills is the receive ring. */
  datatype Guard = TestsWriteRing | TestsReadRing

  /** The two sizes the driver is built with, and its space check. */
  datatype Config = Config(blk: nat, guard: Guard)

  /** `cdev_read`: idle, in its wait loop, or copying outside the mutex. */
  datatype User =
    | Idle
    | Waiting(len: nat)
    | Copying(len: nat, got: seq<Byte>)

  /** A descriptor the device has popped: `data` is what it is storing, `done` how far it is. */
  datatype Transfer = Transfer(slot: nat, data: seq<Byte>, done: nat)

  /** State visible to more than one party, and histories: the data received for each popped
      descriptor, the blocks the thread has drained, the bytes of completed reads, the number
      of drains refused for lack of space, and whether every drain so far had room. */
  datatype Shared = Shared(
    buf: seq<Byte>, start: nat, end: nat,
    writeStart: nat, writeEnd: nat,
    user: User,
    slots: seq<seq<Byte>>,
    fifo: seq<nat>,
    transfers: seq<Transfer>,
    air: seq<seq<Byte>>,
    drained: seq<seq<Byte>>,
    delivered: seq<Byte>,
    roomy: bool)

  datatype Pc = Poll | ReadLevel | Enqueue | Drain | Copy | Tail | Shutdown | Stopped

  /** The locals of `dev_read_task`, and `skips`, the passes of its drain loop that found no space. */
  datatype Thread = Thread(
    pc: Pc, buffStart: nat, buffEnd: nat,
    descLevel: int, descActive: int, descComp: int, buffsToWrite: int,
    copied: nat, skips: nat)

  datatype Rx = Rx(sh: Shared, th: Thread)

  datatype Action =
    | UserBegin(len: nat) | UserCheck | UserCopy | UserPublish
    | WriteRingMoves(start: nat, end: nat)
    | DevicePop(data: seq<Byte>) | DeviceStore(j: nat) | DeviceRetire
    | ThreadStep(stop: bool)

  predicate SharedShape(c: Config, sh: Shared) {
    && 0 < c.blk < |sh.buf| && sh.start < |sh.buf| && sh.end < |sh.buf|
    && sh.writeStart < |sh.buf| && sh.writeEnd < |sh.buf|
    && |sh.slots| == DMA_BUFFS && (forall i :: 0 <= i < |sh.slots| ==> |sh.slots[i]| == c.blk)
    && (forall i :: 0 <= i < |sh.fifo| ==> sh.fifo[i] < DMA_BUFFS)
    && (forall i :: 0 <= i < |sh.transfers| ==>
          sh.transfers[i].slot < DMA_BUFFS && sh.transfers[i].done <= |sh.transfers[i].data| == c.blk)
    && (sh.user.Copying? ==> |sh.user.got| <= sh.user.len < |sh.buf|)
  }

  predicate Shape(c: Config, s: Rx) {
    && SharedShape(c, s.sh)
    && s.th.buffStart < DMA_BUFFS && s.th.buffEnd < DMA_BUFFS && s.th.copied <= c.blk
  }

  // ---- the user ----

  function UserStep(c: Config, sh: Shared, a: Action): (r: Option<Shared>)
    requires SharedShape(c, sh)
    ensures r.Some? ==> SharedShape(c, r.value)
  {
    var cap := |sh.buf|;
    match (a, sh.user)
    case (UserBegin(len), Idle) =>
      Some(sh.(user := Waiting(len)))
    case (UserCheck, Waiting(len)) =>
      if Filled(sh.start, sh.end, cap) < len then Some(sh) else Some(sh.(user := Copying(len, [])))
    case (UserCopy, Copying(len, got)) =>
      if |got| == len then None else
      Some(sh.(user := Copying(len, got + [sh.buf[Wrap(sh.start + |got|, cap)]])))
    case (UserPublish, Copying(len, got)) =>
      if |got| < len then None else
      Some(sh.(start := Wrap(sh.start + len, cap), delivered := sh.delivered + got, user := Idle))
    case (WriteRingMoves(start, end), _) =>
      if start < cap && end < cap then Some(sh.(writeStart := start, writeEnd := end)) else None
    case _ => None
  }

  // ---- the device ----

  /** The device pops descriptors in order, holds at most `DESC_DELAY` of them, stores their
      data in any order a byte at a time, and finishes with them in order. */
  function DeviceStep(c: Config, sh: Shared, a: Action): (r: Option<Shared>)
    requires SharedShape(c, sh)
    ensures r.Some? ==> SharedShape(c, r.value)
  {
    match a
    case DevicePop(data) =>
      if sh.fifo == [] || |sh.transfers| == DESC_DELAY || |data| != c.blk then None else
      Some(sh.(fifo := sh.fifo[1..], transfers := sh.transfers + [Transfer(sh.fifo[0], data, 0)],
               air := sh.air + [data]))
    case DeviceStore(j) =>
      if j >= |sh.transfers| || sh.transfers[j].done == c.blk then None else
      var t := sh.transfers[j];
      Some(sh.(slots := sh.slots[t.slot := sh.slots[t.slot][t.done := t.data[t.done]]],
               transfers := sh.transfers[j := t.(done := t.done + 1)]))
    case DeviceRetire =>
      if sh.transfers == [] || sh.transfers[0].done < c.blk then None else
      Some(sh.(transfers := sh.transfers[1..]))
    case _ => None
  }

  // ---- dev_read_task ----

  function Space(c: Config, sh: Shared): int {
    match c.guard
    case TestsWriteRing => Avail(sh.writeStart, sh.writeEnd, |sh.buf|)
    case TestsReadRing => Avail(sh.start, sh.end, |sh.buf|)
  }

  function LevelStep(c: Config, s: Rx): (r: Rx)
    requires Shape(c, s)
    ensures Shape(c, r)
  {
    var th := s.th;
    var level := |s.sh.fifo|;
    var room := DMA_DESCS - level;
    var avail := Avail(th.buffStart, th.buffEnd, DMA_BUFFS);
    s.(th := th.(pc := Enqueue, descLevel := level, buffsToWrite := if room < avail then room else avail))
  }

  function EnqueueStep(c: Config, s: Rx): (r: Rx)
    requires Shape(c, s)
    ensures Shape(c, r)
  {
    var th := s.th;
    if th.buffsToWrite == 0 then
      s.(th := th.(pc := Drain, descComp := th.descComp + (th.descActive - th.descLevel), descActive := th.descLevel))
    else
      Rx(s.sh.(fifo := s.sh.fifo + [th.buffEnd]),
         th.(buffEnd := (th.buffEnd + 1) % DMA_BUFFS, descActive := th.descActive + 1,
             descLevel := th.descLevel + 1, buffsToWrite := th.buffsToWrite - 1))
  }

  function DrainStep(c: Config, s: Rx): (r: Rx)
    requires Shape(c, s)
    ensures Shape(c, r)
  {
    var th, sh := s.th, s.sh;
    if th.descComp <= DESC_DELAY then s.(th := th.(pc := Tail))
    else if Space(c, sh) > c.blk then
      Rx(sh.(roomy := sh.roomy && Avail(sh.start, sh.end, |sh.buf|) >= c.blk), th.(pc := Copy, copied := 0))
    else s.(th := th.(descComp := th.descComp - 1, skips := th.skips + 1))
  }

  function CopyStep(c: Config, s: Rx): (r: Rx)
    requires Shape(c, s)
    ensures Shape(c, r)
  {
    var th, sh := s.th, s.sh;
    if th.copied < c.blk then
      var b := sh.slots[th.buffStart][th.copied];
      Rx(sh.(buf := sh.buf[Wrap(sh.end + th.copied, |sh.buf|) := b]), th.(copied := th.copied + 1))
    else
      Rx(sh.(end := Wrap(sh.end + c.blk, |sh.buf|), drained := sh.drained + [sh.slots[th.buffStart]]),
         th.(pc := Drain, buffStart := (th.buffStart + 1) % DMA_BUFFS, descComp := th.descComp - 1))
  }

  function ThreadNext(c: Config, s: Rx, stop: bool): (r: Option<Rx>)
    requires Shape(c, s)
    ensures r.Some? ==> Shape(c, r.value)
  {
    var th := s.th;
    match th.pc
    case Poll =>
      if stop then Some(s.(th := th.(pc := Stopped)))
      else if |s.sh.fifo| >= DMA_DESCS then Some(s)
      else Some(s.(th := th.(pc := ReadLevel)))
    case ReadLevel => Some(LevelStep(c, s))
    case Enqueue => Some(EnqueueStep(c, s))
    case Drain => Some(DrainStep(c, s))
    case Copy => Some(CopyStep(c, s))
    case Tail => Some(s.(th := th.(pc := if stop then Shutdown else Poll)))
    case Shutdown =>
      if th.descLevel == 0 then Some(s.(th := th.(pc := Stopped)))
      else Some(s.(th := th.(descLevel := |s.sh.fifo|)))
    case Stopped => None
  }

  /** A step of anyone but the thread. */
  function OthersStep(c: Config, sh: Shared, a: Action): (r: Option<Shared>)
    requires SharedShape(c, sh)
    ensures r.Some? ==> SharedShape(c, r.value)
    ensures r.Some? ==> r.value.end == sh.end && |r.value.buf| == |sh.buf| && r.value.drained == sh.drained
  {
    match a
    case ThreadStep(_) => None
    case UserBegin(_) | UserCheck | UserCopy | UserPublish | WriteRingMoves(_, _) => UserStep(c, sh, a)
    case DevicePop(_) | DeviceStore(_) | DeviceRetire => DeviceStep(c, sh, a)
  }

  function Step(c: Config, s: Rx, a: Action): (r: Option<Rx>)
    requires Shape(c, s)
    ensures r.Some? ==> Shape(c, r.value)
  {
    if a.ThreadStep? then ThreadNext(c, s, a.stop) else
    var r := OthersStep(c, s.sh, a);
    if r.None? then None else Some(s.(sh := r.value))
  }

  predicate OfUser(a: Action) {
    a.UserBegin? || a.UserCheck? || a.UserCopy? || a.UserPublish?
  }

  /** What the other parties make of a burst of actions; those that cannot be taken are skipped. */
  function OthersRun(c: Config, sh: Shared, acts: seq<Action>): (r: Shared)
    requires SharedShape(c, sh)
    ensures SharedShape(c, r)
    decreases |acts|
  {
    if acts == [] then sh else AfterOther(c, OthersRun(c, sh, acts[..|acts| - 1]), acts[|acts| - 1])
  }

  function AfterOther(c: Config, sh: Shared, a: Action): (r: Shared)
    requires SharedShape(c, sh)
    ensures SharedShape(c, r)
  {
    var r := OthersStep(c, sh, a);
    if r.None? then sh else r.value
  }

  lemma OthersRunNext(c: Config, sh: Shared, acts: seq<Action>, i: nat)
    requires SharedShape(c, sh) && i < |acts|
    ensures OthersRun(c, sh, acts[..i + 1]) == AfterOther(c, OthersRun(c, sh, acts[..i]), acts[i])
  {
    assert acts[..i + 1][..i] == acts[..i];
  }

  /** The same for everyone but the user, the thread included. */
  function WithoutUserRun(c: Config, s: Rx, acts: seq<Action>): (r: Rx)
    requires Shape(c, s)
    ensures Shape(c, r)
    decreases |acts|
  {
    if acts == [] then s else AfterParty(c, WithoutUserRun(c, s, acts[..|acts| - 1]), acts[|acts| - 1])
  }

  function AfterParty(c: Config, s: Rx, a: Action): (r: Rx)
    requires Shape(c, s)
    ensures Shape(c, r)
  {
    if OfUser(a) || Step(c, s, a).None? then s else Step(c, s, a).value
  }

  lemma WithoutUserRunNext(c: Config, s: Rx, acts: seq<Action>, i: nat)
    requires Shape(c, s) && i < |acts|
    ensures WithoutUserRun(c, s, acts[..i + 1]) == AfterParty(c, WithoutUserRun(c, s, acts[..i]), acts[i])
  {
    assert acts[..i + 1][..i] == acts[..i];
  }

  /** How many steps of a schedule are the thread's own. */
  function ThreadSteps(acts: seq<Action>): nat
    decreases |acts|
  {
    if acts == [] then 0 else
    ThreadSteps(acts[..|acts| - 1]) + (if acts[|acts| - 1].ThreadStep? then 1 else 0)
  }

  /** How many are tests made by the user's wait loop. */
  function Checks(acts: seq<Action>): nat
    decreases |acts|
  {
    if acts == [] then 0 else
    Checks(acts[..|acts| - 1]) + (if acts[|acts| - 1].UserCheck? then 1 else 0)
  }

  lemma CountSnoc(acts: seq<Action>, a: Action)
    ensures ThreadSteps(acts + [a]) == ThreadSteps(acts) + (if a.ThreadStep? then 1 else 0)
    ensures Checks(acts + [a]) == Checks(acts) + (if a.UserCheck? then 1 else 0)
  {
    assert (acts + [a])[..|acts|] == acts;
  }

  /** What only the user changes. */
  predicate SameUser(sh: Shared, sh': Shared) {
    sh'.user == sh.user && sh'.delivered == sh.delivered && sh'.start == sh.start && |sh'.buf| == |sh.buf|
  }

  lemma StepSameUser(c: Config, s: Rx, a: Action)
    requires Shape(c, s) && Step(c, s, a).Some? && !OfUser(a)
    ensures SameUser(s.sh, Step(c, s, a).value.sh)
  {
  }

  function Exec(c: Config, s: Rx, acts: seq<Action>): (r: Option<Rx>)
    requires Shape(c, s)
    ensures r.Some? ==> Shape(c, r.value)
    decreases |acts|
  {
    if acts == [] then Some(s) else
    var r := Exec(c, s, acts[..|acts| - 1]);
    if r.None? then None else Step(c, r.value, acts[|acts| - 1])
  }

  predicate Leads(c: Config, s: Rx, acts: seq<Action>, s': Rx)
    requires Shape(c, s)
  {
    Exec(c, s, acts) == Some(s')
  }

  lemma Extend(c: Config, s: Rx, acts: seq<Action>, s1: Rx, a: Action, s2: Rx)
    requires Shape(c, s) && Shape(c, s1) && Leads(c, s, acts, s1) && Step(c, s1, a) == Some(s2)
    ensures Leads(c, s, acts + [a], s2)
  {
    var all := acts + [a];
    assert all[..|all| - 1] == acts;
  }

  predicate Init(c: Config, s: Rx) {
    && SharedShape(c, s.sh)
    && s.sh.start == s.sh.end == 0 && s.sh.user == Idle && s.sh.fifo == [] && s.sh.transfers == []
    && s.sh.air == [] && s.sh.drained == [] && s.sh.delivered == [] && s.sh.roomy
    && s.th == Thread(Poll, 0, 0, 0, 0, 0, 0, 0, 0)
  }

  // ---- the invariant on descriptors and DMA slots, under either space check ----

  function Enqueued(sh: Shared): nat { |sh.air| + |sh.fifo| }

  /** The device works on consecutive descriptors, in the slots numbered by them. */
  predicate QueueOk(sh: Shared) {
    && |sh.transfers| <= DESC_DELAY && |sh.transfers| <= |sh.air|
    && (forall i :: 0 <= i < |sh.fifo| ==> sh.fifo[i] == (|sh.air| + i) % DMA_BUFFS)
    && (forall i :: 0 <= i < |sh.transfers| ==>
          sh.transfers[i].slot == (|sh.air| - |sh.transfers| + i) % DMA_BUFFS
          && sh.transfers[i].data == sh.air[|sh.air| - |sh.transfers| + i])
  }

  /** What the thread has drained is what the device received, in order, and no slot with a
      block still to drain has been handed to the device again. */
  predicate DrainedOk(sh: Shared) {
    && |sh.drained| + |sh.transfers| <= |sh.air|
    && sh.drained == sh.air[..|sh.drained|]
    && Enqueued(sh) - |sh.drained| < DMA_BUFFS
  }

  /** Every finished block not yet drained is intact in its slot, and so is the finished part
      of every block in transfer. */
  predicate SlotsOk(c: Config, sh: Shared)
    requires SharedShape(c, sh)
  {
    && (forall i :: |sh.drained| <= i < |sh.air| - |sh.transfers| ==> sh.slots[i % DMA_BUFFS] == sh.air[i])
    && (forall i :: 0 <= i < |sh.transfers| ==>
          var t := sh.transfers[i]; sh.slots[t.slot][..t.done] == t.data[..t.done])
  }

  /** The thread's counters: slots between its two indices are active, completed, or were
      given up when a pass found no space; the device never has more than the active ones. */
  predicate CountsOk(s: Rx) {
    var th, sh := s.th, s.sh;
    && |sh.drained| <= Enqueued(sh)
    && th.buffStart == |sh.drained| % DMA_BUFFS && th.buffEnd == Enqueued(sh) % DMA_BUFFS
    && Enqueued(sh) - |sh.drained| == th.descActive + th.descComp + th.skips
    && |sh.fifo| <= th.descActive && 0 <= th.descComp
    && (th.skips > 0 ==> DESC_DELAY <= th.descComp)
    && match th.pc
       case Poll | ReadLevel | Tail | Shutdown | Stopped => th.descComp <= DESC_DELAY
       case Enqueue =>
         && th.descComp <= DESC_DELAY && |sh.fifo| <= th.descLevel <= th.descActive
         && 0 <= th.buffsToWrite < DMA_BUFFS - (Enqueued(sh) - |sh.drained|)
       case Drain => true
       case Copy => th.descComp > DESC_DELAY
  }

  predicate DmaInv(c: Config, s: Rx) {
    && Shape(c, s) && QueueOk(s.sh) && DrainedOk(s.sh) && SlotsOk(c, s.sh) && CountsOk(s)
  }

  // ---- the invariant on the receive ring, for runs whose drains all had room ----

  predicate RingOk(c: Config, s: Rx)
    requires Shape(c, s)
  {
    var sh := s.sh;
    var live := Live(sh.buf, sh.start, sh.end);
    && Flatten(sh.drained) == sh.delivered + live
    && (sh.user.Copying? ==> sh.user.len <= |live| && sh.user.got <= live)
    && (s.th.pc == Copy ==>
          && c.blk <= Avail(sh.start, sh.end, |sh.buf|)
          && Placed(sh.buf, sh.end, sh.slots[s.th.buffStart], s.th.copied))
  }

  predicate Inv(c: Config, s: Rx) {
    DmaInv(c, s) && (s.sh.roomy ==> RingOk(c, s))
  }

  lemma InitInv(c: Config, s: Rx)
    requires Init(c, s)
    ensures Inv(c, s)
  {
  }

  lemma UserFrame(c: Config, sh: Shared, a: Action)
    requires SharedShape(c, sh) && UserStep(c, sh, a).Some?
    ensures var sh' := UserStep(c, sh, a).value;
            sh' == sh.(start := sh'.start, user := sh'.user, delivered := sh'.delivered,
                       writeStart := sh'.writeStart, writeEnd := sh'.writeEnd)
  {
  }

  lemma UserPublishKeepsRing(c: Config, s: Rx)
    requires Shape(c, s) && RingOk(c, s) && UserStep(c, s.sh, UserPublish).Some?
    ensures RingOk(c, s.(sh := UserStep(c, s.sh, UserPublish).value))
  {
    var sh := s.sh;
    var live := Live(sh.buf, sh.start, sh.end);
    var len := sh.user.len;
    PublishStart(sh.buf, sh.start, sh.end, len);
    MovePrefix(sh.delivered, sh.user.got, live);
  }

  lemma UserCopyKeepsRing(c: Config, s: Rx)
    requires Shape(c, s) && RingOk(c, s) && UserStep(c, s.sh, UserCopy).Some?
    ensures RingOk(c, s.(sh := UserStep(c, s.sh, UserCopy).value))
  {
    var sh := s.sh;
    var live := Live(sh.buf, sh.start, sh.end);
    var k := |sh.user.got|;
    assert live[..k + 1] == live[..k] + [live[k]];
  }

  lemma UserKeepsRing(c: Config, s: Rx, a: Action)
    requires Shape(c, s) && RingOk(c, s) && UserStep(c, s.sh, a).Some?
    ensures RingOk(c, s.(sh := UserStep(c, s.sh, a).value))
  {
    match a {
      case UserPublish => UserPublishKeepsRing(c, s);
      case UserCopy => UserCopyKeepsRing(c, s);
      case _ =>
    }
  }

  lemma UserKeeps(c: Config, s: Rx, a: Action)
    requires Inv(c, s) && UserStep(c, s.sh, a).Some?
    ensures Inv(c, s.(sh := UserStep(c, s.sh, a).value))
  {
    UserFrame(c, s.sh, a);
    if s.sh.roomy { UserKeepsRing(c, s, a); }
  }

  lemma DeviceFrame(c: Config, sh: Shared, a: Action)
    requires SharedShape(c, sh) && DeviceStep(c, sh, a).Some?
    ensures var sh' := DeviceStep(c, sh, a).value;
            && sh' == sh.(slots := sh'.slots, fifo := sh'.fifo, transfers := sh'.transfers, air := sh'.air)
            && Enqueued(sh') == Enqueued(sh) && |sh'.fifo| <= |sh.fifo|
  {
  }

  lemma PopKeepsQueue(c: Config, sh: Shared, data: seq<Byte>)
    requires SharedShape(c, sh) && QueueOk(sh) && DrainedOk(sh) && DeviceStep(c, sh, DevicePop(data)).Some?
    ensures var sh' := DeviceStep(c, sh, DevicePop(data)).value; QueueOk(sh') && DrainedOk(sh')
  {
    assert (sh.air + [data])[..|sh.drained|] == sh.air[..|sh.drained|];
  }

  lemma DeviceKeepsQueue(c: Config, sh: Shared, a: Action)
    requires SharedShape(c, sh) && QueueOk(sh) && DrainedOk(sh) && DeviceStep(c, sh, a).Some?
    ensures var sh' := DeviceStep(c, sh, a).value; QueueOk(sh') && DrainedOk(sh')
  {
    if a.DevicePop? { PopKeepsQueue(c, sh, a.data); }
  }

  /** A transfer's slot holds no finished block and no other transfer. */
  lemma TransferSlotDistinct(c: Config, sh: Shared, j: nat)
    requires SharedShape(c, sh) && QueueOk(sh) && DrainedOk(sh) && j < |sh.transfers|
    ensures forall i :: 0 <= i < |sh.transfers| && i != j ==> sh.transfers[i].slot != sh.transfers[j].slot
    ensures forall i :: |sh.drained| <= i < |sh.air| - |sh.transfers| ==> i % DMA_BUFFS != sh.transfers[j].slot
  {
  }

  lemma StoreKeepsSlots(c: Config, sh: Shared, j: nat)
    requires SharedShape(c, sh) && QueueOk(sh) && DrainedOk(sh) && SlotsOk(c, sh)
    requires DeviceStep(c, sh, DeviceStore(j)).Some?
    ensures SlotsOk(c, DeviceStep(c, sh, DeviceStore(j)).value)
  {
    TransferSlotDistinct(c, sh, j);
    var sh' := DeviceStep(c, sh, DeviceStore(j)).value;
    var t := sh.transfers[j];
    assert sh'.slots[t.slot][..t.done + 1] == sh.slots[t.slot][..t.done] + [t.data[t.done]];
    assert t.data[..t.done + 1] == t.data[..t.done] + [t.data[t.done]];
  }

  lemma DeviceKeepsSlots(c: Config, sh: Shared, a: Action)
    requires SharedShape(c, sh) && QueueOk(sh) && DrainedOk(sh) && SlotsOk(c, sh)
    requires DeviceStep(c, sh, a).Some?
    ensures SlotsOk(c, DeviceStep(c, sh, a).value)
  {
    match a {
      case DeviceStore(j) => StoreKeepsSlots(c, sh, j);
      case DeviceRetire =>
        var t := sh.transfers[0];
        assert sh.slots[t.slot] == sh.slots[t.slot][..t.done] == t.data[..t.done] == t.data;
      case _ =>
    }
  }

  /** A slot being drained is finished: the device is neither storing into it nor has it queued. */
  lemma DrainSlotFinished(c: Config, s: Rx)
    requires DmaInv(c, s) && s.th.pc == Copy
    ensures |s.sh.drained| < |s.sh.air| - |s.sh.transfers|
    ensures s.sh.slots[s.th.buffStart] == s.sh.air[|s.sh.drained|]
    ensures !Owns(s.sh, s.th.buffStart)
  {
    DrainSlotNotOwned(s);
  }

  lemma DrainSlotNotOwned(s: Rx)
    requires QueueOk(s.sh) && DrainedOk(s.sh) && CountsOk(s) && s.th.pc == Copy
    ensures |s.sh.drained| < |s.sh.air| - |s.sh.transfers|
    ensures !Owns(s.sh, s.th.buffStart)
  {
    var sh := s.sh;
    var m := |sh.drained|;
    forall i | 0 <= i < |sh.fifo| ensures sh.fifo[i] != s.th.buffStart {
      SlotsApart(m, |sh.air| + i);
    }
    forall i | 0 <= i < |sh.transfers| ensures sh.transfers[i].slot != s.th.buffStart {
      SlotsApart(m, |sh.air| - |sh.transfers| + i);
    }
  }

  lemma SlotsApart(m: nat, n: nat)
    requires m < n < m + DMA_BUFFS
    ensures m % DMA_BUFFS != n % DMA_BUFFS
  {
  }

  predicate Owns(sh: Shared, slot: nat) {
    slot in sh.fifo || exists i :: 0 <= i < |sh.transfers| && sh.transfers[i].slot == slot
  }

  lemma DeviceKeepsRing(c: Config, s: Rx, a: Action)
    requires DmaInv(c, s) && RingOk(c, s) && DeviceStep(c, s.sh, a).Some?
    ensures RingOk(c, s.(sh := DeviceStep(c, s.sh, a).value))
  {
    DeviceFrame(c, s.sh, a);
    if s.th.pc == Copy { DrainSlotFinished(c, s); }
  }

  lemma DeviceKeeps(c: Config, s: Rx, a: Action)
    requires Inv(c, s) && DeviceStep(c, s.sh, a).Some?
    ensures Inv(c, s.(sh := DeviceStep(c, s.sh, a).value))
  {
    DeviceFrame(c, s.sh, a);
    DeviceKeepsQueue(c, s.sh, a);
    DeviceKeepsSlots(c, s.sh, a);
    if s.sh.roomy { DeviceKeepsRing(c, s, a); }
  }

  lemma NextSlot(n: nat)
    ensures (n % DMA_BUFFS + 1) % DMA_BUFFS == (n + 1) % DMA_BUFFS
  {
  }

  lemma SlotGap(m: nat, n: nat)
    requires m <= n < m + DMA_BUFFS
    ensures Filled(m % DMA_BUFFS, n % DMA_BUFFS, DMA_BUFFS) == n - m
  {
  }

  lemma LevelKeeps(c: Config, s: Rx)
    requires Inv(c, s) && s.th.pc == ReadLevel
    ensures Inv(c, LevelStep(c, s))
  {
    LevelKeepsCounts(c, s);
  }

  lemma LevelKeepsCounts(c: Config, s: Rx)
    requires Shape(c, s) && CountsOk(s) && DrainedOk(s.sh) && s.th.pc == ReadLevel
    ensures CountsOk(LevelStep(c, s))
  {
    SlotGap(|s.sh.drained|, Enqueued(s.sh));
  }

  lemma EnqueueKeepsCounts(c: Config, s: Rx)
    requires Shape(c, s) && CountsOk(s) && s.th.pc == Enqueue
    ensures CountsOk(EnqueueStep(c, s))
  {
    NextSlot(Enqueued(s.sh));
  }

  lemma EnqueueKeepsQueue(c: Config, s: Rx)
    requires Shape(c, s) && CountsOk(s) && QueueOk(s.sh) && DrainedOk(s.sh) && s.th.pc == Enqueue
    ensures var sh' := EnqueueStep(c, s).sh; QueueOk(sh') && DrainedOk(sh')
  {
  }

  lemma EnqueueKeeps(c: Config, s: Rx)
    requires Inv(c, s) && s.th.pc == Enqueue
    ensures Inv(c, EnqueueStep(c, s))
  {
    EnqueueKeepsCounts(c, s);
    EnqueueKeepsQueue(c, s);
  }

  lemma DrainKeeps(c: Config, s: Rx)
    requires Inv(c, s) && s.th.pc == Drain
    ensures Inv(c, DrainStep(c, s))
  {
  }

  lemma CopyByteKeepsRing(c: Config, s: Rx)
    requires Shape(c, s) && RingOk(c, s) && s.th.pc == Copy && s.th.copied < c.blk
    ensures RingOk(c, CopyStep(c, s))
  {
    PlaceNext(s.sh.buf, s.sh.start, s.sh.end, s.sh.slots[s.th.buffStart], s.th.copied);
  }

  lemma PublishKeepsRing(c: Config, s: Rx)
    requires Shape(c, s) && RingOk(c, s) && s.th.pc == Copy && s.th.copied == c.blk
    ensures RingOk(c, CopyStep(c, s))
  {
    var sh := s.sh;
    var block := sh.slots[s.th.buffStart];
    PublishEnd(sh.buf, sh.start, sh.end, block);
    FlattenSnoc(sh.drained, block);
    assert sh.delivered + Live(sh.buf, sh.start, sh.end) + block
        == sh.delivered + (Live(sh.buf, sh.start, sh.end) + block);
  }

  lemma PublishKeepsDma(c: Config, s: Rx)
    requires DmaInv(c, s) && s.th.pc == Copy && s.th.copied == c.blk
    ensures DmaInv(c, CopyStep(c, s))
  {
    DrainSlotFinished(c, s);
    PublishKeepsDrained(c, s);
    PublishKeepsCounts(c, s);
  }

  lemma PublishKeepsDrained(c: Config, s: Rx)
    requires Shape(c, s) && DrainedOk(s.sh) && s.th.pc == Copy && s.th.copied == c.blk
    requires |s.sh.drained| < |s.sh.air| - |s.sh.transfers|
    requires s.sh.slots[s.th.buffStart] == s.sh.air[|s.sh.drained|]
    ensures DrainedOk(CopyStep(c, s).sh)
  {
    var n := |s.sh.drained|;
    assert s.sh.air[..n + 1] == s.sh.air[..n] + [s.sh.air[n]];
  }

  lemma PublishKeepsCounts(c: Config, s: Rx)
    requires Shape(c, s) && CountsOk(s) && s.th.pc == Copy && s.th.copied == c.blk
    requires |s.sh.drained| < |s.sh.air|
    ensures CountsOk(CopyStep(c, s))
  {
    NextSlot(|s.sh.drained|);
  }

  lemma CopyKeeps(c: Config, s: Rx)
    requires Inv(c, s) && s.th.pc == Copy
    ensures Inv(c, CopyStep(c, s))
  {
    if s.th.copied < c.blk {
      if s.sh.roomy { CopyByteKeepsRing(c, s); }
    } else {
      PublishKeepsDma(c, s);
      if s.sh.roomy { PublishKeepsRing(c, s); }
    }
  }

  lemma ThreadKeeps(c: Config, s: Rx, stop: bool)
    requires Inv(c, s) && ThreadNext(c, s, stop).Some?
    ensures Inv(c, ThreadNext(c, s, stop).value)
  {
    match s.th.pc {
      case ReadLevel => LevelKeeps(c, s);
      case Enqueue => EnqueueKeeps(c, s);
      case Drain => DrainKeeps(c, s);
      case Copy => CopyKeeps(c, s);
      case _ =>
    }
  }

  lemma StepKeeps(c: Config, s: Rx, a: Action)
    requires Inv(c, s) && Step(c, s, a).Some?
    ensures Inv(c, Step(c, s, a).value)
  {
    match a {
      case ThreadStep(stop) => ThreadKeeps(c, s, stop);
      case UserBegin(_) | UserCheck | UserCopy | UserPublish | WriteRingMoves(_, _) => UserKeeps(c, s, a);
      case DevicePop(_) | DeviceStore(_) | DeviceRetire => DeviceKeeps(c, s, a);
    }
  }

  lemma {:induction false} ExecKeeps(c: Config, s: Rx, acts: seq<Action>)
    requires Inv(c, s) && Exec(c, s, acts).Some?
    ensures Inv(c, Exec(c, s, acts).value)
    decreases |acts|
  {
    if acts != [] {
      ExecKeeps(c, s, acts[..|acts| - 1]);
      StepKeeps(c, Exec(c, s, acts[..|acts| - 1]).value, acts[|acts| - 1]);
    }
  }

  // ---- what every schedule guarantees ----

  /** The data the device received, one block for each descriptor it popped. */
  function Received(acts: seq<Action>): seq<seq<Byte>>
    decreases |acts|
  {
    if acts == [] then [] else
    Received(acts[..|acts| - 1]) + (if acts[|acts| - 1].DevicePop? then [acts[|acts| - 1].data] else [])
  }

  lemma StepAir(c: Config, s: Rx, a: Action)
    requires Shape(c, s) && Step(c, s, a).Some?
    ensures Step(c, s, a).value.sh.air == s.sh.air + (if a.DevicePop? then [a.data] else [])
  {
  }

  lemma {:induction false} AirIsReceived(c: Config, s0: Rx, acts: seq<Action>, s: Rx)
    requires Init(c, s0) && Leads(c, s0, acts, s)
    ensures s.sh.air == Received(acts)
    decreases |acts|
  {
    if acts != [] {
      var mid := Exec(c, s0, acts[..|acts| - 1]).value;
      AirIsReceived(c, s0, acts[..|acts| - 1], mid);
      StepAir(c, mid, acts[|acts| - 1]);
    }
  }

  lemma Reachable(c: Config, s0: Rx, acts: seq<Action>, s: Rx)
    requires Init(c, s0) && Leads(c, s0, acts, s)
    ensures Inv(c, s) && s.sh.air == Received(acts)
  {
    InitInv(c, s0);
    ExecKeeps(c, s0, acts);
    AirIsReceived(c, s0, acts, s);
  }

  /** Under either space check, and on runs that skip blocks: the k-th block drained is the data
      of the k-th descriptor; the slot being drained is not the device's and holds that data. */
  lemma DrainedIsReceived(c: Config, s0: Rx, acts: seq<Action>, s: Rx)
    requires Init(c, s0) && Leads(c, s0, acts, s)
    ensures s.sh.drained <= Received(acts)
    ensures s.th.pc == Copy ==>
              && !Owns(s.sh, s.th.buffStart)
              && |s.sh.drained| < |Received(acts)|
              && s.th.buffStart < |s.sh.slots| && s.sh.slots[s.th.buffStart] == Received(acts)[|s.sh.drained|]
  {
    Reachable(c, s0, acts, s);
    if s.th.pc == Copy { DrainSlotFinished(c, s); }
  }

  lemma FreeSlot(s: Rx, i: nat)
    requires CountsOk(s) && s.th.pc == Enqueue && s.th.buffsToWrite != 0 && |s.sh.drained| <= i < Enqueued(s.sh)
    ensures i % DMA_BUFFS != s.th.buffEnd
  {
    SlotsApart(i, Enqueued(s.sh));
  }

  /** A slot handed to the device is none of those holding, or due to receive, a block that has
      not been drained yet. */
  lemma EnqueuedSlotIsFree(c: Config, s0: Rx, acts: seq<Action>, s: Rx, i: nat)
    requires Init(c, s0) && Leads(c, s0, acts, s)
    requires s.th.pc == Enqueue && s.th.buffsToWrite != 0 && |s.sh.drained| <= i < Enqueued(s.sh)
    ensures i % DMA_BUFFS != s.th.buffEnd
  {
    Reachable(c, s0, acts, s);
    FreeSlot(s, i);
  }

  const MAX_SKIPS: nat := DMA_BUFFS - 1 - DESC_DELAY

  /** The thread's book-keeping: every slot between its indices is active, completed, or was
      given up by a pass that found no space, which can happen at most `MAX_SKIPS` times. */
  lemma SlotsAccountedFor(c: Config, s0: Rx, acts: seq<Action>, s: Rx)
    requires Init(c, s0) && Leads(c, s0, acts, s)
    ensures Filled(s.th.buffStart, s.th.buffEnd, DMA_BUFFS) == s.th.descActive + s.th.descComp + s.th.skips
    ensures |s.sh.fifo| <= s.th.descActive < DMA_BUFFS && s.th.skips <= MAX_SKIPS
  {
    Reachable(c, s0, acts, s);
    SlotGap(|s.sh.drained|, Enqueued(s.sh));
  }

  /** A state in which reception is over: all slots given up or held back, none active. */
  predicate Wedged(s: Rx) {
    && s.th.skips == MAX_SKIPS && s.th.descComp == DESC_DELAY && s.th.descActive == 0 && s.sh.fifo == []
    && Avail(s.th.buffStart, s.th.buffEnd, DMA_BUFFS) == 0
    && s.th.pc != Copy && (s.th.pc == Enqueue ==> s.th.buffsToWrite == 0 && s.th.descLevel == 0)
  }

  lemma MaxSkipsWedge(c: Config, s: Rx)
    requires Shape(c, s) && CountsOk(s) && DrainedOk(s.sh) && s.th.skips == MAX_SKIPS
    ensures Wedged(s)
  {
    SlotGap(|s.sh.drained|, Enqueued(s.sh));
  }

  lemma WedgedStep(c: Config, s: Rx, a: Action)
    requires Shape(c, s) && Wedged(s) && Step(c, s, a).Some?
    ensures var s' := Step(c, s, a).value;
            && Wedged(s') && s'.sh.drained == s.sh.drained && s'.sh.air == s.sh.air
            && s'.th.buffStart == s.th.buffStart && s'.th.buffEnd == s.th.buffEnd
  {
  }

  /** After `MAX_SKIPS` skipped passes reception is dead: whatever runs, no descriptor is ever
      enqueued, no data received and no block drained again. */
  lemma {:induction false} WedgedForever(c: Config, s0: Rx, acts: seq<Action>, s: Rx)
    requires Inv(c, s0) && s0.th.skips == MAX_SKIPS && Leads(c, s0, acts, s)
    ensures Wedged(s) && s.sh.drained == s0.sh.drained && s.sh.air == s0.sh.air
    ensures s.th.buffStart == s0.th.buffStart && s.th.buffEnd == s0.th.buffEnd
    decreases |acts|
  {
    if acts == [] {
      MaxSkipsWedge(c, s0);
    } else {
      var mid := Exec(c, s0, acts[..|acts| - 1]).value;
      WedgedForever(c, s0, acts[..|acts| - 1], mid);
      WedgedStep(c, mid, acts[|acts| - 1]);
    }
  }

  lemma RoomyStep(c: Config, s: Rx, a: Action)
    requires Shape(c, s) && Step(c, s, a).Some? && s.sh.roomy && c.guard == TestsReadRing
    ensures Step(c, s, a).value.sh.roomy
  {
  }

  lemma {:induction false} StaysRoomy(c: Config, s0: Rx, acts: seq<Action>, s: Rx)
    requires Shape(c, s0) && Leads(c, s0, acts, s) && s0.sh.roomy && c.guard == TestsReadRing
    ensures s.sh.roomy
    decreases |acts|
  {
    if acts != [] {
      var mid := Exec(c, s0, acts[..|acts| - 1]).value;
      StaysRoomy(c, s0, acts[..|acts| - 1], mid);
      RoomyStep(c, mid, acts[|acts| - 1]);
    }
  }

  lemma ReachableRoomy(c: Config, s0: Rx, acts: seq<Action>, s: Rx)
    requires Init(c, s0) && Leads(c, s0, acts, s) && (c.guard == TestsReadRing || s.sh.roomy)
    ensures Inv(c, s) && RingOk(c, s) && s.sh.air == Received(acts)
  {
    if c.guard == TestsReadRing { StaysRoomy(c, s0, acts, s); }
    Reachable(c, s0, acts, s);
  }

  /** With the space check on the ring that is filled, and on any other run whose drains had
      room in it, the user reads a prefix of what was received and the rest of the drained
      blocks is in the ring. */
  lemma ReadsFollowReception(c: Config, s0: Rx, acts: seq<Action>, s: Rx)
    requires Init(c, s0) && Leads(c, s0, acts, s) && (c.guard == TestsReadRing || s.sh.roomy)
    ensures Shape(c, s) && s.sh.drained <= Received(acts)
    ensures Flatten(s.sh.drained) == s.sh.delivered + Live(s.sh.buf, s.sh.start, s.sh.end)
    ensures s.sh.delivered <= Flatten(Received(acts))
  {
    ReachableRoomy(c, s0, acts, s);
    DeliveredPrefix(s.sh.delivered, Live(s.sh.buf, s.sh.start, s.sh.end), s.sh.drained, s.sh.air);
  }

  lemma DeliveredPrefix(delivered: seq<Byte>, live: seq<Byte>, drained: seq<seq<Byte>>, air: seq<seq<Byte>>)
    requires Flatten(drained) == delivered + live && |drained| <= |air| && drained == air[..|drained|]
    ensures delivered <= Flatten(air)
  {
    FlattenPrefix(air, |drained|);
    PrefixWithin([], delivered, Flatten(drained), Flatten(air));
  }

  /** On those runs the region `dev_read_task` fills and the region `cdev_read` drains have no
      index in common. */
  lemma CopiesNeverOverlap(c: Config, s0: Rx, acts: seq<Action>, s: Rx, i: nat, j: nat)
    requires Init(c, s0) && Leads(c, s0, acts, s) && (c.guard == TestsReadRing || s.sh.roomy)
    requires s.sh.user.Copying? && j < s.sh.user.len && s.th.pc == Copy && i < c.blk
    ensures s.sh.start < |s.sh.buf| && s.sh.end < |s.sh.buf| && s.sh.user.len < |s.sh.buf| && c.blk < |s.sh.buf|
    ensures Wrap(s.sh.end + i, |s.sh.buf|) != Wrap(s.sh.start + j, |s.sh.buf|)
  {
    ReachableRoomy(c, s0, acts, s);
    RegionsApart(s.sh.start, s.sh.end, |s.sh.buf|, i, j);
  }

  /** The thread asks for strictly more room than a block, so the ring never fills up. */
  predicate Slack(c: Config, s: Rx)
    requires Shape(c, s)
  {
    var filled := Filled(s.sh.start, s.sh.end, |s.sh.buf|);
    filled + 2 <= |s.sh.buf| && (s.th.pc == Copy ==> filled + c.blk + 2 <= |s.sh.buf|)
  }

  lemma SlackUser(c: Config, s: Rx, a: Action)
    requires Inv(c, s) && RingOk(c, s) && Slack(c, s) && UserStep(c, s.sh, a).Some?
    ensures Slack(c, s.(sh := UserStep(c, s.sh, a).value))
  {
  }

  lemma SlackThread(c: Config, s: Rx, stop: bool)
    requires Inv(c, s) && RingOk(c, s) && Slack(c, s) && c.guard == TestsReadRing && ThreadNext(c, s, stop).Some?
    ensures Slack(c, ThreadNext(c, s, stop).value)
  {
    if s.th.pc == Copy && s.th.copied == c.blk {
      PublishEnd(s.sh.buf, s.sh.start, s.sh.end, s.sh.slots[s.th.buffStart]);
    }
  }

  lemma SlackStep(c: Config, s: Rx, a: Action)
    requires Inv(c, s) && RingOk(c, s) && Slack(c, s) && c.guard == TestsReadRing && Step(c, s, a).Some?
    ensures Slack(c, Step(c, s, a).value)
  {
    match a {
      case ThreadStep(stop) => SlackThread(c, s, stop);
      case UserBegin(_) | UserCheck | UserCopy | UserPublish | WriteRingMoves(_, _) => SlackUser(c, s, a);
      case DevicePop(_) | DeviceStore(_) | DeviceRetire => DeviceFrame(c, s.sh, a);
    }
  }

  // ---- reads that wait forever ----

  /** Every block received is a whole one. */
  predicate WholeBlocks(c: Config, sh: Shared) {
    forall i :: 0 <= i < |sh.air| ==> |sh.air[i]| == c.blk
  }

  /** The longest read that can ever be satisfied after `delivered` bytes: drains stop one block
      short of filling all but one byte. */
  function LongestRead(cap: nat, blk: nat, delivered: nat): int
    requires blk > 0 && cap >= 2
  {
    cap - 2 - (cap - 2 + delivered) % blk
  }

  /** `f`, with `delivered` a multiple of the block, is at most the largest such below `cap - 1`,
      and equal to it when one more block does not fit. */
  lemma LargestFill(cap: nat, blk: nat, delivered: nat, n: nat, f: nat)
    requires 0 < blk && f + 2 <= cap && delivered + f == n * blk
    ensures f <= LongestRead(cap, blk, delivered)
    ensures f + blk + 2 > cap ==> f == LongestRead(cap, blk, delivered)
  {
    var gap := cap - 2 - f;
    DivMod(gap, blk);
    assert cap - 2 + delivered == (n + gap / blk) * blk + gap % blk;
    QuotientIs(cap - 2 + delivered, blk, n + gap / blk, gap % blk);
    Multiply(gap / blk, blk);
    if gap < blk { QuotientIs(gap, blk, 0, gap); }
  }

  lemma Multiply(q: nat, d: nat)
    ensures q * d >= 0
  {
  }

  /** A state of a run with the space check on the receive ring. */
  predicate Sound(c: Config, s: Rx) {
    Inv(c, s) && s.sh.roomy && Slack(c, s) && WholeBlocks(c, s.sh) && c.guard == TestsReadRing
  }

  lemma SoundStep(c: Config, s: Rx, a: Action)
    requires Sound(c, s) && Step(c, s, a).Some?
    ensures Sound(c, Step(c, s, a).value)
  {
    StepKeeps(c, s, a);
    RoomyStep(c, s, a);
    SlackStep(c, s, a);
    StepAir(c, s, a);
  }

  lemma {:induction false} ExecSound(c: Config, s: Rx, acts: seq<Action>)
    requires Sound(c, s) && Exec(c, s, acts).Some?
    ensures Sound(c, Exec(c, s, acts).value)
    decreases |acts|
  {
    if acts != [] {
      ExecSound(c, s, acts[..|acts| - 1]);
      SoundStep(c, Exec(c, s, acts[..|acts| - 1]).value, acts[|acts| - 1]);
    }
  }

  lemma InitSound(c: Config, s: Rx)
    requires Init(c, s) && c.guard == TestsReadRing
    ensures Sound(c, s)
  {
  }

  /** Every state reached with that check is one. */
  lemma ReachableSound(c: Config, s0: Rx, acts: seq<Action>, s: Rx)
    requires Init(c, s0) && Leads(c, s0, acts, s) && c.guard == TestsReadRing
    ensures Sound(c, s)
  {
    InitSound(c, s0);
    ExecSound(c, s0, acts);
  }

  /** What a read finds is never more, and exactly that when no further drain fits. */
  lemma FillForRead(c: Config, s: Rx)
    requires Sound(c, s)
    ensures var filled := Filled(s.sh.start, s.sh.end, |s.sh.buf|);
            && filled <= LongestRead(|s.sh.buf|, c.blk, |s.sh.delivered|)
            && (filled + c.blk + 2 > |s.sh.buf| ==> filled == LongestRead(|s.sh.buf|, c.blk, |s.sh.delivered|))
  {
    FlattenLength(s.sh.drained, c.blk);
    LargestFill(|s.sh.buf|, c.blk, |s.sh.delivered|, |s.sh.drained|, Filled(s.sh.start, s.sh.end, |s.sh.buf|));
  }

  lemma RefusedStep(c: Config, s: Rx, a: Action)
    requires Shape(c, s) && Step(c, s, a).Some? && s.sh.user.Waiting?
    requires s.sh.user.len > Filled(s.sh.start, s.sh.end, |s.sh.buf|)
    ensures var s' := Step(c, s, a).value;
            s'.sh.user == s.sh.user && s'.sh.delivered == s.sh.delivered && |s'.sh.buf| == |s.sh.buf|
  {
  }

  /** A longer read never leaves the wait loop, whatever else runs. */
  lemma {:induction false} LongReadWaits(c: Config, s0: Rx, acts: seq<Action>, s: Rx)
    requires Sound(c, s0) && Leads(c, s0, acts, s) && s0.sh.user.Waiting?
    requires s0.sh.user.len > LongestRead(|s0.sh.buf|, c.blk, |s0.sh.delivered|)
    ensures Sound(c, s) && s.sh.user == s0.sh.user && s.sh.delivered == s0.sh.delivered && |s.sh.buf| == |s0.sh.buf|
    decreases |acts|
  {
    if acts != [] {
      var mid, a := Exec(c, s0, acts[..|acts| - 1]).value, acts[|acts| - 1];
      LongReadWaits(c, s0, acts[..|acts| - 1], mid);
      FillForRead(c, mid);
      RefusedStep(c, mid, a);
      SoundStep(c, mid, a);
    }
  }

  // ---- what a pass hands out and drains ----

  function Most(a: int, b: int): int { if a > b then a else b }

  /** How many descriptors the device has been given at the end of the present pass. */
  function HandedOut(s: Rx): int {
    match s.th.pc
    case Poll | ReadLevel => |s.sh.drained| + DMA_BUFFS - 1
    case Enqueue => Enqueued(s.sh) + s.th.buffsToWrite
    case Drain | Copy | Tail | Shutdown | Stopped => Enqueued(s.sh)
  }

  /** How many blocks have been drained or given up at its end, from what the device has taken now. */
  function Settled(s: Rx): int {
    var done := |s.sh.drained| + s.th.skips;
    match s.th.pc
    case Poll | ReadLevel => Most(done, |s.sh.air| - DESC_DELAY)
    case Enqueue => Most(done, done + s.th.descComp + s.th.descActive - s.th.descLevel - DESC_DELAY)
    case Drain | Copy => Most(done, done + s.th.descComp - DESC_DELAY)
    case Tail | Shutdown | Stopped => done
  }

  lemma PassHandsOut(c: Config, s: Rx)
    requires DmaInv(c, s) && ThreadNext(c, s, false).Some? && s.th.pc != Tail
    ensures HandedOut(ThreadNext(c, s, false).value) == HandedOut(s)
  {
    SlotGap(|s.sh.drained|, Enqueued(s.sh));
  }

  lemma SettlesAtLevel(c: Config, s: Rx)
    requires DmaInv(c, s) && ThreadNext(c, s, false).Some? && (s.th.pc == Poll || s.th.pc == ReadLevel)
    ensures Settled(ThreadNext(c, s, false).value) == Settled(s)
  {
  }

  lemma SettlesWhileEnqueuing(c: Config, s: Rx)
    requires DmaInv(c, s) && ThreadNext(c, s, false).Some? && s.th.pc == Enqueue
    ensures Settled(ThreadNext(c, s, false).value) == Settled(s)
  {
  }

  lemma SettlesWhileDraining(c: Config, s: Rx)
    requires DmaInv(c, s) && ThreadNext(c, s, false).Some? && (s.th.pc == Drain || s.th.pc == Copy)
    ensures Settled(ThreadNext(c, s, false).value) == Settled(s)
  {
  }

  lemma SettlesAtEnd(c: Config, s: Rx)
    requires DmaInv(c, s) && ThreadNext(c, s, false).Some?
    requires s.th.pc == Tail || s.th.pc == Shutdown || s.th.pc == Stopped
    ensures Settled(ThreadNext(c, s, false).value) >= Settled(s)
    ensures s.th.pc != Tail ==> Settled(ThreadNext(c, s, false).value) == Settled(s)
  {
  }

  lemma PassSettles(c: Config, s: Rx)
    requires DmaInv(c, s) && ThreadNext(c, s, false).Some?
    ensures Settled(ThreadNext(c, s, false).value) >= Settled(s)
    ensures s.th.pc != Tail ==> Settled(ThreadNext(c, s, false).value) == Settled(s)
  {
    match s.th.pc {
      case Poll | ReadLevel => SettlesAtLevel(c, s);
      case Enqueue => SettlesWhileEnqueuing(c, s);
      case Drain | Copy => SettlesWhileDraining(c, s);
      case Tail | Shutdown | Stopped => SettlesAtEnd(c, s);
    }
  }

  /** Within a pass the thread's own steps change neither. */
  lemma PassThread(c: Config, s: Rx)
    requires DmaInv(c, s) && ThreadNext(c, s, false).Some?
    ensures Settled(ThreadNext(c, s, false).value) >= Settled(s)
    ensures s.th.pc != Tail ==>
              && Settled(ThreadNext(c, s, false).value) == Settled(s)
              && HandedOut(ThreadNext(c, s, false).value) == HandedOut(s)
  {
    PassSettles(c, s);
    if s.th.pc != Tail { PassHandsOut(c, s); }
  }

  /** Nobody else changes what is handed out, nor takes back what is settled. */
  lemma PassOthers(c: Config, s: Rx, a: Action)
    requires DmaInv(c, s) && OthersStep(c, s.sh, a).Some?
    ensures var s' := s.(sh := OthersStep(c, s.sh, a).value);
            Settled(s') >= Settled(s) && HandedOut(s') == HandedOut(s)
  {
  }
}
