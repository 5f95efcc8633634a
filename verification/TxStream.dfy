/** Transmit half of the streaming engine as a step system: the user's `cdev_write`, the
    kernel thread `dev_write_task` and the FPGA's descriptor FIFO interleave freely
    (sw/langford_driver/langford.c:279-443, 494-533). One step is one access to shared
    state: a test or an update made under the mutex, one byte of a copy made outside it,
    one register access, or one move of the device. */
module TxStream {
  import opened Options
  import opened Ring
  import opened Division

  const DMA_BUFFS: nat := 32
  const DMA_DESCS: nat := 128
  const DESC_DELAY: nat := 4

  /** `cdev_write`: idle, in its wait loop, or copying outside the mutex. */
  datatype User =
    | Idle
    | Waiting(data: seq<Byte>)
    | Copying(data: seq<Byte>, copied: nat)

  /** A descriptor the device has popped and is still reading, byte by byte. */
  datatype Transfer = Transfer(slot: nat, got: seq<Byte>)

  /** State visible to more than one party, and three histories: the bytes of completed
      writes, the blocks moved to DMA slots, and the bytes the device has finished with. */
  datatype Shared = Shared(
    buf: seq<Byte>, start: nat, end: nat,
    user: User,
    slots: seq<seq<Byte>>,
    fifo: seq<nat>,
    transfers: seq<Transfer>,
    written: seq<Byte>,
    taken: seq<seq<Byte>>,
    retired: nat,
    sent: seq<Byte>)

  /** Where `dev_write_task` stands between two steps. */
  datatype Pc = Poll | ReadLevel | Refill | Copy | Enqueue | Tail | Drain | Stopped

  /** The locals of `dev_write_task`. */
  datatype Thread = Thread(
    pc: Pc, buffStart: nat, buffEnd: nat,
    descLevel: int, descActive: int, descComp: int, buffsToWrite: int,
    copied: nat)

  datatype Tx = Tx(sh: Shared, th: Thread)

  datatype Action =
    | UserBegin(data: seq<Byte>) | UserCheck | UserCopy | UserPublish
    | DevicePop | DeviceRead(j: nat) | DeviceRetire
    | ThreadStep(stop: bool)

  predicate SharedShape(blk: nat, sh: Shared) {
    && 0 < blk < |sh.buf| && sh.start < |sh.buf| && sh.end < |sh.buf|
    && |sh.slots| == DMA_BUFFS && (forall i :: 0 <= i < |sh.slots| ==> |sh.slots[i]| == blk)
    && (forall i :: 0 <= i < |sh.fifo| ==> sh.fifo[i] < DMA_BUFFS)
    && (forall i :: 0 <= i < |sh.transfers| ==> sh.transfers[i].slot < DMA_BUFFS && |sh.transfers[i].got| <= blk)
    && (sh.user.Copying? ==> sh.user.copied <= |sh.user.data| < |sh.buf|)
  }

  predicate Shape(blk: nat, s: Tx) {
    && SharedShape(blk, s.sh)
    && s.th.buffStart < DMA_BUFFS && s.th.buffEnd < DMA_BUFFS && s.th.copied <= blk
  }

  // ---- the user ----

  function UserStep(blk: nat, sh: Shared, a: Action): (r: Option<Shared>)
    requires SharedShape(blk, sh)
    ensures r.Some? ==> SharedShape(blk, r.value)
  {
    var cap := |sh.buf|;
    match (a, sh.user)
    case (UserBegin(data), Idle) =>
      Some(sh.(user := Waiting(data)))
    case (UserCheck, Waiting(data)) =>
      if Avail(sh.start, sh.end, cap) < |data| then Some(sh) else Some(sh.(user := Copying(data, 0)))
    case (UserCopy, Copying(data, k)) =>
      if k == |data| then None else
      Some(sh.(buf := sh.buf[Wrap(sh.end + k, cap) := data[k]], user := Copying(data, k + 1)))
    case (UserPublish, Copying(data, k)) =>
      if k < |data| then None else
      Some(sh.(end := Wrap(sh.end + |data|, cap), written := sh.written + data, user := Idle))
    case _ => None
  }

  // ---- the device ----

  /** The device pops descriptors in order, holds at most `DESC_DELAY` of them, reads their
      slots in any order a byte at a time, and finishes with them in order. */
  function DeviceStep(blk: nat, sh: Shared, a: Action): (r: Option<Shared>)
    requires SharedShape(blk, sh)
    ensures r.Some? ==> SharedShape(blk, r.value)
  {
    match a
    case DevicePop =>
      if sh.fifo == [] || |sh.transfers| == DESC_DELAY then None else
      Some(sh.(fifo := sh.fifo[1..], transfers := sh.transfers + [Transfer(sh.fifo[0], [])]))
    case DeviceRead(j) =>
      if j >= |sh.transfers| || |sh.transfers[j].got| == blk then None else
      var t := sh.transfers[j];
      Some(sh.(transfers := sh.transfers[j := t.(got := t.got + [sh.slots[t.slot][|t.got|]])]))
    case DeviceRetire =>
      if sh.transfers == [] || |sh.transfers[0].got| < blk then None else
      Some(sh.(transfers := sh.transfers[1..], retired := sh.retired + 1, sent := sh.sent + sh.transfers[0].got))
    case _ => None
  }

  // ---- dev_write_task ----

  function RefillStep(blk: nat, s: Tx): (r: Tx)
    requires Shape(blk, s)
    ensures Shape(blk, r)
  {
    var th := s.th;
    if th.descComp > DESC_DELAY then
      if Filled(s.sh.start, s.sh.end, |s.sh.buf|) > blk then
        s.(th := th.(pc := Copy, copied := 0))
      else
        s.(th := th.(descComp := th.descComp - 1))
    else
      var room := DMA_DESCS - th.descLevel;
      var filled := Filled(th.buffStart, th.buffEnd, DMA_BUFFS);
      s.(th := th.(pc := Enqueue, buffsToWrite := if room < filled then room else filled))
  }

  function CopyStep(blk: nat, s: Tx): (r: Tx)
    requires Shape(blk, s)
    ensures Shape(blk, r)
  {
    var th, sh := s.th, s.sh;
    if th.copied < blk then
      var b := sh.buf[Wrap(sh.start + th.copied, |sh.buf|)];
      Tx(sh.(slots := sh.slots[th.buffEnd := sh.slots[th.buffEnd][th.copied := b]]),
         th.(copied := th.copied + 1))
    else
      Tx(sh.(start := Wrap(sh.start + blk, |sh.buf|), taken := sh.taken + [sh.slots[th.buffEnd]]),
         th.(pc := Refill, buffEnd := (th.buffEnd + 1) % DMA_BUFFS, descComp := th.descComp - 1))
  }

  function EnqueueStep(blk: nat, s: Tx): (r: Tx)
    requires Shape(blk, s)
    ensures Shape(blk, r)
  {
    var th := s.th;
    if th.buffsToWrite == 0 then s.(th := th.(pc := Tail)) else
    Tx(s.sh.(fifo := s.sh.fifo + [th.buffStart]),
       th.(buffStart := (th.buffStart + 1) % DMA_BUFFS, descActive := th.descActive + 1,
           descLevel := th.descLevel + 1, buffsToWrite := th.buffsToWrite - 1))
  }

  function ThreadNext(blk: nat, s: Tx, stop: bool): (r: Option<Tx>)
    requires Shape(blk, s)
    ensures r.Some? ==> Shape(blk, r.value)
  {
    var th := s.th;
    match th.pc
    case Poll =>
      if stop then Some(s.(th := th.(pc := Stopped)))
      else if |s.sh.fifo| >= DMA_DESCS then Some(s)
      else Some(s.(th := th.(pc := ReadLevel)))
    case ReadLevel =>
      Some(s.(th := th.(pc := Refill, descLevel := |s.sh.fifo|, descActive := |s.sh.fifo|,
                        descComp := DMA_BUFFS - |s.sh.fifo|)))
    case Refill => Some(RefillStep(blk, s))
    case Copy => Some(CopyStep(blk, s))
    case Enqueue => Some(EnqueueStep(blk, s))
    case Tail => Some(s.(th := th.(pc := if stop then Drain else Poll)))
    case Drain =>
      if th.descLevel == 0 then Some(s.(th := th.(pc := Stopped)))
      else Some(s.(th := th.(descLevel := |s.sh.fifo|)))
    case Stopped => None
  }

  /** A step of anyone but the thread. */
  function OthersStep(blk: nat, sh: Shared, a: Action): (r: Option<Shared>)
    requires SharedShape(blk, sh)
    ensures r.Some? ==> SharedShape(blk, r.value)
    ensures r.Some? ==> r.value.start == sh.start && |r.value.buf| == |sh.buf| && r.value.slots == sh.slots
  {
    match a
    case ThreadStep(_) => None
    case UserBegin(_) | UserCheck | UserCopy | UserPublish => UserStep(blk, sh, a)
    case DevicePop | DeviceRead(_) | DeviceRetire => DeviceStep(blk, sh, a)
  }

  function Step(blk: nat, s: Tx, a: Action): (r: Option<Tx>)
    requires Shape(blk, s)
    ensures r.Some? ==> Shape(blk, r.value)
  {
    if a.ThreadStep? then ThreadNext(blk, s, a.stop) else
    var r := OthersStep(blk, s.sh, a);
    if r.None? then None else Some(s.(sh := r.value))
  }

  predicate OfUser(a: Action) {
    a.UserBegin? || a.UserCheck? || a.UserCopy? || a.UserPublish?
  }

  /** What only the user changes. */
  predicate SameUser(sh: Shared, sh': Shared) {
    sh'.user == sh.user && sh'.written == sh.written && sh'.end == sh.end && |sh'.buf| == |sh.buf|
  }

  lemma StepSameUser(blk: nat, s: Tx, a: Action)
    requires Shape(blk, s) && Step(blk, s, a).Some? && !OfUser(a)
    ensures SameUser(s.sh, Step(blk, s, a).value.sh)
  {
  }

  /** The state a schedule leads to, if every one of its steps can be taken. */
  function Exec(blk: nat, s: Tx, acts: seq<Action>): (r: Option<Tx>)
    requires Shape(blk, s)
    ensures r.Some? ==> Shape(blk, r.value)
    decreases |acts|
  {
    if acts == [] then Some(s) else
    var r := Exec(blk, s, acts[..|acts| - 1]);
    if r.None? then None else Step(blk, r.value, acts[|acts| - 1])
  }

  predicate Leads(blk: nat, s: Tx, acts: seq<Action>, s': Tx)
    requires Shape(blk, s)
  {
    Exec(blk, s, acts) == Some(s')
  }

  lemma Extend(blk: nat, s: Tx, acts: seq<Action>, s1: Tx, a: Action, s2: Tx)
    requires Shape(blk, s) && Shape(blk, s1) && Leads(blk, s, acts, s1) && Step(blk, s1, a) == Some(s2)
    ensures Leads(blk, s, acts + [a], s2)
  {
    var all := acts + [a];
    assert all[..|all| - 1] == acts;
  }

  /** What the other parties make of a burst of actions; those that cannot be taken are skipped. */
  function OthersRun(blk: nat, sh: Shared, acts: seq<Action>): (r: Shared)
    requires SharedShape(blk, sh)
    ensures SharedShape(blk, r)
    decreases |acts|
  {
    if acts == [] then sh else AfterOther(blk, OthersRun(blk, sh, acts[..|acts| - 1]), acts[|acts| - 1])
  }

  function AfterOther(blk: nat, sh: Shared, a: Action): (r: Shared)
    requires SharedShape(blk, sh)
    ensures SharedShape(blk, r)
  {
    var r := OthersStep(blk, sh, a);
    if r.None? then sh else r.value
  }

  lemma OthersRunNext(blk: nat, sh: Shared, acts: seq<Action>, i: nat)
    requires SharedShape(blk, sh) && i < |acts|
    ensures OthersRun(blk, sh, acts[..i + 1]) == AfterOther(blk, OthersRun(blk, sh, acts[..i]), acts[i])
  {
    assert acts[..i + 1][..i] == acts[..i];
  }

  /** The same for everyone but the user, the thread included. */
  function WithoutUserRun(blk: nat, s: Tx, acts: seq<Action>): (r: Tx)
    requires Shape(blk, s)
    ensures Shape(blk, r)
    decreases |acts|
  {
    if acts == [] then s else AfterParty(blk, WithoutUserRun(blk, s, acts[..|acts| - 1]), acts[|acts| - 1])
  }

  function AfterParty(blk: nat, s: Tx, a: Action): (r: Tx)
    requires Shape(blk, s)
    ensures Shape(blk, r)
  {
    if OfUser(a) || Step(blk, s, a).None? then s else Step(blk, s, a).value
  }

  lemma WithoutUserRunNext(blk: nat, s: Tx, acts: seq<Action>, i: nat)
    requires Shape(blk, s) && i < |acts|
    ensures WithoutUserRun(blk, s, acts[..i + 1]) == AfterParty(blk, WithoutUserRun(blk, s, acts[..i]), acts[i])
  {
    assert acts[..i + 1][..i] == acts[..i];
  }

  /** How many steps of a schedule are the thread's own. */
  function ThreadSteps(acts: seq<Action>): nat
    decreases |acts|
  {
    if acts == [] then 0 else
    ThreadSteps(acts[..|acts| - 1]) + (if acts[|acts| - 1].ThreadStep? then 1 else 0)
  }

  /** How many are tests made by the user's wait loop. */
  function Checks(acts: seq<Action>): nat
    decreases |acts|
  {
    if acts == [] then 0 else
    Checks(acts[..|acts| - 1]) + (if acts[|acts| - 1].UserCheck? then 1 else 0)
  }

  lemma CountSnoc(acts: seq<Action>, a: Action)
    ensures ThreadSteps(acts + [a]) == ThreadSteps(acts) + (if a.ThreadStep? then 1 else 0)
    ensures Checks(acts + [a]) == Checks(acts) + (if a.UserCheck? then 1 else 0)
  {
    assert (acts + [a])[..|acts|] == acts;
  }

  /** The state `cdev_open` leaves: empty ring and FIFO; ring and slot memory hold anything. */
  predicate Init(blk: nat, s: Tx) {
    && SharedShape(blk, s.sh)
    && s.sh.start == s.sh.end == 0 && s.sh.user == Idle && s.sh.fifo == [] && s.sh.transfers == []
    && s.sh.written == [] && s.sh.taken == [] && s.sh.retired == 0 && s.sh.sent == []
    && s.th == Thread(Poll, 0, 0, 0, 0, 0, 0, 0)
  }

  // ---- the invariant ----

  function Popped(sh: Shared): nat { sh.retired + |sh.transfers| }
  function Enqueued(sh: Shared): nat { Popped(sh) + |sh.fifo| }

  /** Nothing is lost between the user and the DMA slots. */
  predicate StreamOk(blk: nat, sh: Shared)
    requires SharedShape(blk, sh)
  {
    sh.written == Flatten(sh.taken) + Live(sh.buf, sh.start, sh.end)
  }

  predicate UserOk(blk: nat, sh: Shared)
    requires SharedShape(blk, sh)
  {
    sh.user.Copying? ==>
      && |sh.user.data| <= Avail(sh.start, sh.end, |sh.buf|)
      && Placed(sh.buf, sh.end, sh.user.data, sh.user.copied)
  }

  /** The device works on consecutive blocks, in the slots numbered by them. */
  predicate QueueOk(sh: Shared) {
    && |sh.transfers| <= DESC_DELAY
    && Enqueued(sh) <= |sh.taken|
    && (forall i :: 0 <= i < |sh.fifo| ==> sh.fifo[i] == (Popped(sh) + i) % DMA_BUFFS)
    && (forall i :: 0 <= i < |sh.transfers| ==> sh.transfers[i].slot == (sh.retired + i) % DMA_BUFFS)
  }

  /** Every byte the device has picked up belongs to the block it should be reading. */
  predicate ReadsOk(blk: nat, sh: Shared) {
    && Enqueued(sh) <= |sh.taken|
    && (forall i :: 0 <= i < |sh.taken| ==> |sh.taken[i]| == blk)
    && (forall i :: 0 <= i < |sh.transfers| ==> sh.transfers[i].got <= sh.taken[sh.retired + i])
    && sh.sent == Flatten(sh.taken[..sh.retired])
  }

  /** Every block not yet finished with is intact in its slot. */
  predicate SlotsOk(blk: nat, sh: Shared)
    requires SharedShape(blk, sh)
  {
    forall i :: sh.retired <= i < |sh.taken| ==> sh.slots[i % DMA_BUFFS] == sh.taken[i]
  }

  predicate ThreadOk(blk: nat, s: Tx)
    requires Shape(blk, s)
  {
    var th, sh := s.th, s.sh;
    var ready := |sh.taken| - Enqueued(sh);
    && 0 <= ready
    && th.buffStart == Enqueued(sh) % DMA_BUFFS && th.buffEnd == |sh.taken| % DMA_BUFFS
    && match th.pc
       case Poll | ReadLevel | Tail | Drain | Stopped =>
         ready == 0 && |sh.fifo| <= DMA_BUFFS - DESC_DELAY
       case Refill =>
         && |sh.fifo| <= th.descLevel <= DMA_BUFFS - DESC_DELAY
         && DESC_DELAY <= th.descComp && ready + th.descComp <= DMA_BUFFS - th.descLevel
       case Copy =>
         && |sh.fifo| <= th.descLevel <= DMA_BUFFS - DESC_DELAY
         && DESC_DELAY < th.descComp && ready + th.descComp <= DMA_BUFFS - th.descLevel
         && Filled(sh.start, sh.end, |sh.buf|) > blk
         && sh.slots[th.buffEnd][..th.copied] == Live(sh.buf, sh.start, sh.end)[..th.copied]
       case Enqueue =>
         && |sh.fifo| <= th.descLevel && th.buffsToWrite == ready
         && th.descLevel + ready <= DMA_BUFFS - DESC_DELAY
  }

  predicate Inv(blk: nat, s: Tx) {
    && Shape(blk, s)
    && StreamOk(blk, s.sh) && UserOk(blk, s.sh) && QueueOk(s.sh) && ReadsOk(blk, s.sh)
    && SlotsOk(blk, s.sh) && ThreadOk(blk, s)
  }

  lemma InitInv(blk: nat, s: Tx)
    requires Init(blk, s)
    ensures Inv(blk, s)
  {
  }

  /** The user's steps move neither the device's data nor the blocks already taken. */
  lemma UserFrame(blk: nat, sh: Shared, a: Action)
    requires SharedShape(blk, sh) && UserStep(blk, sh, a).Some?
    ensures var sh' := UserStep(blk, sh, a).value;
            sh' == sh.(buf := sh'.buf, end := sh'.end, user := sh'.user, written := sh'.written)
  {
  }

  /** The stream and the copy in progress are intact, and no unread byte moved. */
  predicate StreamKept(blk: nat, sh: Shared, sh': Shared)
    requires SharedShape(blk, sh) && SharedShape(blk, sh')
  {
    && StreamOk(blk, sh') && UserOk(blk, sh') && |sh'.buf| == |sh.buf|
    && Live(sh.buf, sh.start, sh.end) <= Live(sh'.buf, sh'.start, sh'.end)
  }

  lemma UserCopyKeeps(blk: nat, sh: Shared)
    requires SharedShape(blk, sh) && StreamOk(blk, sh) && UserOk(blk, sh) && UserStep(blk, sh, UserCopy).Some?
    ensures StreamKept(blk, sh, UserStep(blk, sh, UserCopy).value)
  {
    PlaceNext(sh.buf, sh.start, sh.end, sh.user.data, sh.user.copied);
  }

  lemma UserPublishKeeps(blk: nat, sh: Shared)
    requires SharedShape(blk, sh) && StreamOk(blk, sh) && UserOk(blk, sh) && UserStep(blk, sh, UserPublish).Some?
    ensures StreamKept(blk, sh, UserStep(blk, sh, UserPublish).value)
  {
    var data := sh.user.data;
    PublishEnd(sh.buf, sh.start, sh.end, data);
    assert Flatten(sh.taken) + (Live(sh.buf, sh.start, sh.end) + data)
        == Flatten(sh.taken) + Live(sh.buf, sh.start, sh.end) + data;
  }

  lemma UserKeepsStream(blk: nat, sh: Shared, a: Action)
    requires SharedShape(blk, sh) && StreamOk(blk, sh) && UserOk(blk, sh) && UserStep(blk, sh, a).Some?
    ensures StreamKept(blk, sh, UserStep(blk, sh, a).value)
  {
    if a == UserCopy {
      UserCopyKeeps(blk, sh);
    } else if a == UserPublish {
      UserPublishKeeps(blk, sh);
    }
  }

  lemma UserKeepsThread(blk: nat, s: Tx, sh': Shared)
    requires Shape(blk, s) && ThreadOk(blk, s) && SharedShape(blk, sh') && StreamKept(blk, s.sh, sh')
    requires sh' == s.sh.(buf := sh'.buf, end := sh'.end, user := sh'.user, written := sh'.written)
    ensures ThreadOk(blk, s.(sh := sh'))
  {
    if s.th.pc == Copy {
      assert Live(s.sh.buf, s.sh.start, s.sh.end)[..s.th.copied] == Live(sh'.buf, sh'.start, sh'.end)[..s.th.copied];
    }
  }

  /** A change of what the user owns keeps the invariant if it keeps the stream. */
  lemma UserKeepsRest(blk: nat, s: Tx, sh': Shared)
    requires Inv(blk, s) && SharedShape(blk, sh') && StreamKept(blk, s.sh, sh')
    requires sh' == s.sh.(buf := sh'.buf, end := sh'.end, user := sh'.user, written := sh'.written)
    ensures Inv(blk, s.(sh := sh'))
  {
    UserKeepsThread(blk, s, sh');
  }

  lemma UserKeeps(blk: nat, s: Tx, a: Action)
    requires Inv(blk, s) && UserStep(blk, s.sh, a).Some?
    ensures Inv(blk, s.(sh := UserStep(blk, s.sh, a).value))
  {
    UserFrame(blk, s.sh, a);
    UserKeepsStream(blk, s.sh, a);
    UserKeepsRest(blk, s, UserStep(blk, s.sh, a).value);
  }

  /** The device changes neither the ring, the user, the slots nor the blocks already taken. */
  lemma DeviceFrame(blk: nat, sh: Shared, a: Action)
    requires SharedShape(blk, sh) && DeviceStep(blk, sh, a).Some?
    ensures var sh' := DeviceStep(blk, sh, a).value;
            && sh' == sh.(fifo := sh'.fifo, transfers := sh'.transfers, retired := sh'.retired, sent := sh'.sent)
            && Enqueued(sh') == Enqueued(sh) && |sh'.fifo| <= |sh.fifo| && sh.retired <= sh'.retired
  {
  }

  lemma DeviceKeepsQueue(blk: nat, sh: Shared, a: Action)
    requires SharedShape(blk, sh) && QueueOk(sh) && DeviceStep(blk, sh, a).Some?
    ensures QueueOk(DeviceStep(blk, sh, a).value)
  {
  }

  lemma ReadByteKeepsReads(blk: nat, sh: Shared, j: nat)
    requires SharedShape(blk, sh) && QueueOk(sh) && ReadsOk(blk, sh) && SlotsOk(blk, sh)
    requires DeviceStep(blk, sh, DeviceRead(j)).Some?
    ensures ReadsOk(blk, DeviceStep(blk, sh, DeviceRead(j)).value)
  {
    var t := sh.transfers[j];
    assert sh.slots[t.slot] == sh.taken[sh.retired + j];
  }

  lemma RetireKeepsReads(blk: nat, sh: Shared)
    requires SharedShape(blk, sh) && ReadsOk(blk, sh) && DeviceStep(blk, sh, DeviceRetire).Some?
    ensures ReadsOk(blk, DeviceStep(blk, sh, DeviceRetire).value)
  {
    var got := sh.transfers[0].got;
    assert got == sh.taken[sh.retired + 0];
    FlattenSnoc(sh.taken[..sh.retired], got);
    assert sh.taken[..sh.retired + 1] == sh.taken[..sh.retired] + [got];
  }

  lemma DeviceKeeps(blk: nat, s: Tx, a: Action)
    requires Inv(blk, s) && DeviceStep(blk, s.sh, a).Some?
    ensures Inv(blk, s.(sh := DeviceStep(blk, s.sh, a).value))
  {
    DeviceFrame(blk, s.sh, a);
    DeviceKeepsQueue(blk, s.sh, a);
    match a {
      case DeviceRead(j) => ReadByteKeepsReads(blk, s.sh, j);
      case DeviceRetire => RetireKeepsReads(blk, s.sh);
      case _ =>
    }
  }

  lemma SlotsApart(i: nat, n: nat)
    requires i < n < i + DMA_BUFFS
    ensures i % DMA_BUFFS != n % DMA_BUFFS
  {
  }

  lemma FewBlocksOut(blk: nat, s: Tx)
    requires Shape(blk, s) && QueueOk(s.sh) && ThreadOk(blk, s) && s.th.pc == Copy
    ensures |s.sh.taken| < s.sh.retired + DMA_BUFFS && s.th.buffEnd == |s.sh.taken| % DMA_BUFFS
  {
  }

  /** The slot being refilled is numbered by the next block, and no block the device still
      needs has the same slot. */
  lemma RefillSlotFree(blk: nat, s: Tx, i: nat)
    requires Inv(blk, s) && s.th.pc == Copy && s.sh.retired <= i < |s.sh.taken|
    ensures i % DMA_BUFFS != s.th.buffEnd
  {
    FewBlocksOut(blk, s);
    SlotsApart(i, |s.sh.taken|);
  }

  lemma CopyByteKeeps(blk: nat, s: Tx)
    requires Inv(blk, s) && s.th.pc == Copy && s.th.copied < blk
    ensures Inv(blk, CopyStep(blk, s))
  {
    var s' := CopyStep(blk, s);
    var live := Live(s.sh.buf, s.sh.start, s.sh.end);
    forall i | s'.sh.retired <= i < |s'.sh.taken| ensures s'.sh.slots[i % DMA_BUFFS] == s'.sh.taken[i] {
      RefillSlotFree(blk, s, i);
    }
    var k := s.th.copied;
    assert s'.sh.slots[s.th.buffEnd][..k + 1] == s.sh.slots[s.th.buffEnd][..k] + [live[k]];
    assert live[..k + 1] == live[..k] + [live[k]];
  }

  /** A block published out of the ring joins the blocks taken, byte for byte. */
  lemma BlockCopied(blk: nat, s: Tx)
    requires Inv(blk, s) && s.th.pc == Copy && s.th.copied == blk
    ensures blk < |Live(s.sh.buf, s.sh.start, s.sh.end)|
    ensures s.sh.slots[s.th.buffEnd] == Live(s.sh.buf, s.sh.start, s.sh.end)[..blk]
  {
    assert s.sh.slots[s.th.buffEnd] == s.sh.slots[s.th.buffEnd][..blk];
  }

  /** Moving the oldest block from the ring to the blocks taken keeps the stream. */
  lemma BlockMoves(blk: nat, sh: Shared, block: seq<Byte>, sh': Shared)
    requires SharedShape(blk, sh) && StreamOk(blk, sh) && SharedShape(blk, sh')
    requires blk < |Live(sh.buf, sh.start, sh.end)| && block == Live(sh.buf, sh.start, sh.end)[..blk]
    requires sh'.buf == sh.buf && sh'.end == sh.end && sh'.written == sh.written
    requires sh'.start == Wrap(sh.start + blk, |sh.buf|) && sh'.taken == sh.taken + [block]
    ensures StreamOk(blk, sh')
  {
    var live := Live(sh.buf, sh.start, sh.end);
    PublishStart(sh.buf, sh.start, sh.end, blk);
    FlattenSnoc(sh.taken, block);
    assert live == block + live[blk..];
    assert Flatten(sh.taken) + (block + live[blk..]) == Flatten(sh.taken) + block + live[blk..];
  }

  lemma PublishKeepsUser(blk: nat, s: Tx)
    requires Inv(blk, s) && s.th.pc == Copy && s.th.copied == blk
    ensures UserOk(blk, CopyStep(blk, s).sh)
  {
  }

  lemma PublishKeepsStream(blk: nat, s: Tx)
    requires Inv(blk, s) && s.th.pc == Copy && s.th.copied == blk
    ensures var sh' := CopyStep(blk, s).sh; StreamOk(blk, sh') && UserOk(blk, sh')
  {
    BlockCopied(blk, s);
    BlockMoves(blk, s.sh, s.sh.slots[s.th.buffEnd], CopyStep(blk, s).sh);
    PublishKeepsUser(blk, s);
  }

  lemma PublishKeepsSlots(blk: nat, s: Tx)
    requires Inv(blk, s) && s.th.pc == Copy && s.th.copied == blk
    ensures var sh' := CopyStep(blk, s).sh; SlotsOk(blk, sh') && ReadsOk(blk, sh') && QueueOk(sh')
  {
    var sh, sh' := s.sh, CopyStep(blk, s).sh;
    assert sh'.taken[..sh.retired] == sh.taken[..sh.retired];
  }

  lemma PublishKeepsThread(blk: nat, s: Tx)
    requires Inv(blk, s) && s.th.pc == Copy && s.th.copied == blk
    ensures ThreadOk(blk, CopyStep(blk, s))
  {
    NextSlot(|s.sh.taken|);
  }

  lemma CopyPublishKeeps(blk: nat, s: Tx)
    requires Inv(blk, s) && s.th.pc == Copy && s.th.copied == blk
    ensures Inv(blk, CopyStep(blk, s))
  {
    PublishKeepsStream(blk, s);
    PublishKeepsSlots(blk, s);
    PublishKeepsThread(blk, s);
  }

  lemma NextSlot(n: nat)
    ensures (n % DMA_BUFFS + 1) % DMA_BUFFS == (n + 1) % DMA_BUFFS
  {
  }

  /** The slot indices measure how many blocks lie between them. */
  lemma SlotGap(m: nat, n: nat)
    requires m <= n < m + DMA_BUFFS
    ensures Filled(m % DMA_BUFFS, n % DMA_BUFFS, DMA_BUFFS) == n - m
  {
  }

  lemma RefillKeepsThread(blk: nat, s: Tx)
    requires Shape(blk, s) && ThreadOk(blk, s) && s.th.pc == Refill
    ensures ThreadOk(blk, RefillStep(blk, s))
  {
    SlotGap(Enqueued(s.sh), |s.sh.taken|);
  }

  lemma RefillKeeps(blk: nat, s: Tx)
    requires Inv(blk, s) && s.th.pc == Refill
    ensures Inv(blk, RefillStep(blk, s))
  {
    RefillKeepsThread(blk, s);
  }

  lemma EnqueueKeepsThread(blk: nat, s: Tx)
    requires Shape(blk, s) && ThreadOk(blk, s) && s.th.pc == Enqueue
    ensures ThreadOk(blk, EnqueueStep(blk, s))
  {
    NextSlot(Enqueued(s.sh));
  }

  lemma EnqueueKeepsQueue(blk: nat, s: Tx)
    requires Shape(blk, s) && ThreadOk(blk, s) && QueueOk(s.sh) && s.th.pc == Enqueue
    ensures QueueOk(EnqueueStep(blk, s).sh)
  {
  }

  lemma EnqueueKeeps(blk: nat, s: Tx)
    requires Inv(blk, s) && s.th.pc == Enqueue
    ensures Inv(blk, EnqueueStep(blk, s))
  {
    EnqueueKeepsThread(blk, s);
    EnqueueKeepsQueue(blk, s);
  }

  lemma ThreadKeeps(blk: nat, s: Tx, stop: bool)
    requires Inv(blk, s) && ThreadNext(blk, s, stop).Some?
    ensures Inv(blk, ThreadNext(blk, s, stop).value)
  {
    match s.th.pc {
      case Refill => RefillKeeps(blk, s);
      case Copy => if s.th.copied < blk { CopyByteKeeps(blk, s); } else { CopyPublishKeeps(blk, s); }
      case Enqueue => EnqueueKeeps(blk, s);
      case _ =>
    }
  }

  lemma StepKeeps(blk: nat, s: Tx, a: Action)
    requires Inv(blk, s) && Step(blk, s, a).Some?
    ensures Inv(blk, Step(blk, s, a).value)
  {
    match a {
      case ThreadStep(stop) => ThreadKeeps(blk, s, stop);
      case UserBegin(_) | UserCheck | UserCopy | UserPublish => UserKeeps(blk, s, a);
      case DevicePop | DeviceRead(_) | DeviceRetire => DeviceKeeps(blk, s, a);
    }
  }

  lemma {:induction false} ExecKeeps(blk: nat, s: Tx, acts: seq<Action>)
    requires Inv(blk, s) && Exec(blk, s, acts).Some?
    ensures Inv(blk, Exec(blk, s, acts).value)
    decreases |acts|
  {
    if acts != [] {
      ExecKeeps(blk, s, acts[..|acts| - 1]);
      StepKeeps(blk, Exec(blk, s, acts[..|acts| - 1]).value, acts[|acts| - 1]);
    }
  }

  // ---- what every schedule guarantees ----

  /** Everything the user has asked to write, in order. */
  function Asked(acts: seq<Action>): seq<Byte>
    decreases |acts|
  {
    if acts == [] then [] else
    Asked(acts[..|acts| - 1]) + (if acts[|acts| - 1].UserBegin? then acts[|acts| - 1].data else [])
  }

  function Pending(u: User): seq<Byte> {
    if u.Idle? then [] else u.data
  }

  lemma StepAsked(blk: nat, s: Tx, a: Action)
    requires Shape(blk, s) && Step(blk, s, a).Some?
    ensures var sh' := Step(blk, s, a).value.sh;
            sh'.written + Pending(sh'.user) == s.sh.written + Pending(s.sh.user) + (if a.UserBegin? then a.data else [])
  {
  }

  lemma {:induction false} AskedIsWritten(blk: nat, s0: Tx, acts: seq<Action>, s: Tx)
    requires Init(blk, s0) && Leads(blk, s0, acts, s)
    ensures Asked(acts) == s.sh.written + Pending(s.sh.user)
    decreases |acts|
  {
    if acts != [] {
      var mid := Exec(blk, s0, acts[..|acts| - 1]).value;
      AskedIsWritten(blk, s0, acts[..|acts| - 1], mid);
      StepAsked(blk, mid, acts[|acts| - 1]);
    }
  }

  lemma Reachable(blk: nat, s0: Tx, acts: seq<Action>, s: Tx)
    requires Init(blk, s0) && Leads(blk, s0, acts, s)
    ensures Inv(blk, s)
  {
    InitInv(blk, s0);
    ExecKeeps(blk, s0, acts);
  }

  /** Safety of the transmit path over every schedule: the device has received a prefix of the
      bytes the user asked to write, and every other byte of a completed write is still waiting,
      in order, in a DMA slot or in the ring. */
  lemma NothingLostOrReordered(blk: nat, s0: Tx, acts: seq<Action>, s: Tx)
    requires Init(blk, s0) && Leads(blk, s0, acts, s)
    ensures Shape(blk, s) && s.sh.retired <= |s.sh.taken|
    ensures s.sh.sent <= s.sh.written <= Asked(acts)
    ensures s.sh.written == s.sh.sent + Flatten(s.sh.taken[s.sh.retired..]) + Live(s.sh.buf, s.sh.start, s.sh.end)
  {
    Reachable(blk, s0, acts, s);
    AskedIsWritten(blk, s0, acts, s);
    Conserved(blk, s.sh);
  }

  lemma Conserved(blk: nat, sh: Shared)
    requires SharedShape(blk, sh) && StreamOk(blk, sh) && ReadsOk(blk, sh)
    ensures sh.sent <= sh.written
    ensures sh.written == sh.sent + Flatten(sh.taken[sh.retired..]) + Live(sh.buf, sh.start, sh.end)
  {
    FlattenSplit(sh.taken, sh.retired);
  }

  lemma PartialRead(blk: nat, sh: Shared, i: nat)
    requires SharedShape(blk, sh) && StreamOk(blk, sh) && ReadsOk(blk, sh) && i < |sh.transfers|
    ensures Flatten(sh.taken[..sh.retired + i]) + sh.transfers[i].got <= sh.written
  {
    var got := sh.transfers[i].got;
    FlattenPart(sh.taken, sh.retired + i, got);
    PrefixWithin([], Flatten(sh.taken[..sh.retired + i]) + got, Flatten(sh.taken), sh.written);
  }

  /** Bytes of a block still being read are, too, the next bytes of the written stream. */
  lemma PartialReadsInOrder(blk: nat, s0: Tx, acts: seq<Action>, s: Tx, i: nat)
    requires Init(blk, s0) && Leads(blk, s0, acts, s) && i < |s.sh.transfers|
    ensures s.sh.retired + i < |s.sh.taken| && s.sh.sent == Flatten(s.sh.taken[..s.sh.retired])
    ensures Flatten(s.sh.taken[..s.sh.retired + i]) + s.sh.transfers[i].got <= s.sh.written
  {
    Reachable(blk, s0, acts, s);
    PartialRead(blk, s.sh, i);
  }

  /** Every slot the device has queued or is reading holds the block it was queued with. */
  predicate OwnedIntact(sh: Shared)
    requires Enqueued(sh) <= |sh.taken| && |sh.slots| == DMA_BUFFS
  {
    && (forall i :: 0 <= i < |sh.fifo| ==> sh.fifo[i] < DMA_BUFFS && sh.slots[sh.fifo[i]] == sh.taken[Popped(sh) + i])
    && (forall i :: 0 <= i < |sh.transfers| ==>
          sh.transfers[i].slot < DMA_BUFFS && sh.slots[sh.transfers[i].slot] == sh.taken[sh.retired + i])
  }

  predicate Owns(sh: Shared, slot: nat) {
    slot in sh.fifo || exists i :: 0 <= i < |sh.transfers| && sh.transfers[i].slot == slot
  }

  lemma OwnedSlotsIntact(blk: nat, s: Tx)
    requires Inv(blk, s)
    ensures OwnedIntact(s.sh)
  {
  }

  lemma RefillSlotNotOwned(blk: nat, s: Tx)
    requires Inv(blk, s) && s.th.pc == Copy
    ensures !Owns(s.sh, s.th.buffEnd)
  {
    var sh := s.sh;
    forall i | 0 <= i < |sh.fifo| ensures sh.fifo[i] != s.th.buffEnd {
      RefillSlotFree(blk, s, Popped(sh) + i);
    }
    forall i | 0 <= i < |sh.transfers| ensures sh.transfers[i].slot != s.th.buffEnd {
      RefillSlotFree(blk, s, sh.retired + i);
    }
  }

  /** While a slot is refilled the device neither reads it nor has it queued, and every slot
      it does own still holds the block that was queued. */
  lemma RefillNeverOverlapsDevice(blk: nat, s0: Tx, acts: seq<Action>, s: Tx)
    requires Init(blk, s0) && Leads(blk, s0, acts, s)
    ensures s.th.pc == Copy ==> !Owns(s.sh, s.th.buffEnd)
    ensures |s.sh.slots| == DMA_BUFFS && Enqueued(s.sh) <= |s.sh.taken| && OwnedIntact(s.sh)
  {
    Reachable(blk, s0, acts, s);
    OwnedSlotsIntact(blk, s);
    if s.th.pc == Copy { RefillSlotNotOwned(blk, s); }
  }

  /** The claim that lets the copies run outside the mutex: the region `cdev_write` fills and
      the region `dev_write_task` drains have no index in common. */
  lemma CopiesNeverOverlap(blk: nat, s0: Tx, acts: seq<Action>, s: Tx, i: nat, j: nat)
    requires Init(blk, s0) && Leads(blk, s0, acts, s)
    requires s.sh.user.Copying? && i < |s.sh.user.data| && s.th.pc == Copy && j < blk
    ensures s.sh.start < |s.sh.buf| && s.sh.end < |s.sh.buf| && |s.sh.user.data| < |s.sh.buf| && blk < |s.sh.buf|
    ensures Wrap(s.sh.end + i, |s.sh.buf|) != Wrap(s.sh.start + j, |s.sh.buf|)
  {
    Reachable(blk, s0, acts, s);
    RegionsApart(s.sh.start, s.sh.end, |s.sh.buf|, i, j);
  }

  /** Between passes the two slot indices meet, and the descriptor FIFO never holds more than
      `DMA_BUFFS - DESC_DELAY` entries, so the wait for room in it never waits. */
  lemma FifoNeverFull(blk: nat, s0: Tx, acts: seq<Action>, s: Tx)
    requires Init(blk, s0) && Leads(blk, s0, acts, s)
    ensures |s.sh.fifo| <= DMA_BUFFS - DESC_DELAY
    ensures s.th.pc == Poll ==> s.th.buffStart == s.th.buffEnd
    ensures Shape(blk, s) && (s.th.pc == Poll ==> ThreadNext(blk, s, false).value.th.pc == ReadLevel)
  {
    Reachable(blk, s0, acts, s);
  }

  /** Once a block has been taken from it the ring is never empty again: the thread asks for
      strictly more than a block. */
  predicate HoldsBack(s: Tx) {
    && (s.sh.taken != [] ==> s.sh.start != s.sh.end)
    && (s.sh.retired > 0 ==> s.sh.taken != [])
  }

  lemma HoldsBackUser(blk: nat, s: Tx, a: Action)
    requires Inv(blk, s) && HoldsBack(s) && UserStep(blk, s.sh, a).Some?
    ensures HoldsBack(s.(sh := UserStep(blk, s.sh, a).value))
  {
    UserKeepsStream(blk, s.sh, a);
  }

  lemma HoldsBackPublish(blk: nat, s: Tx)
    requires Inv(blk, s) && s.th.pc == Copy && s.th.copied == blk
    ensures HoldsBack(CopyStep(blk, s))
  {
    BlockCopied(blk, s);
    PublishStart(s.sh.buf, s.sh.start, s.sh.end, blk);
  }

  lemma HoldsBackStep(blk: nat, s: Tx, a: Action)
    requires Inv(blk, s) && HoldsBack(s) && Step(blk, s, a).Some?
    ensures HoldsBack(Step(blk, s, a).value)
  {
    match a {
      case UserBegin(_) | UserCheck | UserCopy | UserPublish => HoldsBackUser(blk, s, a);
      case DevicePop | DeviceRead(_) | DeviceRetire => DeviceFrame(blk, s.sh, a);
      case ThreadStep(_) => if s.th.pc == Copy && s.th.copied == blk { HoldsBackPublish(blk, s); }
    }
  }

  lemma {:induction false} AlwaysHoldsBack(blk: nat, s0: Tx, acts: seq<Action>, s: Tx)
    requires Init(blk, s0) && Leads(blk, s0, acts, s)
    ensures HoldsBack(s)
    decreases |acts|
  {
    if acts != [] {
      var mid := Exec(blk, s0, acts[..|acts| - 1]).value;
      AlwaysHoldsBack(blk, s0, acts[..|acts| - 1], mid);
      Reachable(blk, s0, acts[..|acts| - 1], mid);
      HoldsBackStep(blk, mid, acts[|acts| - 1]);
    }
  }

  /** The device never has all that was written: after every schedule at least one written byte
      is still on its way, so without further writes the last block is never sent. */
  lemma NeverAllSent(blk: nat, s0: Tx, acts: seq<Action>, s: Tx)
    requires Init(blk, s0) && Leads(blk, s0, acts, s)
    ensures s.sh.written != [] ==> s.sh.sent < s.sh.written
  {
    NothingLostOrReordered(blk, s0, acts, s);
    AlwaysHoldsBack(blk, s0, acts, s);
    Reachable(blk, s0, acts, s);
    if s.sh.taken == [] { assert s.sh.taken[..s.sh.retired] == []; }
  }

  // ---- writes that wait forever ----

  /** The longest write that can ever find room after `written` bytes: the thread leaves in the
      ring what does not make up more than a block. */
  function LongestWrite(cap: nat, blk: nat, written: nat): int
    requires blk > 0
  {
    if written == 0 then cap - 1 else cap - 1 - ((written - 1) % blk + 1)
  }

  /** What stays of `w` bytes after `n` whole blocks left at least one. */
  lemma HeldBack(w: nat, n: nat, blk: nat, f: nat)
    requires blk > 0 && f > 0 && w == n * blk + f
    ensures (w - 1) % blk + 1 <= f && (f <= blk ==> f == (w - 1) % blk + 1)
  {
    DivMod(f - 1, blk);
    var q, r := (f - 1) / blk, (f - 1) % blk;
    assert w - 1 == (n + q) * blk + r;
    QuotientIs(w - 1, blk, n + q, r);
    if f <= blk { QuotientIs(f - 1, blk, 0, f - 1); }
  }

  lemma RingHolds(blk: nat, s: Tx)
    requires Inv(blk, s) && HoldsBack(s)
    ensures var filled := Filled(s.sh.start, s.sh.end, |s.sh.buf|);
            && |s.sh.written| == |s.sh.taken| * blk + filled
            && (s.sh.written != [] ==> filled > 0)
  {
    FlattenLength(s.sh.taken, blk);
    if s.sh.taken == [] { assert |s.sh.written| == Filled(s.sh.start, s.sh.end, |s.sh.buf|); }
  }

  /** The room a write finds is never more, and exactly that once the ring is down to a block. */
  lemma RoomForWrite(blk: nat, s: Tx)
    requires Inv(blk, s) && HoldsBack(s)
    ensures var filled := Filled(s.sh.start, s.sh.end, |s.sh.buf|);
            && Avail(s.sh.start, s.sh.end, |s.sh.buf|) <= LongestWrite(|s.sh.buf|, blk, |s.sh.written|)
            && (filled <= blk ==>
                  Avail(s.sh.start, s.sh.end, |s.sh.buf|) == LongestWrite(|s.sh.buf|, blk, |s.sh.written|))
  {
    RingHolds(blk, s);
    var filled := Filled(s.sh.start, s.sh.end, |s.sh.buf|);
    if filled > 0 { HeldBack(|s.sh.written|, |s.sh.taken|, blk, filled); }
  }

  lemma RefusedStep(blk: nat, s: Tx, a: Action)
    requires Shape(blk, s) && Step(blk, s, a).Some? && s.sh.user.Waiting?
    requires |s.sh.user.data| > Avail(s.sh.start, s.sh.end, |s.sh.buf|)
    ensures var s' := Step(blk, s, a).value;
            s'.sh.user == s.sh.user && s'.sh.written == s.sh.written && |s'.sh.buf| == |s.sh.buf|
  {
  }

  /** A longer write never leaves the wait loop, whatever else runs. */
  lemma {:induction false} LongWriteWaits(blk: nat, s0: Tx, acts: seq<Action>, s: Tx)
    requires Inv(blk, s0) && HoldsBack(s0) && Leads(blk, s0, acts, s) && s0.sh.user.Waiting?
    requires |s0.sh.user.data| > LongestWrite(|s0.sh.buf|, blk, |s0.sh.written|)
    ensures Inv(blk, s) && HoldsBack(s)
    ensures s.sh.user == s0.sh.user && s.sh.written == s0.sh.written && |s.sh.buf| == |s0.sh.buf|
    decreases |acts|
  {
    if acts != [] {
      var mid, a := Exec(blk, s0, acts[..|acts| - 1]).value, acts[|acts| - 1];
      LongWriteWaits(blk, s0, acts[..|acts| - 1], mid);
      RoomForWrite(blk, mid);
      RefusedStep(blk, mid, a);
      HoldsBackStep(blk, mid, a);
      StepKeeps(blk, mid, a);
    }
  }

  // ---- what a pass hands out ----

  function Least(a: int, b: int): int { if a < b then a else b }

  /** How many blocks can be taken from a ring that holds `f` bytes: the last byte has to stay. */
  function Takeable(f: int, blk: nat): nat
    requires blk > 0
  {
    if f <= 0 then 0 else (f - 1) / blk
  }

  lemma TakeableIs(f: int, blk: nat, k: nat)
    requires blk > 0
    ensures k <= Takeable(f, blk) <==> k == 0 || k * blk < f
  {
    if f > 0 {
      DivMod(f - 1, blk);
      if k <= (f - 1) / blk { Monotone(k, (f - 1) / blk, blk); }
      if k > (f - 1) / blk { Monotone((f - 1) / blk + 1, k, blk); }
    }
  }

  lemma TakeableGrows(f: int, f': int, blk: nat)
    requires blk > 0 && f <= f'
    ensures Takeable(f, blk) <= Takeable(f', blk)
  {
    TakeableIs(f, blk, Takeable(f, blk));
    TakeableIs(f', blk, Takeable(f, blk));
  }

  lemma TakeableLess(f: int, blk: nat)
    requires blk > 0
    ensures f > blk ==> Takeable(f, blk) == Takeable(f - blk, blk) + 1
    ensures f <= blk ==> Takeable(f, blk) == 0
  {
    if f > blk {
      DivMod(f - 1, blk);
      QuotientIs(f - blk - 1, blk, (f - 1) / blk - 1, (f - 1) % blk);
    } else if f > 0 {
      QuotientIs(f - 1, blk, 0, f - 1);
    }
  }

  /** The blocks taken so far, and those the present pass will take of what is in the ring. */
  function Promised(blk: nat, s: Tx): int
    requires blk > 0
  {
    var filled := Filled(s.sh.start, s.sh.end, |s.sh.buf|);
    |s.sh.taken| + match s.th.pc
                   case Poll | ReadLevel => Least(DMA_BUFFS - DESC_DELAY - |s.sh.fifo|, Takeable(filled, blk))
                   case Refill | Copy => Least(s.th.descComp - DESC_DELAY, Takeable(filled, blk))
                   case Enqueue | Tail | Drain | Stopped => 0
  }

  lemma PromiseUser(blk: nat, s: Tx, a: Action)
    requires Inv(blk, s) && UserStep(blk, s.sh, a).Some?
    ensures Promised(blk, s.(sh := UserStep(blk, s.sh, a).value)) >= Promised(blk, s)
  {
    var sh, sh' := s.sh, UserStep(blk, s.sh, a).value;
    UserKeepsStream(blk, sh, a);
    TakeableGrows(Filled(sh.start, sh.end, |sh.buf|), Filled(sh'.start, sh'.end, |sh'.buf|), blk);
  }

  lemma PromiseDevice(blk: nat, s: Tx, a: Action)
    requires Inv(blk, s) && DeviceStep(blk, s.sh, a).Some?
    ensures Promised(blk, s.(sh := DeviceStep(blk, s.sh, a).value)) >= Promised(blk, s)
  {
  }

  lemma PromiseRefill(blk: nat, s: Tx)
    requires Inv(blk, s) && ThreadNext(blk, s, false).Some? && s.th.pc == Refill
    ensures Promised(blk, ThreadNext(blk, s, false).value) == Promised(blk, s)
  {
    TakeableLess(Filled(s.sh.start, s.sh.end, |s.sh.buf|), blk);
  }

  lemma PromiseCopy(blk: nat, s: Tx)
    requires Inv(blk, s) && ThreadNext(blk, s, false).Some? && s.th.pc == Copy
    ensures Promised(blk, ThreadNext(blk, s, false).value) == Promised(blk, s)
  {
    TakeableLess(Filled(s.sh.start, s.sh.end, |s.sh.buf|), blk);
    if s.th.copied == blk { PublishStart(s.sh.buf, s.sh.start, s.sh.end, blk); }
  }

  lemma PromiseOutside(blk: nat, s: Tx)
    requires Inv(blk, s) && ThreadNext(blk, s, false).Some? && s.th.pc != Refill && s.th.pc != Copy
    ensures Promised(blk, ThreadNext(blk, s, false).value) >= Promised(blk, s)
    ensures s.th.pc != Tail ==> Promised(blk, ThreadNext(blk, s, false).value) == Promised(blk, s)
  {
  }

  lemma PromiseThread(blk: nat, s: Tx)
    requires Inv(blk, s) && ThreadNext(blk, s, false).Some?
    ensures Promised(blk, ThreadNext(blk, s, false).value) >= Promised(blk, s)
    ensures s.th.pc != Tail ==> Promised(blk, ThreadNext(blk, s, false).value) == Promised(blk, s)
  {
    match s.th.pc {
      case Refill => PromiseRefill(blk, s);
      case Copy => PromiseCopy(blk, s);
      case _ => PromiseOutside(blk, s);
    }
  }

  /** Until the thread is asked to stop, no step takes anything back of what is promised, and the
      thread's own steps within a pass add nothing. */
  lemma PromiseKept(blk: nat, s: Tx, a: Action)
    requires Inv(blk, s) && Step(blk, s, a).Some? && a != ThreadStep(true)
    ensures Promised(blk, Step(blk, s, a).value) >= Promised(blk, s)
    ensures a.ThreadStep? && s.th.pc != Tail ==> Promised(blk, Step(blk, s, a).value) == Promised(blk, s)
  {
    match a {
      case UserBegin(_) | UserCheck | UserCopy | UserPublish => PromiseUser(blk, s, a);
      case DevicePop | DeviceRead(_) | DeviceRetire => PromiseDevice(blk, s, a);
      case ThreadStep(_) => PromiseThread(blk, s);
    }
  }
}
