/** What a thread that stops leaves with the device (sw/langford_driver/langford.c:110, 244-262 and 296,
    421-437): `cdev_release` frees the DMA buffers as soon as both threads have returned
    (lines 1005-1017). */
module Stops {
  import opened Options
  import opened Ring
  import T = TxStream
  import R = RxStream
  import TF = TxFaults
  import RF = RxFaults

  // ---- the transmit thread ----

  /** The device neither has a slot queued nor reads one. */
  predicate TxReleased(sh: T.Shared) { sh.fifo == [] && sh.transfers == [] }

  /** From the end of a pass on, the FIFO holds no more than the level last seen or made. */
  predicate TxLevelled(s: T.Tx) {
    s.th.pc == T.Tail || s.th.pc == T.Drain ==> |s.sh.fifo| <= s.th.descLevel
  }

  lemma TxLevelStep(blk: nat, s: T.Tx, a: T.Action)
    requires T.Inv(blk, s) && TxLevelled(s) && T.Step(blk, s, a).Some?
    ensures TxLevelled(T.Step(blk, s, a).value)
  {
  }

  lemma {:induction false} TxAlwaysLevelled(blk: nat, s0: T.Tx, acts: seq<T.Action>, s: T.Tx)
    requires T.Init(blk, s0) && T.Leads(blk, s0, acts, s)
    ensures T.Inv(blk, s) && TxLevelled(s)
    decreases |acts|
  {
    T.Reachable(blk, s0, acts, s);
    if acts != [] {
      var mid := T.Exec(blk, s0, acts[..|acts| - 1]).value;
      TxAlwaysLevelled(blk, s0, acts[..|acts| - 1], mid);
      TxLevelStep(blk, mid, acts[|acts| - 1]);
    }
  }

  /** At the step that stops the thread: one that waited for level zero leaves the FIFO empty, and the
      device at most `DESC_DELAY` slots; it leaves it none exactly if no transfer is under way. One
      that stops at the start of a pass also has to find the FIFO empty. */
  lemma TxStopReleasesIff(blk: nat, s0: T.Tx, acts: seq<T.Action>, s: T.Tx, stop: bool)
    requires T.Init(blk, s0) && T.Leads(blk, s0, acts, s)
    requires T.ThreadNext(blk, s, stop).Some? && T.ThreadNext(blk, s, stop).value.th.pc == T.Stopped
    ensures s.th.pc == T.Drain || s.th.pc == T.Poll
    ensures s.th.pc == T.Drain ==> s.sh.fifo == [] && |s.sh.transfers| <= T.DESC_DELAY
    ensures TxReleased(T.ThreadNext(blk, s, stop).value.sh) <==>
              s.sh.transfers == [] && (s.th.pc == T.Poll ==> s.sh.fifo == [])
  {
    TxAlwaysLevelled(blk, s0, acts, s);
  }

  /** The thread finds no further block and comes to its enqueue loop. */
  lemma {:induction false} RunDown(blk: nat, s: T.Tx) returns (acts: seq<T.Action>, s': T.Tx)
    requires T.Inv(blk, s) && s.th.pc == T.Refill && Filled(s.sh.start, s.sh.end, |s.sh.buf|) <= blk
    ensures T.Inv(blk, s') && T.Leads(blk, s, acts, s') && s'.th.pc == T.Enqueue && s'.sh == s.sh
    decreases s.th.descComp
  {
    var s1;
    acts, s1 := TF.ThreadOne(blk, s);
    if s.th.descComp <= T.DESC_DELAY {
      s' := s1;
    } else {
      var rest;
      rest, s' := RunDown(blk, s1);
      TF.Chain(blk, s, acts, s1, rest, s');
      acts := acts + rest;
    }
  }

  /** A pass that finds more than a block goes on to copy it. */
  lemma StartCopy(blk: nat, s: T.Tx) returns (acts: seq<T.Action>, s': T.Tx)
    requires T.Inv(blk, s) && s.th.pc == T.Poll && s.sh.fifo == []
    requires Filled(s.sh.start, s.sh.end, |s.sh.buf|) > blk
    ensures T.Inv(blk, s') && T.Leads(blk, s, acts, s') && s'.th.pc == T.Copy && s'.sh == s.sh
  {
    var a, s1 := TF.ThreadOne(blk, s);
    var b, s2 := TF.ThreadOne(blk, s1);
    TF.Chain(blk, s, a, s1, b, s2);
    var d;
    d, s' := TF.ThreadOne(blk, s2);
    TF.Chain(blk, s, a + b, s2, d, s');
    acts := a + b + d;
  }

  /** From a fresh start, with a block and a byte written: the thread takes the block into a slot. */
  lemma TakeFirst(blk: nat, s0: T.Tx) returns (acts: seq<T.Action>, s: T.Tx)
    requires T.Init(blk, s0) && blk + 1 < |s0.sh.buf|
    ensures T.Inv(blk, s) && T.Leads(blk, s0, acts, s) && s.th.pc == T.Refill && |s.sh.taken| == 1
    ensures TxReleased(s.sh) && s.sh.retired == 0 && Filled(s.sh.start, s.sh.end, |s.sh.buf|) <= blk
  {
    var a, s1 := TF.WriteFirst(blk, s0, blk + 1);
    var b, s2 := StartCopy(blk, s1);
    TF.Chain(blk, s0, a, s1, b, s2);
    var d;
    d, s := TF.CopyRun(blk, s2);
    TF.Chain(blk, s0, a + b, s2, d, s);
    acts := a + b + d;
    PublishStart(s2.sh.buf, s2.sh.start, s2.sh.end, blk);
  }

  /** And hands it to the device at the end of the pass. */
  lemma HandOutFirst(blk: nat, s0: T.Tx) returns (acts: seq<T.Action>, s: T.Tx)
    requires T.Init(blk, s0) && blk + 1 < |s0.sh.buf|
    ensures T.Inv(blk, s) && T.Leads(blk, s0, acts, s) && s.th.pc == T.Tail && s.sh.transfers == [] && |s.sh.fifo| == 1
  {
    var a, s1 := TakeFirst(blk, s0);
    var b, s2 := RunDown(blk, s1);
    TF.Chain(blk, s0, a, s1, b, s2);
    var d;
    d, s := TF.EnqueueAll(blk, s2);
    TF.Chain(blk, s0, a + b, s2, d, s);
    acts := a + b + d;
  }

  lemma TxDo(blk: nat, s0: T.Tx, acts: seq<T.Action>, s: T.Tx, a: T.Action) returns (acts': seq<T.Action>, s': T.Tx)
    requires T.Shape(blk, s0) && T.Leads(blk, s0, acts, s) && T.Step(blk, s, a).Some?
    ensures T.Leads(blk, s0, acts', s') && T.Step(blk, s, a) == Some(s')
  {
    s' := T.Step(blk, s, a).value;
    acts' := acts + [a];
    T.Extend(blk, s0, acts, s, a, s');
  }

  /** A stop at the start of a pass leaves the device a slot it has yet to read. */
  lemma TxStopsWithQueue(blk: nat, s0: T.Tx) returns (acts: seq<T.Action>, s: T.Tx)
    requires T.Init(blk, s0) && blk + 1 < |s0.sh.buf|
    ensures T.Leads(blk, s0, acts, s) && s.th.pc == T.Stopped && !TxReleased(s.sh) && |s.sh.fifo| == 1
  {
    acts, s := HandOutFirst(blk, s0);
    acts, s := TxDo(blk, s0, acts, s, T.ThreadStep(false));
    acts, s := TxDo(blk, s0, acts, s, T.ThreadStep(true));
  }

  /** A stop after the wait leaves it one it has begun to read. */
  lemma TxStopsInTransfer(blk: nat, s0: T.Tx) returns (acts: seq<T.Action>, s: T.Tx)
    requires T.Init(blk, s0) && blk + 1 < |s0.sh.buf|
    ensures T.Leads(blk, s0, acts, s) && s.th.pc == T.Stopped && s.sh.fifo == [] && !TxReleased(s.sh)
    ensures T.Step(blk, s, T.DeviceRead(0)).Some?
  {
    acts, s := HandOutFirst(blk, s0);
    acts, s := TxDo(blk, s0, acts, s, T.ThreadStep(true));
    acts, s := TxDo(blk, s0, acts, s, T.DevicePop);
    if s.th.descLevel != 0 { acts, s := TxDo(blk, s0, acts, s, T.ThreadStep(false)); }
    acts, s := TxDo(blk, s0, acts, s, T.ThreadStep(false));
  }

  // ---- the receive thread ----

  /** The device neither has a slot queued nor fills one. */
  predicate RxReleased(sh: R.Shared) { sh.fifo == [] && sh.transfers == [] }

  /** From its enqueue loop to the end of a pass the FIFO holds no more than the level last seen or
      made. */
  predicate RxLevelled(s: R.Rx) {
    s.th.pc == R.Drain || s.th.pc == R.Copy || s.th.pc == R.Tail || s.th.pc == R.Shutdown ==>
      |s.sh.fifo| <= s.th.descLevel
  }

  lemma RxLevelStep(c: R.Config, s: R.Rx, a: R.Action)
    requires R.Inv(c, s) && RxLevelled(s) && R.Step(c, s, a).Some?
    ensures RxLevelled(R.Step(c, s, a).value)
  {
  }

  lemma {:induction false} RxAlwaysLevelled(c: R.Config, s0: R.Rx, acts: seq<R.Action>, s: R.Rx)
    requires R.Init(c, s0) && R.Leads(c, s0, acts, s)
    ensures R.Inv(c, s) && RxLevelled(s)
    decreases |acts|
  {
    R.Reachable(c, s0, acts, s);
    if acts != [] {
      var mid := R.Exec(c, s0, acts[..|acts| - 1]).value;
      RxAlwaysLevelled(c, s0, acts[..|acts| - 1], mid);
      RxLevelStep(c, mid, acts[|acts| - 1]);
    }
  }

  /** The same of the receive thread, under either space check. */
  lemma RxStopReleasesIff(c: R.Config, s0: R.Rx, acts: seq<R.Action>, s: R.Rx, stop: bool)
    requires R.Init(c, s0) && R.Leads(c, s0, acts, s)
    requires R.ThreadNext(c, s, stop).Some? && R.ThreadNext(c, s, stop).value.th.pc == R.Stopped
    ensures s.th.pc == R.Shutdown || s.th.pc == R.Poll
    ensures s.th.pc == R.Shutdown ==> s.sh.fifo == [] && |s.sh.transfers| <= R.DESC_DELAY
    ensures RxReleased(R.ThreadNext(c, s, stop).value.sh) <==>
              s.sh.transfers == [] && (s.th.pc == R.Poll ==> s.sh.fifo == [])
  {
    RxAlwaysLevelled(c, s0, acts, s);
  }

  lemma RxDo(c: R.Config, s0: R.Rx, acts: seq<R.Action>, s: R.Rx, a: R.Action) returns (acts': seq<R.Action>, s': R.Rx)
    requires R.Shape(c, s0) && R.Leads(c, s0, acts, s) && R.Step(c, s, a).Some?
    ensures R.Leads(c, s0, acts', s') && R.Step(c, s, a) == Some(s')
  {
    s' := R.Step(c, s, a).value;
    acts' := acts + [a];
    R.Extend(c, s0, acts, s, a, s');
  }

  /** The first pass hands out all slots but one, and nothing to drain is there yet. */
  lemma FirstPass(c: R.Config, s0: R.Rx) returns (acts: seq<R.Action>, s: R.Rx)
    requires R.Init(c, s0)
    ensures R.Inv(c, s) && R.Leads(c, s0, acts, s) && s.th.pc == R.Tail
    ensures |s.sh.fifo| == R.DMA_BUFFS - 1 && s.sh.transfers == []
  {
    R.InitInv(c, s0);
    var a, s1 := RF.IdlePass(c, s0);
    acts, s := RxDo(c, s0, a, s1, R.ThreadStep(false));
    R.StepKeeps(c, s1, R.ThreadStep(false));
  }

  /** A stop at the start of the second pass leaves the device 31 slots to fill. */
  lemma RxStopsWithQueue(c: R.Config, s0: R.Rx) returns (acts: seq<R.Action>, s: R.Rx)
    requires R.Init(c, s0)
    ensures R.Leads(c, s0, acts, s) && s.th.pc == R.Stopped && !RxReleased(s.sh) && |s.sh.fifo| == R.DMA_BUFFS - 1
  {
    acts, s := FirstPass(c, s0);
    acts, s := RxDo(c, s0, acts, s, R.ThreadStep(false));
    acts, s := RxDo(c, s0, acts, s, R.ThreadStep(true));
  }

  function Least(a: nat, b: nat): nat { if a < b then a else b }

  predicate LastUnbegun(sh: R.Shared) { sh.transfers != [] && sh.transfers[|sh.transfers| - 1].done == 0 }

  lemma PopNow(c: R.Config, s: R.Rx) returns (acts: seq<R.Action>, s': R.Rx)
    requires R.Inv(c, s) && s.sh.fifo != [] && |s.sh.transfers| < R.DESC_DELAY
    ensures R.Inv(c, s') && R.Leads(c, s, acts, s') && s'.th == s.th && s'.sh.fifo == s.sh.fifo[1..]
    ensures |s'.sh.transfers| == |s.sh.transfers| + 1 && LastUnbegun(s'.sh)
  {
    var a := R.DevicePop(seq(c.blk, _ => 0));
    s' := R.Step(c, s, a).value;
    R.StepKeeps(c, s, a);
    RF.One(c, s, a);
    acts := [a];
  }

  /** The device takes a descriptor, having finished one first if it holds as many as it can. */
  lemma PopOne(c: R.Config, s: R.Rx) returns (acts: seq<R.Action>, s': R.Rx)
    requires R.Inv(c, s) && s.sh.fifo != []
    ensures R.Inv(c, s') && R.Leads(c, s, acts, s') && s'.th == s.th && s'.sh.fifo == s.sh.fifo[1..]
    ensures |s'.sh.transfers| == Least(|s.sh.transfers| + 1, R.DESC_DELAY) && LastUnbegun(s'.sh)
  {
    if |s.sh.transfers| < R.DESC_DELAY {
      acts, s' := PopNow(c, s);
    } else {
      var a, s1 := RF.FinishFirst(c, s);
      var b;
      b, s' := PopNow(c, s1);
      RF.Chain(c, s, a, s1, b, s');
      acts := a + b;
    }
  }

  /** It takes every descriptor and keeps as many unfinished as it can. */
  lemma {:induction false} TakeAll(c: R.Config, s: R.Rx) returns (acts: seq<R.Action>, s': R.Rx)
    requires R.Inv(c, s) && s.sh.fifo != []
    ensures R.Inv(c, s') && R.Leads(c, s, acts, s') && s'.th == s.th && s'.sh.fifo == []
    ensures |s'.sh.transfers| == Least(|s.sh.transfers| + |s.sh.fifo|, R.DESC_DELAY) && LastUnbegun(s'.sh)
    decreases |s.sh.fifo|
  {
    var a, s1 := PopOne(c, s);
    if |s.sh.fifo| == 1 {
      acts, s' := a, s1;
    } else {
      var b;
      b, s' := TakeAll(c, s1);
      RF.Chain(c, s, a, s1, b, s');
      acts := a + b;
    }
  }

  /** Asked to stop at the end of that pass, the thread waits until the device has taken everything. */
  lemma WaitOut(c: R.Config, s0: R.Rx) returns (acts: seq<R.Action>, s: R.Rx)
    requires R.Init(c, s0)
    ensures R.Shape(c, s) && R.Leads(c, s0, acts, s) && s.th.pc == R.Shutdown
    ensures s.sh.fifo == [] && |s.sh.transfers| == R.DESC_DELAY && LastUnbegun(s.sh)
  {
    var a, s1 := FirstPass(c, s0);
    var b, s2 := RxDo(c, s0, a, s1, R.ThreadStep(true));
    R.StepKeeps(c, s1, R.ThreadStep(true));
    var d;
    d, s := TakeAll(c, s2);
    RF.Chain(c, s0, b, s2, d, s);
    acts := b + d;
  }

  /** A stop after the wait leaves it four transfers, the last of which it goes on to fill. */
  lemma RxStopsInTransfer(c: R.Config, s0: R.Rx) returns (acts: seq<R.Action>, s: R.Rx)
    requires R.Init(c, s0)
    ensures R.Leads(c, s0, acts, s) && s.th.pc == R.Stopped && s.sh.fifo == [] && !RxReleased(s.sh)
    ensures |s.sh.transfers| == R.DESC_DELAY && R.Step(c, s, R.DeviceStore(R.DESC_DELAY - 1)).Some?
  {
    acts, s := WaitOut(c, s0);
    if s.th.descLevel != 0 { acts, s := RxDo(c, s0, acts, s, R.ThreadStep(false)); }
    acts, s := RxDo(c, s0, acts, s, R.ThreadStep(false));
  }
}
