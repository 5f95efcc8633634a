/** `dev_write_task` (sw/langford_driver/langford.c:279-443) as the loop it is, proved to take
    only steps of `TxStream`: the thread may be preempted before every access to shared state,
    and the user and the device then do whatever a scheduler chooses. */
module TxThread {
  import opened Options
  import opened Ring
  import opened TxStream

  class WriteThread {
    const blk: nat
    /** What the other parties do at each preemption, and when the thread is asked to stop. */
    const others: nat -> seq<Action>
    const shouldStop: nat -> bool
    var tick: nat

    var sh: Shared
    var buffStart: nat
    var buffEnd: nat
    var descLevel: int
    var descActive: int
    var descComp: int
    var buffsToWrite: int
    var copied: nat

    ghost const origin: Tx
    ghost var trace: seq<Action>

    ghost function State(pc: Pc): Tx
      reads this
    {
      Tx(sh, Thread(pc, buffStart, buffEnd, descLevel, descActive, descComp, buffsToWrite, copied))
    }

    /** How many steps the thread has taken. */
    ghost function Own(): nat
      reads this
    {
      ThreadSteps(trace)
    }

    /** Everything done so far is a run of the step system that ends in the present state. */
    ghost predicate At(pc: Pc)
      reads this
    {
      Init(blk, origin) && Leads(blk, origin, trace, State(pc))
    }

    /** What has been taken and what the present pass will still take. */
    ghost function Promise(pc: Pc): int
      requires blk > 0
      reads this
    {
      Promised(blk, State(pc))
    }

    /** No other party ever moves. */
    ghost predicate Alone() { forall t: nat :: others(t) == [] }

    /** The promise of before is kept, and exceeded only if someone else moves. */
    ghost predicate Kept(was: int, pc: Pc)
      requires blk > 0
      reads this
    {
      Promise(pc) >= was && (Alone() ==> Promise(pc) == was)
    }

    lemma Known(pc: Pc)
      requires At(pc)
      ensures Inv(blk, State(pc))
    {
      InitInv(blk, origin);
      ExecKeeps(blk, origin, trace);
    }

    constructor (blk: nat, sh: Shared, others: nat -> seq<Action>, shouldStop: nat -> bool)
      requires Init(blk, Tx(sh, Thread(Poll, 0, 0, 0, 0, 0, 0, 0)))
      ensures At(Poll) && this.blk == blk && this.sh == sh && trace == []
      ensures origin == Tx(sh, Thread(Poll, 0, 0, 0, 0, 0, 0, 0))
    {
      this.blk, this.others, this.shouldStop := blk, others, shouldStop;
      this.sh, tick := sh, 0;
      buffStart, buffEnd := 0, 0;
      descLevel, descActive, descComp, buffsToWrite, copied := 0, 0, 0, 0, 0;
      origin := Tx(sh, Thread(Poll, 0, 0, 0, 0, 0, 0, 0));
      trace := [];
    }

    /** One step of another party, if it can be taken. */
    method OtherStep(ghost pc: Pc, a: Action)
      requires At(pc) && SharedShape(blk, sh)
      modifies `sh, `trace
      ensures At(pc) && SharedShape(blk, sh)
      ensures sh.start == old(sh.start) && |sh.buf| == old(|sh.buf|) && sh.slots == old(sh.slots)
      ensures Own() == old(Own()) && sh == AfterOther(blk, old(sh), a)
      ensures Promise(pc) >= old(Promise(pc))
    {
      var r := OthersStep(blk, sh, a);
      if r.Some? {
        ghost var before := State(pc);
        Known(pc);
        PromiseKept(blk, before, a);
        sh := r.value;
        Extend(blk, origin, trace, before, a, State(pc));
        CountSnoc(trace, a);
        trace := trace + [a];
      }
    }

    /** The other parties run. */
    method Yield(ghost pc: Pc)
      requires At(pc) && SharedShape(blk, sh)
      modifies `sh, `trace, `tick
      ensures At(pc) && SharedShape(blk, sh)
      ensures sh.start == old(sh.start) && |sh.buf| == old(|sh.buf|) && sh.slots == old(sh.slots)
      ensures Own() == old(Own()) && tick == old(tick) + 1 && sh == OthersRun(blk, old(sh), others(old(tick)))
      ensures Kept(old(Promise(pc)), pc)
    {
      var acts := others(tick);
      tick := tick + 1;
      for i := 0 to |acts|
        invariant At(pc) && SharedShape(blk, sh)
        invariant sh.start == old(sh.start) && |sh.buf| == old(|sh.buf|) && sh.slots == old(sh.slots)
        invariant tick == old(tick) + 1 && Own() == old(Own()) && sh == OthersRun(blk, old(sh), acts[..i])
        invariant Promise(pc) >= old(Promise(pc))
      {
        OthersRunNext(blk, old(sh), acts, i);
        OtherStep(pc, acts[i]);
      }
      assert acts[..|acts|] == acts;
    }

    /** Records the thread's own step from `before` to the present state. */
    ghost method Record(before: Tx, stop: bool, pc: Pc)
      requires Init(blk, origin) && Leads(blk, origin, trace, before)
      requires Shape(blk, before) && ThreadNext(blk, before, stop) == Some(State(pc))
      modifies `trace
      ensures At(pc) && Own() == old(Own()) + 1
      ensures !stop ==> Promise(pc) >= Promised(blk, before)
      ensures !stop && before.th.pc != Tail ==> Promise(pc) == Promised(blk, before)
    {
      InitInv(blk, origin);
      ExecKeeps(blk, origin, trace);
      if !stop { PromiseKept(blk, before, ThreadStep(stop)); }
      Extend(blk, origin, trace, before, ThreadStep(stop), State(pc));
      CountSnoc(trace, ThreadStep(stop));
      trace := trace + [ThreadStep(stop)];
    }

    /** Waits for room in the FIFO: lines 295-301. The wait is over at once, since the FIFO is
        never full. */
    method PollFifo(stop: bool)
      requires At(Poll)
      modifies `trace
      ensures At(if stop then Stopped else ReadLevel)
      ensures Own() == old(Own()) + 1 && (!stop ==> Promise(ReadLevel) == old(Promise(Poll)))
    {
      Known(Poll);
      assert |sh.fifo| < DMA_DESCS;
      Record(State(Poll), stop, if stop then Stopped else ReadLevel);
    }

    /** Lines 303, 324-325. */
    method ReadFillLevel()
      requires At(ReadLevel)
      modifies `trace, `descLevel, `descActive, `descComp
      ensures At(Refill)
      ensures Own() == old(Own()) + 1 && Promise(Refill) == old(Promise(ReadLevel))
    {
      ghost var s := State(ReadLevel);
      descLevel := |sh.fifo|;
      descComp := DMA_BUFFS - descLevel;
      descActive := descLevel;
      Record(s, false, Refill);
    }

    /** The test made under the mutex: lines 339-340. */
    method CheckData() returns (enough: bool)
      requires At(Refill) && descComp > DESC_DELAY && SharedShape(blk, sh)
      modifies `trace, `copied, `descComp
      ensures enough ==> At(Copy) && copied == 0 && descComp == old(descComp)
      ensures !enough ==> At(Refill) && descComp == old(descComp) - 1
      ensures Own() == old(Own()) + 1 && Promise(if enough then Copy else Refill) == old(Promise(Refill))
    {
      ghost var s := State(Refill);
      enough := Filled(sh.start, sh.end, |sh.buf|) > blk;
      if enough {
        copied := 0;
      } else {
        descComp := descComp - 1;
      }
      Record(s, false, if enough then Copy else Refill);
    }

    /** One byte of the copy into the DMA slot. */
    method CopyByte(at: nat)
      requires At(Copy) && copied < blk
      requires SharedShape(blk, sh) && buffEnd < DMA_BUFFS && at < |sh.buf| && at == Wrap(sh.start + copied, |sh.buf|)
      modifies `sh, `trace, `copied
      ensures At(Copy) && copied == old(copied) + 1 && sh == old(sh).(slots := sh.slots) && SharedShape(blk, sh)
      ensures Own() == old(Own()) + 1 && Promise(Copy) == old(Promise(Copy))
    {
      ghost var s := State(Copy);
      sh := sh.(slots := sh.slots[buffEnd := sh.slots[buffEnd][copied := sh.buf[at]]]);
      copied := copied + 1;
      assert CopyStep(blk, s) == State(Copy);
      Record(s, false, Copy);
    }

    /** Lines 357-359, 383, and the loop's decrement. */
    method PublishBlock()
      requires At(Copy) && copied == blk && SharedShape(blk, sh) && buffEnd < DMA_BUFFS
      modifies `sh, `trace, `buffEnd, `descComp
      ensures At(Refill) && descComp == old(descComp) - 1
      ensures Own() == old(Own()) + 1 && Promise(Refill) == old(Promise(Copy))
    {
      ghost var s := State(Copy);
      sh := sh.(start := Wrap(sh.start + blk, |sh.buf|), taken := sh.taken + [sh.slots[buffEnd]]);
      buffEnd := (buffEnd + 1) % DMA_BUFFS;
      descComp := descComp - 1;
      assert CopyStep(blk, s) == State(Refill);
      Record(s, false, Refill);
    }

    lemma ShapeNow(pc: Pc)
      requires At(pc)
      ensures SharedShape(blk, sh) && buffStart < DMA_BUFFS && buffEnd < DMA_BUFFS && copied <= blk
    {
    }

    /** One memcpy: `n` bytes from ring index `from`, not going past the end of the ring. */
    method Memcpy(n: nat, from: nat)
      requires At(Copy) && SharedShape(blk, sh) && buffEnd < DMA_BUFFS && copied + n <= blk && from + n <= |sh.buf|
      requires from < |sh.buf| ==> from == Wrap(sh.start + copied, |sh.buf|)
      modifies `sh, `trace, `tick, `copied
      ensures At(Copy) && SharedShape(blk, sh) && copied == old(copied) + n
      ensures sh.start == old(sh.start) && |sh.buf| == old(|sh.buf|)
      ensures Own() == old(Own()) + n && Kept(old(Promise(Copy)), Copy)
    {
      for k := 0 to n
        invariant At(Copy) && Own() == old(Own()) + k && copied == old(copied) + k && SharedShape(blk, sh)
        invariant Kept(old(Promise(Copy)), Copy)
        invariant sh.start == old(sh.start) && |sh.buf| == old(|sh.buf|)
      {
        Yield(Copy);
        CopyByte(from + k);
      }
    }

    /** The two memcpy calls and what follows them: lines 352-383. */
    method CopyBlock()
      requires At(Copy) && copied == 0 && SharedShape(blk, sh) && buffEnd < DMA_BUFFS
      modifies `sh, `trace, `tick, `copied, `buffEnd, `descComp
      ensures At(Refill) && descComp == old(descComp) - 1
      ensures Own() == old(Own()) + blk + 1 && Kept(old(Promise(Copy)), Refill)
    {
      var cap := |sh.buf|;
      Memcpy(if blk < cap - sh.start then blk else cap - sh.start, sh.start);
      if sh.start + blk > cap {
        Memcpy(blk - cap + sh.start, 0);
      }
      Yield(Copy);
      PublishBlock();
    }

    /** Refills every slot that completed more than `DESC_DELAY` descriptors ago, if there is
        data for it: lines 331-393. */
    method RefillLoop()
      requires At(Refill)
      modifies `sh, `trace, `tick, `copied, `buffEnd, `descComp
      ensures At(Refill) && descComp <= DESC_DELAY
      ensures Own() >= old(Own()) && Kept(old(Promise(Refill)), Refill)
    {
      while descComp > DESC_DELAY
        invariant At(Refill) && Own() >= old(Own()) && Kept(old(Promise(Refill)), Refill)
        decreases descComp
      {
        ShapeNow(Refill);
        Yield(Refill);
        var enough := CheckData();
        if enough {
          ShapeNow(Copy);
          CopyBlock();
        }
      }
    }

    /** Lines 397-400. */
    method CountReady()
      requires At(Refill) && descComp <= DESC_DELAY
      modifies `trace, `buffsToWrite
      ensures At(Enqueue) && buffsToWrite >= 0
      ensures Own() == old(Own()) + 1 && Promise(Enqueue) == old(Promise(Refill))
    {
      ghost var s := State(Refill);
      var room, filled := DMA_DESCS - descLevel, Filled(buffStart, buffEnd, DMA_BUFFS);
      buffsToWrite := if room < filled then room else filled;
      Record(s, false, Enqueue);
      Known(Enqueue);
    }

    /** Lines 404-417. */
    method EnqueueOne()
      requires At(Enqueue) && buffsToWrite > 0 && SharedShape(blk, sh) && buffStart < DMA_BUFFS
      modifies `sh, `trace, `buffStart, `descActive, `descLevel, `buffsToWrite
      ensures At(Enqueue) && buffsToWrite == old(buffsToWrite) - 1
      ensures Own() == old(Own()) + 1 && Promise(Enqueue) == old(Promise(Enqueue))
    {
      ghost var s := State(Enqueue);
      sh := sh.(fifo := sh.fifo + [buffStart]);
      buffStart := (buffStart + 1) % DMA_BUFFS;
      descActive := descActive + 1;
      descLevel := descLevel + 1;
      buffsToWrite := buffsToWrite - 1;
      assert EnqueueStep(blk, s) == State(Enqueue);
      Record(s, false, Enqueue);
    }

    /** Hands the refilled slots to the device: lines 397-418. */
    method EnqueueLoop()
      requires At(Refill) && descComp <= DESC_DELAY
      modifies `sh, `trace, `tick, `buffStart, `descActive, `descLevel, `buffsToWrite
      ensures At(Tail)
      ensures Own() >= old(Own()) + 2 && Kept(old(Promise(Refill)), Tail)
    {
      CountReady();
      while buffsToWrite != 0
        invariant At(Enqueue) && buffsToWrite >= 0 && Own() >= old(Own()) + 1
        invariant Kept(old(Promise(Refill)), Enqueue)
        decreases buffsToWrite
      {
        ShapeNow(Enqueue);
        Yield(Enqueue);
        ShapeNow(Enqueue);
        EnqueueOne();
      }
      Record(State(Enqueue), false, Tail);
    }

    /** At the end of a pass all that was taken is handed out, and nothing more is promised. */
    lemma HandedOut()
      requires At(Tail)
      ensures Promise(Tail) == |sh.taken| == Enqueued(sh)
    {
      Known(Tail);
    }

    /** With `queued` descriptors in the FIFO and `filled` bytes in the ring to start from, at least so
        many blocks more have been handed to the device, and exactly so many if nobody else moves. */
    ghost predicate Topped(enqueued: nat, queued: int, filled: int)
      requires blk > 0
      reads this
    {
      && Enqueued(sh) >= enqueued + Least(28 - queued, Takeable(filled, blk)) >= enqueued
      && (Alone() ==> Enqueued(sh) == enqueued + Least(28 - queued, Takeable(filled, blk)))
    }

    lemma PromiseAtPoll()
      requires At(Poll)
      ensures |sh.fifo| <= 28
      ensures Promise(Poll) == Enqueued(sh) + Least(28 - |sh.fifo|, Takeable(Filled(sh.start, sh.end, |sh.buf|), blk))
    {
      Known(Poll);
    }

    /** Lines 303-418. */
    method Work()
      requires At(ReadLevel)
      modifies this
      ensures At(Tail) && Own() >= old(Own()) + 3 && Kept(old(Promise(ReadLevel)), Tail)
    {
      ShapeNow(ReadLevel);
      Yield(ReadLevel);
      ReadFillLevel();
      RefillLoop();
      EnqueueLoop();
    }

    /** One pass of the endless loop, up to its test for termination: lines 292-418. From `n` queued
        descriptors and `f` bytes in the ring, it tops the queue up to 28 as far as the ring goes:
        the device is handed at least `28 - n` blocks more, or as many as leave a byte of the `f`,
        and exactly that many if nobody else moves. */
    method Pass() returns (stopped: bool)
      requires At(Poll)
      modifies this
      ensures stopped == shouldStop(old(tick))
      ensures At(if stopped then Stopped else Tail) && (!stopped ==> Own() >= old(Own()) + 4)
      ensures !stopped ==> Topped(old(Enqueued(sh)), old(|sh.fifo|), old(Filled(sh.start, sh.end, |sh.buf|)))
    {
      stopped := shouldStop(tick);
      PromiseAtPoll();
      ShapeNow(Poll);
      Yield(Poll);
      PollFifo(stopped);
      if !stopped {
        Work();
        HandedOut();
      }
    }

    /** The test at the end of a pass: line 422. */
    method CheckStop() returns (stop: bool)
      requires At(Tail)
      modifies `trace
      ensures stop == shouldStop(tick)
      ensures At(if stop then Drain else Poll)
      ensures Own() == old(Own()) + 1
    {
      stop := shouldStop(tick);
      Record(State(Tail), stop, if stop then Drain else Poll);
    }

    /** The stop flag was tested at these moments, the last of them just now if it was found set. */
    predicate Tested(tests: seq<nat>, running: bool) {
      if running then AllClear(tests)
      else tests != [] && AllClear(tests[..|tests| - 1]) && shouldStop(tests[|tests| - 1])
    }

    predicate AllClear(tests: seq<nat>) { forall k :: 0 <= k < |tests| ==> !shouldStop(tests[k]) }

    lemma TestedMore(tests: seq<nat>, more: seq<nat>, running: bool)
      requires Tested(tests, true) && Tested(more, running) && more != []
      ensures Tested(tests + more, running)
    {
      if !running { assert (tests + more)[..|tests + more| - 1] == tests + more[..|more| - 1]; }
    }

    /** A pass and the test at its end. */
    method Round() returns (running: bool, ghost pc: Pc, ghost tests: seq<nat>)
      requires At(Poll)
      modifies this
      ensures At(pc) && (running ==> Own() >= old(Own()) + 5)
      ensures Tested(tests, running) && (running ==> |tests| == 2)
      ensures tests != [] && tests[0] == old(tick) && (|tests| == 2 ==> tests[1] == tick)
      ensures if running then pc == Poll else pc == (if |tests| == 1 then Stopped else Drain)
      ensures |tests| == 2 ==> Topped(old(Enqueued(sh)), old(|sh.fifo|), old(Filled(sh.start, sh.end, |sh.buf|)))
    {
      tests := [tick];
      var stopped := Pass();
      running, pc := false, Stopped;
      if !stopped {
        tests := tests + [tick];
        var stop := CheckStop();
        running, pc := !stop, if stop then Drain else Poll;
      }
    }

    /** Rounds until one finds the flag set, at most `passes`. */
    method Rounds(passes: nat) returns (running: bool, ghost pc: Pc, ghost tests: seq<nat>)
      requires At(Poll)
      modifies this
      ensures Tested(tests, running) && (running ==> |tests| == 2 * passes && Own() >= old(Own()) + 5 * passes)
      ensures passes > 0 ==> tests != [] && tests[0] == old(tick)
      ensures At(pc) && (if running then pc == Poll else pc == Stopped || pc == Drain)
    {
      running, pc, tests := true, Poll, [];
      for i := 0 to passes
        invariant running && pc == Poll && At(Poll) && Own() >= old(Own()) + 5 * i
        invariant Tested(tests, true) && |tests| == 2 * i
        invariant if i == 0 then tick == old(tick) else tests[0] == old(tick)
      {
        ghost var more;
        running, pc, more := Round();
        TestedMore(tests, more, running);
        tests := tests + more;
        if !running { break; }
      }
    }

    /** The thread function, for any number of passes of its endless loop unless it is asked to
        stop: it tests for that at both ends of every pass and goes on exactly as long as it finds
        the flag clear. Whatever the others do, what it does is a run of the step system, with all
        the thread's steps of those passes, so the device receives what was written. */
    method Run(passes: nat) returns (running: bool, ghost tests: seq<nat>)
      requires At(Poll)
      modifies this
      ensures Tested(tests, running) && (running ==> |tests| == 2 * passes)
      ensures passes > 0 ==> tests != [] && tests[0] == old(tick)
      ensures running ==> At(Poll) && Own() >= old(Own()) + 5 * passes
      ensures !running ==> At(Stopped) || At(Drain)
      ensures sh.sent <= sh.written <= Asked(trace)
    {
      ghost var pc;
      running, pc, tests := Rounds(passes);
      StreamSafe(pc);
    }

    lemma StreamSafe(pc: Pc)
      requires At(pc)
      ensures sh.sent <= sh.written <= Asked(trace)
    {
      NothingLostOrReordered(blk, origin, trace, State(pc));
    }
  }
}
