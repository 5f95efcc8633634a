/** `dev_read_task` (sw/langford_driver/langford.c:93-270) as the loop it is, proved to take
    only steps of `RxStream`, whichever ring its space check looks at. */
module RxThread {
  import opened Options
  import opened Ring
  import opened RxStream

  class ReadThread {
    const c: Config
    /** What the other parties do at each preemption, and when the thread is asked to stop. */
    const others: nat -> seq<Action>
    const shouldStop: nat -> bool
    var tick: nat

    var sh: Shared
    var buffStart: nat
    var buffEnd: nat
    var descLevel: int
    var descActive: int
    var descComp: int
    var buffsToWrite: int
    var copied: nat
    var skips: nat

    ghost const origin: Rx
    ghost var trace: seq<Action>

    ghost function State(pc: Pc): Rx
      reads this
    {
      Rx(sh, Thread(pc, buffStart, buffEnd, descLevel, descActive, descComp, buffsToWrite, copied, skips))
    }

    /** How many steps the thread has taken. */
    ghost function Own(): nat
      reads this
    {
      ThreadSteps(trace)
    }

    /** Everything done so far is a run of the step system that ends in the present state. */
    ghost predicate At(pc: Pc)
      reads this
    {
      Init(c, origin) && Leads(c, origin, trace, State(pc))
    }

    /** What this pass has handed out and settled at its end, as far as it can be told now. */
    ghost function Given(pc: Pc): int
      reads this
    {
      HandedOut(State(pc))
    }

    ghost function Done(pc: Pc): int
      reads this
    {
      Settled(State(pc))
    }

    /** No other party ever moves. */
    ghost predicate Alone() { forall t: nat :: others(t) == [] }

    /** The same is handed out as before, and no less settled; more only if someone else moves. */
    ghost predicate Kept(given: int, done: int, pc: Pc)
      reads this
    {
      Given(pc) == given && Done(pc) >= done && (Alone() ==> Done(pc) == done)
    }

    lemma Known(pc: Pc)
      requires At(pc)
      ensures DmaInv(c, State(pc))
    {
      Reachable(c, origin, trace, State(pc));
    }

    lemma ShapeNow(pc: Pc)
      requires At(pc)
      ensures SharedShape(c, sh) && buffStart < DMA_BUFFS && buffEnd < DMA_BUFFS && copied <= c.blk
    {
    }

    constructor (c: Config, sh: Shared, others: nat -> seq<Action>, shouldStop: nat -> bool)
      requires Init(c, Rx(sh, Thread(Poll, 0, 0, 0, 0, 0, 0, 0, 0)))
      ensures At(Poll) && this.c == c && this.sh == sh && trace == []
      ensures origin == Rx(sh, Thread(Poll, 0, 0, 0, 0, 0, 0, 0, 0))
    {
      this.c, this.others, this.shouldStop := c, others, shouldStop;
      this.sh, tick := sh, 0;
      buffStart, buffEnd, skips := 0, 0, 0;
      descLevel, descActive, descComp, buffsToWrite, copied := 0, 0, 0, 0, 0;
      origin := Rx(sh, Thread(Poll, 0, 0, 0, 0, 0, 0, 0, 0));
      trace := [];
    }

    /** One step of another party, if it can be taken. */
    method OtherStep(ghost pc: Pc, a: Action)
      requires At(pc) && SharedShape(c, sh)
      modifies `sh, `trace
      ensures At(pc) && SharedShape(c, sh) && sh.end == old(sh.end) && |sh.buf| == old(|sh.buf|)
      ensures Own() == old(Own()) && sh == AfterOther(c, old(sh), a)
      ensures Given(pc) == old(Given(pc)) && Done(pc) >= old(Done(pc))
    {
      var r := OthersStep(c, sh, a);
      if r.Some? {
        ghost var before := State(pc);
        Known(pc);
        PassOthers(c, before, a);
        sh := r.value;
        Extend(c, origin, trace, before, a, State(pc));
        CountSnoc(trace, a);
        trace := trace + [a];
      }
    }

    /** The other parties run. */
    method Yield(ghost pc: Pc)
      requires At(pc) && SharedShape(c, sh)
      modifies `sh, `trace, `tick
      ensures At(pc) && SharedShape(c, sh) && sh.end == old(sh.end) && |sh.buf| == old(|sh.buf|)
      ensures Own() == old(Own()) && tick == old(tick) + 1 && sh == OthersRun(c, old(sh), others(old(tick)))
      ensures Kept(old(Given(pc)), old(Done(pc)), pc)
    {
      var acts := others(tick);
      tick := tick + 1;
      for i := 0 to |acts|
        invariant At(pc) && SharedShape(c, sh) && sh.end == old(sh.end) && |sh.buf| == old(|sh.buf|)
        invariant tick == old(tick) + 1 && Own() == old(Own()) && sh == OthersRun(c, old(sh), acts[..i])
        invariant Given(pc) == old(Given(pc)) && Done(pc) >= old(Done(pc))
      {
        OthersRunNext(c, old(sh), acts, i);
        OtherStep(pc, acts[i]);
      }
      assert acts[..|acts|] == acts;
    }

    /** Records the thread's own step from `before` to the present state. */
    ghost method Record(before: Rx, stop: bool, pc: Pc)
      requires Init(c, origin) && Leads(c, origin, trace, before)
      requires Shape(c, before) && ThreadNext(c, before, stop) == Some(State(pc))
      modifies `trace
      ensures At(pc) && Own() == old(Own()) + 1
      ensures !stop && before.th.pc != Tail ==> Given(pc) == HandedOut(before) && Done(pc) == Settled(before)
    {
      Reachable(c, origin, trace, before);
      if !stop { PassThread(c, before); }
      Extend(c, origin, trace, before, ThreadStep(stop), State(pc));
      CountSnoc(trace, ThreadStep(stop));
      trace := trace + [ThreadStep(stop)];
    }

    /** Waits for room in the FIFO: lines 109-114. The wait is over at once, since the FIFO is
        never full. */
    method PollFifo(stop: bool)
      requires At(Poll)
      modifies `trace
      ensures At(if stop then Stopped else ReadLevel)
      ensures Own() == old(Own()) + 1
      ensures !stop ==> Given(ReadLevel) == old(Given(Poll)) && Done(ReadLevel) == old(Done(Poll))
    {
      SlotsAccountedFor(c, origin, trace, State(Poll));
      assert |sh.fifo| < DMA_DESCS;
      Record(State(Poll), stop, if stop then Stopped else ReadLevel);
    }

    /** Lines 116, 139-142. */
    method ReadFillLevel()
      requires At(ReadLevel)
      modifies `trace, `descLevel, `buffsToWrite
      ensures At(Enqueue) && buffsToWrite >= 0
      ensures Own() == old(Own()) + 1
      ensures Given(Enqueue) == old(Given(ReadLevel)) && Done(Enqueue) == old(Done(ReadLevel))
    {
      ghost var s := State(ReadLevel);
      descLevel := |sh.fifo|;
      var room, avail := DMA_DESCS - descLevel, Avail(buffStart, buffEnd, DMA_BUFFS);
      buffsToWrite := if room < avail then room else avail;
      Record(s, false, Enqueue);
      CountNonNegative();
    }

    lemma CountNonNegative()
      requires At(Enqueue)
      ensures buffsToWrite >= 0
    {
      Reachable(c, origin, trace, State(Enqueue));
    }

    /** Lines 146-157. */
    method EnqueueOne()
      requires At(Enqueue) && buffsToWrite > 0 && SharedShape(c, sh) && buffEnd < DMA_BUFFS
      modifies `sh, `trace, `buffEnd, `descActive, `descLevel, `buffsToWrite
      ensures At(Enqueue) && buffsToWrite == old(buffsToWrite) - 1
      ensures Own() == old(Own()) + 1
      ensures Given(Enqueue) == old(Given(Enqueue)) && Done(Enqueue) == old(Done(Enqueue))
    {
      ghost var s := State(Enqueue);
      sh := sh.(fifo := sh.fifo + [buffEnd]);
      buffEnd := (buffEnd + 1) % DMA_BUFFS;
      descActive := descActive + 1;
      descLevel := descLevel + 1;
      buffsToWrite := buffsToWrite - 1;
      assert EnqueueStep(c, s) == State(Enqueue);
      Record(s, false, Enqueue);
    }

    /** Lines 162-163. */
    method CountCompleted()
      requires At(Enqueue) && buffsToWrite == 0
      modifies `trace, `descActive, `descComp
      ensures At(Drain)
      ensures Own() == old(Own()) + 1
      ensures Given(Drain) == old(Given(Enqueue)) && Done(Drain) == old(Done(Enqueue))
    {
      ghost var s := State(Enqueue);
      descComp := descComp + (descActive - descLevel);
      descActive := descLevel;
      Record(s, false, Drain);
    }

    /** Hands every free slot to the device: lines 139-163. */
    method EnqueueLoop()
      requires At(Enqueue) && buffsToWrite >= 0
      modifies `sh, `trace, `tick, `buffEnd, `descActive, `descLevel, `buffsToWrite, `descComp
      ensures At(Drain)
      ensures Own() >= old(Own()) + 1 && Kept(old(Given(Enqueue)), old(Done(Enqueue)), Drain)
    {
      while buffsToWrite != 0
        invariant At(Enqueue) && buffsToWrite >= 0 && Own() >= old(Own())
        invariant Kept(old(Given(Enqueue)), old(Done(Enqueue)), Enqueue)
        decreases buffsToWrite
      {
        ShapeNow(Enqueue);
        Yield(Enqueue);
        ShapeNow(Enqueue);
        EnqueueOne();
      }
      CountCompleted();
    }

    /** The test made under the mutex: lines 195-196, 228-236. */
    method CheckSpace() returns (space: bool)
      requires At(Drain) && descComp > DESC_DELAY && SharedShape(c, sh)
      modifies `sh, `trace, `copied, `descComp, `skips
      ensures SharedShape(c, sh)
      ensures space ==> At(Copy) && copied == 0 && descComp == old(descComp)
      ensures !space ==> At(Drain) && descComp == old(descComp) - 1
      ensures Own() == old(Own()) + 1
      ensures Given(if space then Copy else Drain) == old(Given(Drain))
      ensures Done(if space then Copy else Drain) == old(Done(Drain))
    {
      ghost var s := State(Drain);
      space := Space(c, sh) > c.blk;
      if space {
        sh := sh.(roomy := sh.roomy && Avail(sh.start, sh.end, |sh.buf|) >= c.blk);
        copied := 0;
      } else {
        descComp := descComp - 1;
        skips := skips + 1;
      }
      Record(s, false, if space then Copy else Drain);
    }

    /** One byte of the copy out of the DMA slot. */
    method CopyByte(at: nat)
      requires At(Copy) && copied < c.blk
      requires SharedShape(c, sh) && buffStart < DMA_BUFFS && at < |sh.buf| && at == Wrap(sh.end + copied, |sh.buf|)
      modifies `sh, `trace, `copied
      ensures At(Copy) && copied == old(copied) + 1 && SharedShape(c, sh)
      ensures sh.end == old(sh.end) && |sh.buf| == old(|sh.buf|)
      ensures Own() == old(Own()) + 1
      ensures Given(Copy) == old(Given(Copy)) && Done(Copy) == old(Done(Copy))
    {
      ghost var s := State(Copy);
      sh := sh.(buf := sh.buf[at := sh.slots[buffStart][copied]]);
      copied := copied + 1;
      assert CopyStep(c, s) == State(Copy);
      Record(s, false, Copy);
    }

    /** One memcpy: `n` bytes to ring index `from`, not going past the end of the ring. */
    method Memcpy(n: nat, from: nat)
      requires At(Copy) && SharedShape(c, sh) && buffStart < DMA_BUFFS && copied + n <= c.blk && from + n <= |sh.buf|
      requires from < |sh.buf| ==> from == Wrap(sh.end + copied, |sh.buf|)
      modifies `sh, `trace, `tick, `copied
      ensures At(Copy) && SharedShape(c, sh) && copied == old(copied) + n
      ensures sh.end == old(sh.end) && |sh.buf| == old(|sh.buf|)
      ensures Own() == old(Own()) + n && Kept(old(Given(Copy)), old(Done(Copy)), Copy)
    {
      for k := 0 to n
        invariant Kept(old(Given(Copy)), old(Done(Copy)), Copy)
        invariant At(Copy) && Own() == old(Own()) + k && copied == old(copied) + k && SharedShape(c, sh)
        invariant sh.end == old(sh.end) && |sh.buf| == old(|sh.buf|)
      {
        Yield(Copy);
        CopyByte(from + k);
      }
    }

    /** Lines 215-217, and the loop's decrement. */
    method PublishBlock()
      requires At(Copy) && copied == c.blk && SharedShape(c, sh) && buffStart < DMA_BUFFS
      modifies `sh, `trace, `buffStart, `descComp
      ensures At(Drain) && descComp == old(descComp) - 1
      ensures Own() == old(Own()) + 1
      ensures Given(Drain) == old(Given(Copy)) && Done(Drain) == old(Done(Copy))
    {
      ghost var s := State(Copy);
      sh := sh.(end := Wrap(sh.end + c.blk, |sh.buf|), drained := sh.drained + [sh.slots[buffStart]]);
      buffStart := (buffStart + 1) % DMA_BUFFS;
      descComp := descComp - 1;
      assert CopyStep(c, s) == State(Drain);
      Record(s, false, Drain);
    }

    /** The two memcpy calls and what follows them: lines 199-217. */
    method CopyBlock()
      requires At(Copy) && copied == 0 && SharedShape(c, sh) && buffStart < DMA_BUFFS
      modifies `sh, `trace, `tick, `copied, `buffStart, `descComp
      ensures At(Drain) && descComp == old(descComp) - 1
      ensures Own() == old(Own()) + c.blk + 1 && Kept(old(Given(Copy)), old(Done(Copy)), Drain)
    {
      var cap := |sh.buf|;
      Memcpy(if c.blk < cap - sh.end then c.blk else cap - sh.end, sh.end);
      if sh.end + c.blk > cap {
        Memcpy(c.blk - cap + sh.end, 0);
      }
      Yield(Copy);
      PublishBlock();
    }

    /** Drains every block that completed more than `DESC_DELAY` descriptors ago, or gives its
        turn up when the check finds no space: lines 171-237. */
    method DrainLoop()
      requires At(Drain)
      modifies `sh, `trace, `tick, `copied, `buffStart, `descComp, `skips
      ensures At(Tail)
      ensures Own() >= old(Own()) + 1 && Kept(old(Given(Drain)), old(Done(Drain)), Tail)
    {
      while descComp > DESC_DELAY
        invariant At(Drain) && Own() >= old(Own()) && Kept(old(Given(Drain)), old(Done(Drain)), Drain)
        decreases descComp
      {
        ShapeNow(Drain);
        Yield(Drain);
        var space := CheckSpace();
        if space {
          ShapeNow(Copy);
          CopyBlock();
        }
      }
      Record(State(Drain), false, Tail);
    }

    /** Lines 116-243. */
    method Work()
      requires At(ReadLevel)
      modifies this
      ensures At(Tail) && Own() >= old(Own()) + 3 && Kept(old(Given(ReadLevel)), old(Done(ReadLevel)), Tail)
    {
      ShapeNow(ReadLevel);
      Yield(ReadLevel);
      ReadFillLevel();
      EnqueueLoop();
      DrainLoop();
    }

    /** Every slot but one whose block was drained before has been handed out; and of the blocks the
        device had taken by then all but the last four have been drained, or given up for lack of
        space: exactly those if nobody else moves. */
    ghost predicate Turned(drained: nat, given: nat, air: nat)
      reads this
    {
      && Enqueued(sh) == drained + 31
      && |sh.drained| + skips >= Most(drained + given, air - 4)
      && (Alone() ==> |sh.drained| + skips == Most(drained + given, air - 4))
    }

    /** One pass of the endless loop, up to its test for termination: lines 106-243. */
    method Pass() returns (stopped: bool)
      requires At(Poll)
      modifies this
      ensures stopped == shouldStop(old(tick))
      ensures At(if stopped then Stopped else Tail) && (!stopped ==> Own() >= old(Own()) + 4)
      ensures !stopped ==> Turned(old(|sh.drained|), old(skips), old(|sh.air|))
    {
      stopped := shouldStop(tick);
      ShapeNow(Poll);
      Yield(Poll);
      PollFifo(stopped);
      if !stopped { Work(); }
    }

    /** The test at the end of a pass: line 246. */
    method CheckStop() returns (stop: bool)
      requires At(Tail)
      modifies `trace
      ensures stop == shouldStop(tick)
      ensures At(if stop then Shutdown else Poll)
      ensures Own() == old(Own()) + 1
    {
      stop := shouldStop(tick);
      Record(State(Tail), stop, if stop then Shutdown else Poll);
    }

    /** The stop flag was tested at these moments, the last of them just now if it was found set. */
    predicate Tested(tests: seq<nat>, running: bool) {
      if running then AllClear(tests)
      else tests != [] && AllClear(tests[..|tests| - 1]) && shouldStop(tests[|tests| - 1])
    }

    predicate AllClear(tests: seq<nat>) { forall k :: 0 <= k < |tests| ==> !shouldStop(tests[k]) }

    lemma TestedMore(tests: seq<nat>, more: seq<nat>, running: bool)
      requires Tested(tests, true) && Tested(more, running) && more != []
      ensures Tested(tests + more, running)
    {
      if !running { assert (tests + more)[..|tests + more| - 1] == tests + more[..|more| - 1]; }
    }

    /** A pass and the test at its end. */
    method Round() returns (running: bool, ghost pc: Pc, ghost tests: seq<nat>)
      requires At(Poll)
      modifies this
      ensures At(pc) && (running ==> Own() >= old(Own()) + 5)
      ensures Tested(tests, running) && (running ==> |tests| == 2)
      ensures tests != [] && tests[0] == old(tick) && (|tests| == 2 ==> tests[1] == tick)
      ensures if running then pc == Poll else pc == (if |tests| == 1 then Stopped else Shutdown)
      ensures |tests| == 2 ==> Turned(old(|sh.drained|), old(skips), old(|sh.air|))
    {
      tests := [tick];
      var stopped := Pass();
      running, pc := false, Stopped;
      if !stopped {
        tests := tests + [tick];
        var stop := CheckStop();
        running, pc := !stop, if stop then Shutdown else Poll;
      }
    }

    /** Rounds until one finds the flag set, at most `passes`. */
    method Rounds(passes: nat) returns (running: bool, ghost pc: Pc, ghost tests: seq<nat>)
      requires At(Poll)
      modifies this
      ensures Tested(tests, running) && (running ==> |tests| == 2 * passes && Own() >= old(Own()) + 5 * passes)
      ensures passes > 0 ==> tests != [] && tests[0] == old(tick)
      ensures At(pc) && (if running then pc == Poll else pc == Stopped || pc == Shutdown)
    {
      running, pc, tests := true, Poll, [];
      for i := 0 to passes
        invariant running && pc == Poll && At(Poll) && Own() >= old(Own()) + 5 * i
        invariant Tested(tests, true) && |tests| == 2 * i
        invariant if i == 0 then tick == old(tick) else tests[0] == old(tick)
      {
        ghost var more;
        running, pc, more := Round();
        TestedMore(tests, more, running);
        tests := tests + more;
        if !running { break; }
      }
    }

    /** The thread function, for any number of passes of its endless loop unless it is asked to
        stop: it tests for that at both ends of every pass and goes on exactly as long as it finds
        the flag clear. Whatever the others do, what it does is a run of the step system, with all
        the thread's steps of those passes, so it drains what the device received. */
    method Run(passes: nat) returns (running: bool, ghost tests: seq<nat>)
      requires At(Poll)
      modifies this
      ensures Tested(tests, running) && (running ==> |tests| == 2 * passes)
      ensures passes > 0 ==> tests != [] && tests[0] == old(tick)
      ensures running ==> At(Poll) && Own() >= old(Own()) + 5 * passes
      ensures !running ==> At(Stopped) || At(Shutdown)
      ensures sh.drained <= Received(trace)
      ensures c.guard == TestsReadRing ==> sh.delivered <= Flatten(Received(trace))
    {
      ghost var pc;
      running, pc, tests := Rounds(passes);
      StreamSafe(pc);
    }

    lemma StreamSafe(pc: Pc)
      requires At(pc)
      ensures sh.drained <= Received(trace)
      ensures c.guard == TestsReadRing ==> sh.delivered <= Flatten(Received(trace))
    {
      DrainedIsReceived(c, origin, trace, State(pc));
      if c.guard == TestsReadRing { ReadsFollowReception(c, origin, trace, State(pc)); }
    }
  }
}
