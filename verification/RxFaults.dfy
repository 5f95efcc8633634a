/** What some schedule can still bring about on the receive path: which blocked reads return, when
    reception goes on, how passes that find no space (sw/langford_driver/langford.c:171, 228-237)
    end it, and what a drain through the space check (langford.c:196) does to the ring. */
module RxFaults {
  import opened Options
  import opened Divisors
  import opened Ring
  import opened RxStream

  lemma {:induction false} Concat(c: Config, s: Rx, a: seq<Action>, s1: Rx, b: seq<Action>)
    requires Shape(c, s) && Shape(c, s1) && Leads(c, s, a, s1)
    ensures Exec(c, s, a + b) == Exec(c, s1, b)
    decreases |b|
  {
    if b == [] {
      assert a + b == a;
    } else {
      Concat(c, s, a, s1, b[..|b| - 1]);
      assert (a + b)[..|a + b| - 1] == a + b[..|b| - 1];
    }
  }

  lemma Chain(c: Config, s: Rx, a: seq<Action>, s1: Rx, b: seq<Action>, s2: Rx)
    requires Shape(c, s) && Shape(c, s1) && Leads(c, s, a, s1) && Leads(c, s1, b, s2)
    ensures Leads(c, s, a + b, s2)
  {
    Concat(c, s, a, s1, b);
  }

  lemma One(c: Config, s: Rx, a: Action)
    requires Shape(c, s) && Step(c, s, a).Some?
    ensures Leads(c, s, [a], Step(c, s, a).value)
  {
    assert [a][..0] == [];
    assert Exec(c, s, [a][..0]) == Some(s);
  }

  /** Steps of the device and the receive thread only. */
  predicate Quiet(acts: seq<Action>) {
    forall a :: a in acts ==> a.DevicePop? || a.DeviceStore? || a.DeviceRetire? || a == ThreadStep(false)
  }

  /** Everything the device leaves alone. */
  predicate SameRing(s: Rx, s': Rx) {
    && s'.sh.buf == s.sh.buf && s'.sh.start == s.sh.start && s'.sh.end == s.sh.end
    && s'.sh.writeStart == s.sh.writeStart && s'.sh.writeEnd == s.sh.writeEnd && s'.sh.user == s.sh.user
    && s'.sh.drained == s.sh.drained && s'.sh.delivered == s.sh.delivered && s'.sh.roomy == s.sh.roomy
    && s'.th.skips == s.th.skips
  }

  predicate SameWriteRing(s: Rx, s': Rx) {
    s'.sh.writeStart == s.sh.writeStart && s'.sh.writeEnd == s.sh.writeEnd
  }

  lemma {:induction false} FinishFirst(c: Config, s: Rx) returns (acts: seq<Action>, s': Rx)
    requires Inv(c, s) && s.sh.transfers != []
    ensures Inv(c, s') && Leads(c, s, acts, s') && Quiet(acts) && SameRing(s, s') && s'.th == s.th
    ensures s'.sh.transfers == s.sh.transfers[1..] && s'.sh.fifo == s.sh.fifo && s'.sh.air == s.sh.air
    decreases c.blk - s.sh.transfers[0].done
  {
    var a := if s.sh.transfers[0].done == c.blk then DeviceRetire else DeviceStore(0);
    var s1 := Step(c, s, a).value;
    StepKeeps(c, s, a);
    One(c, s, a);
    if a == DeviceRetire {
      acts, s' := [a], s1;
    } else {
      var rest;
      rest, s' := FinishFirst(c, s1);
      acts := [a] + rest;
      Chain(c, s, [a], s1, rest, s');
    }
  }

  /** Left to itself, the device finishes every descriptor it was given. */
  lemma {:induction false} Flush(c: Config, s: Rx) returns (acts: seq<Action>, s': Rx)
    requires Inv(c, s)
    ensures Inv(c, s') && Leads(c, s, acts, s') && Quiet(acts) && SameRing(s, s') && s'.th == s.th
    ensures s'.sh.fifo == [] && s'.sh.transfers == [] && Enqueued(s'.sh) == Enqueued(s.sh)
    decreases |s.sh.fifo|, |s.sh.transfers|
  {
    var rest, s1;
    if s.sh.transfers != [] {
      acts, s1 := FinishFirst(c, s);
      rest, s' := Flush(c, s1);
      Chain(c, s, acts, s1, rest, s');
      acts := acts + rest;
    } else if s.sh.fifo != [] {
      var a := DevicePop(seq(c.blk, _ => 0));
      s1 := Step(c, s, a).value;
      StepKeeps(c, s, a);
      One(c, s, a);
      rest, s' := Flush(c, s1);
      Chain(c, s, [a], s1, rest, s');
      acts := [a] + rest;
    } else {
      acts, s' := [], s;
    }
  }

  lemma {:induction false} EnqueueAll(c: Config, s: Rx) returns (acts: seq<Action>, s': Rx)
    requires Inv(c, s) && s.th.pc == Enqueue
    ensures Inv(c, s') && Leads(c, s, acts, s') && Quiet(acts) && SameRing(s, s') && s'.th.pc == Drain
    ensures Enqueued(s'.sh) == Enqueued(s.sh) + s.th.buffsToWrite && s'.sh.air == s.sh.air
    ensures s'.sh.transfers == s.sh.transfers
    ensures s'.th.descComp == s.th.descComp + s.th.descActive - s.th.descLevel
    decreases s.th.buffsToWrite
  {
    var a := ThreadStep(false);
    var s1 := Step(c, s, a).value;
    StepKeeps(c, s, a);
    One(c, s, a);
    if s.th.buffsToWrite == 0 {
      acts, s' := [a], s1;
    } else {
      var rest;
      rest, s' := EnqueueAll(c, s1);
      acts := [a] + rest;
      Chain(c, s, [a], s1, rest, s');
    }
  }

  /** A pass that finds the device idle hands out every free slot, and counts as completed
      every slot that was out before it, except those skipped passes have given up. */
  lemma IdlePass(c: Config, s: Rx) returns (acts: seq<Action>, s': Rx)
    requires Inv(c, s) && s.th.pc == Poll && s.sh.fifo == []
    ensures Inv(c, s') && Leads(c, s, acts, s') && Quiet(acts) && SameRing(s, s') && s'.th.pc == Drain
    ensures s'.sh.air == s.sh.air && s'.sh.transfers == s.sh.transfers
    ensures Enqueued(s'.sh) == |s.sh.drained| + DMA_BUFFS - 1
    ensures s'.th.descComp == Enqueued(s.sh) - |s.sh.drained| - s.th.skips
  {
    var a := ThreadStep(false);
    var s1 := Step(c, s, a).value;
    StepKeeps(c, s, a);
    One(c, s, a);
    var s2 := Step(c, s1, a).value;
    StepKeeps(c, s1, a);
    One(c, s1, a);
    Chain(c, s, [a], s1, [a], s2);
    SlotGap(|s.sh.drained|, Enqueued(s.sh));
    var rest;
    rest, s' := EnqueueAll(c, s2);
    acts := [a] + [a] + rest;
    Chain(c, s, [a] + [a], s2, rest, s');
  }

  lemma NextPoll(c: Config, s: Rx) returns (acts: seq<Action>, s': Rx)
    requires Inv(c, s) && s.th.pc == Drain && s.th.descComp <= DESC_DELAY
    ensures Inv(c, s') && Leads(c, s, acts, s') && Quiet(acts) && SameRing(s, s') && s'.th.pc == Poll
    ensures Enqueued(s'.sh) == Enqueued(s.sh)
  {
    var a := ThreadStep(false);
    var s1 := Step(c, s, a).value;
    StepKeeps(c, s, a);
    One(c, s, a);
    s' := Step(c, s1, a).value;
    StepKeeps(c, s1, a);
    One(c, s1, a);
    Chain(c, s, [a], s1, [a], s');
    acts := [a] + [a];
  }

  lemma FlushAndPass(c: Config, s: Rx) returns (acts: seq<Action>, s': Rx)
    requires Inv(c, s) && s.th.pc == Poll
    ensures Inv(c, s') && Leads(c, s, acts, s') && Quiet(acts) && SameRing(s, s') && s'.th.pc == Drain
    ensures Enqueued(s'.sh) == |s.sh.drained| + DMA_BUFFS - 1
    ensures s'.th.descComp == Enqueued(s.sh) - |s.sh.drained| - s.th.skips
  {
    var a, s1 := Flush(c, s);
    var b;
    b, s' := IdlePass(c, s1);
    Chain(c, s, a, s1, b, s');
    acts := a + b;
  }

  /** Short of `MAX_SKIPS` skipped passes, the thread can always be brought to drain a block. */
  lemma ReachDrain(c: Config, s: Rx) returns (acts: seq<Action>, s': Rx)
    requires Inv(c, s) && (s.th.pc == Poll || s.th.pc == Drain) && s.th.skips < MAX_SKIPS
    ensures Inv(c, s') && Leads(c, s, acts, s') && Quiet(acts) && SameRing(s, s')
    ensures s'.th.pc == Drain && s'.th.descComp > DESC_DELAY
  {
    acts, s' := [], s;
    var more, s1;
    if s'.th.pc == Poll {
      acts, s' := FlushAndPass(c, s);
    }
    if s'.th.descComp <= DESC_DELAY {
      more, s1 := NextPoll(c, s');
      Chain(c, s, acts, s', more, s1);
      acts, s' := acts + more, s1;
      more, s1 := FlushAndPass(c, s');
      Chain(c, s, acts, s', more, s1);
      acts, s' := acts + more, s1;
    }
    if s'.th.descComp <= DESC_DELAY {
      more, s1 := NextPoll(c, s');
      Chain(c, s, acts, s', more, s1);
      acts, s' := acts + more, s1;
      more, s1 := FlushAndPass(c, s');
      Chain(c, s, acts, s', more, s1);
      acts, s' := acts + more, s1;
    }
  }

  /** The copy loop, run without interference from a checked start. */
  lemma {:induction false} CopyRun(c: Config, s: Rx) returns (acts: seq<Action>, s': Rx)
    requires Inv(c, s) && s.th.pc == Copy
    ensures Inv(c, s') && Leads(c, s, acts, s') && Quiet(acts) && s'.th.pc == Drain && s'.th.skips == s.th.skips
    ensures |s'.sh.buf| == |s.sh.buf| && s'.sh.start == s.sh.start && s'.sh.user == s.sh.user
    ensures SameWriteRing(s, s') && s'.sh.end == Wrap(s.sh.end + c.blk, |s.sh.buf|)
    ensures s'.sh.delivered == s.sh.delivered && s'.sh.roomy == s.sh.roomy
    ensures s'.sh.drained == s.sh.drained + [s.sh.slots[s.th.buffStart]]
    decreases c.blk - s.th.copied
  {
    var a := ThreadStep(false);
    var s1 := Step(c, s, a).value;
    StepKeeps(c, s, a);
    One(c, s, a);
    if s.th.copied == c.blk {
      acts, s' := [a], s1;
    } else {
      var rest;
      rest, s' := CopyRun(c, s1);
      acts := [a] + rest;
      Chain(c, s, [a], s1, rest, s');
    }
  }

  /** One drain that passes the check, run by the thread alone. */
  lemma DrainAlone(c: Config, s: Rx) returns (acts: seq<Action>, s': Rx)
    requires Inv(c, s) && s.th.pc == Drain && s.th.descComp > DESC_DELAY && Space(c, s.sh) > c.blk
    ensures Inv(c, s') && Leads(c, s, acts, s') && Quiet(acts) && s'.th.pc == Drain && s'.th.skips == s.th.skips
    ensures |s'.sh.buf| == |s.sh.buf| && s'.sh.start == s.sh.start && s'.sh.user == s.sh.user
    ensures SameWriteRing(s, s') && s'.sh.end == Wrap(s.sh.end + c.blk, |s.sh.buf|)
    ensures s'.sh.delivered == s.sh.delivered
    ensures s'.sh.roomy == (s.sh.roomy && Avail(s.sh.start, s.sh.end, |s.sh.buf|) >= c.blk)
    ensures s'.sh.drained == s.sh.drained + [s.sh.slots[s.th.buffStart]]
  {
    var a := ThreadStep(false);
    var s1 := Step(c, s, a).value;
    StepKeeps(c, s, a);
    One(c, s, a);
    var rest;
    rest, s' := CopyRun(c, s1);
    acts := [a] + rest;
    Chain(c, s, [a], s1, rest, s');
  }

  // ---- the space check ----

  predicate StreamIntact(sh: Shared)
    requires sh.start < |sh.buf| && sh.end < |sh.buf|
  {
    Flatten(sh.drained) == sh.delivered + Live(sh.buf, sh.start, sh.end)
  }

  /** Exactly when a drain is right: from any state reached with the stream intact and any
      passing check, a block drained without interference is appended to the unread bytes if
      and only if the ring it goes into has room for it. The intended check establishes that;
      the check in the code does not look at it. */
  lemma DrainRightIffRoom(c: Config, s: Rx) returns (acts: seq<Action>, s': Rx)
    requires Inv(c, s) && s.sh.roomy
    requires s.th.pc == Drain && s.th.descComp > DESC_DELAY && Space(c, s.sh) > c.blk
    ensures Inv(c, s') && Leads(c, s, acts, s') && Quiet(acts) && SameWriteRing(s, s')
    ensures s'.sh.drained == s.sh.drained + [s.sh.slots[s.th.buffStart]] && s'.sh.delivered == s.sh.delivered
    ensures StreamIntact(s'.sh) <==> c.blk <= Avail(s.sh.start, s.sh.end, |s.sh.buf|)
    ensures c.guard == TestsReadRing ==> c.blk <= Avail(s.sh.start, s.sh.end, |s.sh.buf|)
    ensures !StreamIntact(s'.sh) ==>
              |s'.sh.delivered| + Filled(s'.sh.start, s'.sh.end, |s'.sh.buf|) == |Flatten(s'.sh.drained)| - |s'.sh.buf|
    ensures s'.th.pc == Drain && s'.th.skips == s.th.skips && |s'.sh.buf| == |s.sh.buf|
    ensures StreamIntact(s'.sh) ==>
              && s'.sh.roomy
              && Avail(s'.sh.start, s'.sh.end, |s'.sh.buf|) == Avail(s.sh.start, s.sh.end, |s.sh.buf|) - c.blk
  {
    acts, s' := DrainAlone(c, s);
    FlattenSnoc(s.sh.drained, s.sh.slots[s.th.buffStart]);
  }

  /** One more block drained through a check on the transmit ring, while that ring stands still. */
  lemma DrainUnchecked(c: Config, s: Rx) returns (acts: seq<Action>, s': Rx)
    requires Inv(c, s) && (s.th.pc == Poll || s.th.pc == Drain) && s.th.skips < MAX_SKIPS && s.sh.roomy
    requires c.guard == TestsWriteRing && Space(c, s.sh) > c.blk
    ensures Inv(c, s') && Leads(c, s, acts, s') && Quiet(acts) && SameWriteRing(s, s')
    ensures s'.th.pc == Drain && s'.th.skips == s.th.skips
    ensures |s'.sh.drained| == |s.sh.drained| + 1 && |s'.sh.buf| == |s.sh.buf| && s'.sh.delivered == s.sh.delivered
    ensures var free := Avail(s.sh.start, s.sh.end, |s.sh.buf|);
            if c.blk <= free then s'.sh.roomy && Avail(s'.sh.start, s'.sh.end, |s'.sh.buf|) == free - c.blk
            else Lost(s'.sh)
  {
    var a, s1 := ReachDrain(c, s);
    var b;
    b, s' := DrainRightIffRoom(c, s1);
    acts := a + b;
    Chain(c, s, a, s1, b, s');
  }

  /** One ring's worth of drained bytes is neither delivered nor in the ring. */
  predicate Lost(sh: Shared)
    requires sh.start < |sh.buf| && sh.end < |sh.buf|
  {
    |sh.delivered| + Filled(sh.start, sh.end, |sh.buf|) == |Flatten(sh.drained)| - |sh.buf|
  }

  /** Nobody reading and the transmit ring standing still with room for a block, drains go on
      until a ring's worth of bytes is lost. */
  lemma {:induction false} FillUnchecked(c: Config, s: Rx) returns (acts: seq<Action>, s': Rx)
    requires Inv(c, s) && (s.th.pc == Poll || s.th.pc == Drain) && s.th.skips < MAX_SKIPS && s.sh.roomy
    requires c.guard == TestsWriteRing && Space(c, s.sh) > c.blk
    ensures Inv(c, s') && Leads(c, s, acts, s') && Quiet(acts) && SameWriteRing(s, s') && Lost(s'.sh)
    decreases Avail(s.sh.start, s.sh.end, |s.sh.buf|)
  {
    var a, s1 := DrainUnchecked(c, s);
    if c.blk <= Avail(s.sh.start, s.sh.end, |s.sh.buf|) {
      var b;
      b, s' := FillUnchecked(c, s1);
      Chain(c, s, a, s1, b, s');
      acts := a + b;
    } else {
      acts, s' := a, s1;
    }
  }

  // ---- one more block ----

  /** The thread has not been asked to stop. */
  predicate Running(s: Rx) { s.th.pc != Shutdown && s.th.pc != Stopped }

  /** From the middle of a pass the thread comes to its drain loop or to the next pass. */
  lemma Settle(c: Config, s: Rx) returns (acts: seq<Action>, s': Rx)
    requires Inv(c, s) && Running(s) && s.th.pc != Copy
    ensures Inv(c, s') && Leads(c, s, acts, s') && Quiet(acts) && SameRing(s, s')
    ensures s'.th.pc == Poll || s'.th.pc == Drain
  {
    var a := ThreadStep(false);
    if s.th.pc == Poll || s.th.pc == Drain {
      acts, s' := [], s;
    } else if s.th.pc == Enqueue {
      acts, s' := EnqueueAll(c, s);
    } else {
      var s1 := Step(c, s, a).value;
      StepKeeps(c, s, a);
      One(c, s, a);
      acts, s' := [a], s1;
      if s1.th.pc == Enqueue {
        var b;
        b, s' := EnqueueAll(c, s1);
        Chain(c, s, [a], s1, b, s');
        acts := [a] + b;
      }
    }
  }

  /** Short of `MAX_SKIPS`, a running thread can be brought to where it tests for space. */
  lemma ReachTest(c: Config, s: Rx) returns (acts: seq<Action>, s': Rx)
    requires Inv(c, s) && Running(s) && s.th.pc != Copy && s.th.skips < MAX_SKIPS
    ensures Inv(c, s') && Leads(c, s, acts, s') && Quiet(acts) && SameRing(s, s')
    ensures s'.th.pc == Drain && s'.th.descComp > DESC_DELAY
  {
    var a, s1 := Settle(c, s);
    var b;
    b, s' := ReachDrain(c, s1);
    acts := a + b;
    Chain(c, s, a, s1, b, s');
  }

  /** While there is space the device and the thread alone drain another block. */
  lemma DrainAnother(c: Config, s: Rx) returns (acts: seq<Action>, s': Rx)
    requires Inv(c, s) && Running(s) && s.th.skips < MAX_SKIPS && (s.th.pc == Copy || Space(c, s.sh) > c.blk)
    ensures Inv(c, s') && Leads(c, s, acts, s') && Quiet(acts) && SameWriteRing(s, s')
    ensures s'.th.pc == Drain && s'.th.skips == s.th.skips && |s'.sh.drained| == |s.sh.drained| + 1
    ensures |s'.sh.buf| == |s.sh.buf| && s'.sh.start == s.sh.start && s'.sh.user == s.sh.user
    ensures s'.sh.end == Wrap(s.sh.end + c.blk, |s.sh.buf|) && s'.sh.delivered == s.sh.delivered
  {
    if s.th.pc == Copy {
      acts, s' := CopyRun(c, s);
    } else {
      var a, s1 := ReachTest(c, s);
      var b;
      b, s' := DrainAlone(c, s1);
      acts := a + b;
      Chain(c, s, a, s1, b, s');
    }
  }

  // ---- the user ----

  /** A copy to the user, run to its end. */
  lemma {:induction false} FinishRead(c: Config, s: Rx) returns (acts: seq<Action>, s': Rx)
    requires Inv(c, s) && s.sh.user.Copying?
    ensures Inv(c, s') && Leads(c, s, acts, s') && s'.th == s.th
    ensures |s'.sh.delivered| == |s.sh.delivered| + s.sh.user.len
    ensures s'.sh == s.sh.(user := Idle, start := Wrap(s.sh.start + s.sh.user.len, |s.sh.buf|),
                           delivered := s'.sh.delivered)
    ensures forall a :: a in acts ==> !a.WriteRingMoves?
    decreases s.sh.user.len - |s.sh.user.got|
  {
    var a := if |s.sh.user.got| == s.sh.user.len then UserPublish else UserCopy;
    var s1 := Step(c, s, a).value;
    StepKeeps(c, s, a);
    One(c, s, a);
    if a == UserPublish {
      acts, s' := [a], s1;
    } else {
      var rest;
      rest, s' := FinishRead(c, s1);
      acts := [a] + rest;
      Chain(c, s, [a], s1, rest, s');
    }
  }

  /** A waiting read that finds enough, run to its end. */
  lemma ReturnRead(c: Config, s: Rx) returns (acts: seq<Action>, s': Rx)
    requires Inv(c, s) && s.sh.user.Waiting? && s.sh.user.len <= Filled(s.sh.start, s.sh.end, |s.sh.buf|)
    ensures Inv(c, s') && Leads(c, s, acts, s') && s'.th == s.th
    ensures |s'.sh.delivered| == |s.sh.delivered| + s.sh.user.len
    ensures s'.sh == s.sh.(user := Idle, start := Wrap(s.sh.start + s.sh.user.len, |s.sh.buf|),
                           delivered := s'.sh.delivered)
    ensures forall a :: a in acts ==> !a.WriteRingMoves?
  {
    var a := UserCheck;
    var s1 := Step(c, s, a).value;
    StepKeeps(c, s, a);
    One(c, s, a);
    var rest;
    rest, s' := FinishRead(c, s1);
    acts := [a] + rest;
    Chain(c, s, [a], s1, rest, s');
  }

  // ---- which reads return ----

  /** Some schedule lets the user's present call return. */
  ghost predicate CanReturn(c: Config, s: Rx)
    requires Shape(c, s)
  {
    exists acts :: Exec(c, s, acts).Some? && Exec(c, s, acts).value.sh.user.Idle?
  }

  /** A read of no more than what the ring holds when no further drain fits can be served: either
      there is enough, or there is space for another block. */
  lemma {:induction false} ServeRead(c: Config, s: Rx) returns (acts: seq<Action>, s': Rx)
    requires Sound(c, s) && Running(s) && s.th.skips < MAX_SKIPS && s.sh.user.Waiting?
    requires s.sh.user.len <= LongestRead(|s.sh.buf|, c.blk, |s.sh.delivered|)
    ensures Leads(c, s, acts, s') && s'.sh.user.Idle?
    decreases Avail(s.sh.start, s.sh.end, |s.sh.buf|)
  {
    var filled := Filled(s.sh.start, s.sh.end, |s.sh.buf|);
    if s.sh.user.len <= filled {
      acts, s' := ReturnRead(c, s);
    } else {
      FillForRead(c, s);
      assert Space(c, s.sh) > c.blk;
      var a, s1 := DrainAnother(c, s);
      ExecSound(c, s, a);
      var b;
      b, s' := ServeRead(c, s1);
      acts := a + b;
      Chain(c, s, a, s1, b, s');
    }
  }

  /** With the space check on the receive ring, and the thread running: a waiting read returns on
      some schedule if and only if the ring holds enough already, or its length is at most
      `LongestRead` and fewer than `MAX_SKIPS` passes were skipped. Otherwise it waits on every
      schedule. */
  lemma ReadReturnsIff(c: Config, s: Rx)
    requires Sound(c, s) && Running(s) && s.sh.user.Waiting?
    ensures CanReturn(c, s) <==>
              || s.sh.user.len <= Filled(s.sh.start, s.sh.end, |s.sh.buf|)
              || (s.th.skips < MAX_SKIPS && s.sh.user.len <= LongestRead(|s.sh.buf|, c.blk, |s.sh.delivered|))
  {
    var len := s.sh.user.len;
    if len <= Filled(s.sh.start, s.sh.end, |s.sh.buf|) {
      var acts, s' := ReturnRead(c, s);
      assert Exec(c, s, acts).value.sh.user.Idle?;
    } else if s.th.skips == MAX_SKIPS {
      forall acts | Exec(c, s, acts).Some? ensures !Exec(c, s, acts).value.sh.user.Idle? {
        WedgedReadWaits(c, s, acts, Exec(c, s, acts).value);
      }
    } else if len <= LongestRead(|s.sh.buf|, c.blk, |s.sh.delivered|) {
      var acts, s' := ServeRead(c, s);
      assert Exec(c, s, acts).value.sh.user.Idle?;
    } else {
      forall acts | Exec(c, s, acts).Some? ensures !Exec(c, s, acts).value.sh.user.Idle? {
        LongReadWaits(c, s, acts, Exec(c, s, acts).value);
      }
    }
  }

  /** Once reception is dead a read of more than the ring holds waits forever, under either check. */
  lemma {:induction false} WedgedReadWaits(c: Config, s0: Rx, acts: seq<Action>, s: Rx)
    requires Inv(c, s0) && s0.th.skips == MAX_SKIPS && Leads(c, s0, acts, s) && s0.sh.user.Waiting?
    requires s0.sh.user.len > Filled(s0.sh.start, s0.sh.end, |s0.sh.buf|)
    ensures Wedged(s) && s.sh.user == s0.sh.user && s.sh.delivered == s0.sh.delivered
    ensures s.sh.start == s0.sh.start && s.sh.end == s0.sh.end && |s.sh.buf| == |s0.sh.buf|
    decreases |acts|
  {
    if acts == [] {
      MaxSkipsWedge(c, s0);
    } else {
      var mid, a := Exec(c, s0, acts[..|acts| - 1]).value, acts[|acts| - 1];
      WedgedReadWaits(c, s0, acts[..|acts| - 1], mid);
      RefusedStep(c, mid, a);
      WedgedStep(c, mid, a);
      WedgedIndices(c, mid, a);
    }
  }

  lemma WedgedIndices(c: Config, s: Rx, a: Action)
    requires Shape(c, s) && Wedged(s) && Step(c, s, a).Some? && s.sh.user.Waiting?
    ensures var s' := Step(c, s, a).value; s'.sh.start == s.sh.start && s'.sh.end == s.sh.end
  {
  }

  // ---- reads under either check ----

  /** What a step makes of the indices while the read is refused: the fill stays, or the thread
      publishes a block. */
  lemma RefusedFill(c: Config, s: Rx, a: Action)
    requires Shape(c, s) && Step(c, s, a).Some? && s.sh.user.Waiting?
    requires s.sh.user.len > Filled(s.sh.start, s.sh.end, |s.sh.buf|)
    ensures var sh, sh' := s.sh, Step(c, s, a).value.sh;
            || Filled(sh'.start, sh'.end, |sh'.buf|) == Filled(sh.start, sh.end, |sh.buf|)
            || (a.ThreadStep? && s.th.pc == Copy && Step(c, s, a).value.th.pc != Copy &&
                Filled(sh'.start, sh'.end, |sh'.buf|) == Advance(Filled(sh.start, sh.end, |sh.buf|), c.blk, |sh.buf|))
  {
    RefusedIndices(c, s, a);
    FillAdvances(s.sh.start, s.sh.end, |s.sh.buf|, c.blk);
  }

  lemma RefusedIndices(c: Config, s: Rx, a: Action)
    requires Shape(c, s) && Step(c, s, a).Some? && s.sh.user.Waiting?
    requires s.sh.user.len > Filled(s.sh.start, s.sh.end, |s.sh.buf|)
    ensures var sh, s' := s.sh, Step(c, s, a).value;
            && s'.sh.start == sh.start && |s'.sh.buf| == |sh.buf|
            && (s'.sh.end == sh.end ||
                (a.ThreadStep? && s.th.pc == Copy && s'.th.pc != Copy && s'.sh.end == Wrap(sh.end + c.blk, |sh.buf|)))
  {
  }

  /** The most a ring can hold for a waiting read: blocks move its end round in one class modulo the
      greatest common divisor of capacity and block. */
  function MostHeld(cap: nat, blk: nat, filled: nat): int
    requires cap > 0
  {
    LargestInClass(cap, Gcd(cap, blk), filled)
  }

  predicate SameClass(cap: nat, blk: nat, f: nat, f': nat)
    requires cap > 0
  {
    f % Gcd(cap, blk) == f' % Gcd(cap, blk)
  }

  lemma ClassBounds(c: Config, s: Rx, s0: Rx)
    requires Shape(c, s) && Shape(c, s0) && |s.sh.buf| == |s0.sh.buf|
    requires SameClass(|s0.sh.buf|, c.blk, Filled(s.sh.start, s.sh.end, |s.sh.buf|),
                       Filled(s0.sh.start, s0.sh.end, |s0.sh.buf|))
    ensures Filled(s.sh.start, s.sh.end, |s.sh.buf|) <=
              MostHeld(|s0.sh.buf|, c.blk, Filled(s0.sh.start, s0.sh.end, |s0.sh.buf|))
  {
    var cap := |s0.sh.buf|;
    GcdDivides(cap, c.blk);
    LargestInClassIs(cap, Gcd(cap, c.blk), Filled(s0.sh.start, s0.sh.end, cap), Filled(s.sh.start, s.sh.end, cap));
  }

  /** The read of `s0` still waits, for the same number of bytes and in the same class. */
  predicate StillWaits(c: Config, s: Rx, s0: Rx)
    requires Shape(c, s) && Shape(c, s0)
  {
    && s0.sh.user.Waiting? && s.sh.user == s0.sh.user && |s.sh.buf| == |s0.sh.buf|
    && SameClass(|s0.sh.buf|, c.blk, Filled(s.sh.start, s.sh.end, |s.sh.buf|),
                 Filled(s0.sh.start, s0.sh.end, |s0.sh.buf|))
  }

  lemma LongerReadStep(c: Config, s: Rx, a: Action, s0: Rx)
    requires Shape(c, s) && Shape(c, s0) && StillWaits(c, s, s0) && Step(c, s, a).Some?
    requires s0.sh.user.len > MostHeld(|s0.sh.buf|, c.blk, Filled(s0.sh.start, s0.sh.end, |s0.sh.buf|))
    ensures StillWaits(c, Step(c, s, a).value, s0)
  {
    ClassBounds(c, s, s0);
    RefusedStep(c, s, a);
    RefusedFill(c, s, a);
    StepKeepsClass(|s.sh.buf|, c.blk, Filled(s.sh.start, s.sh.end, |s.sh.buf|));
  }

  /** Under either check a longer read never leaves the wait loop. */
  lemma {:induction false} LongerReadWaits(c: Config, s0: Rx, acts: seq<Action>, s: Rx)
    requires Shape(c, s0) && Leads(c, s0, acts, s) && s0.sh.user.Waiting?
    requires s0.sh.user.len > MostHeld(|s0.sh.buf|, c.blk, Filled(s0.sh.start, s0.sh.end, |s0.sh.buf|))
    ensures Shape(c, s) && StillWaits(c, s, s0)
    decreases |acts|
  {
    if acts != [] {
      var mid := Exec(c, s0, acts[..|acts| - 1]).value;
      LongerReadWaits(c, s0, acts[..|acts| - 1], mid);
      LongerReadStep(c, mid, acts[|acts| - 1], s0);
    }
  }

  /** A new read that finds enough begins to copy. */
  lemma StartRead(c: Config, s: Rx, len: nat) returns (acts: seq<Action>, s': Rx)
    requires Inv(c, s) && s.sh.user.Idle? && len <= Filled(s.sh.start, s.sh.end, |s.sh.buf|)
    ensures Inv(c, s') && Leads(c, s, acts, s') && s'.th == s.th && s'.sh == s.sh.(user := Copying(len, []))
    ensures forall a :: a in acts ==> !a.WriteRingMoves?
  {
    var a := UserBegin(len);
    var s1 := Step(c, s, a).value;
    StepKeeps(c, s, a);
    One(c, s, a);
    s' := Step(c, s1, UserCheck).value;
    StepKeeps(c, s1, UserCheck);
    One(c, s1, UserCheck);
    acts := [a] + [UserCheck];
    Chain(c, s, [a], s1, [UserCheck], s');
  }

  // ---- overlapping copies ----

  /** Byte `i` of the thread's copy and byte `j` of the user's have one index of the ring. */
  predicate SameIndex(sh: Shared, i: nat, j: nat)
    requires sh.start < |sh.buf| && sh.end < |sh.buf|
  {
    i < |sh.buf| && j < |sh.buf| && Wrap(sh.end + i, |sh.buf|) == Wrap(sh.start + j, |sh.buf|)
  }

  /** Both copies are under way and touch one index of the ring. */
  ghost predicate Overlap(c: Config, s: Rx)
    requires Shape(c, s)
  {
    && s.th.pc == Copy && s.sh.user.Copying?
    && exists i: nat, j: nat :: i < c.blk && j < s.sh.user.len && SameIndex(s.sh, i, j)
  }

  /** They do exactly when the ring holds less than the read takes, or a block more than its
      capacity. */
  lemma OverlapIff(c: Config, s: Rx)
    requires Shape(c, s) && s.th.pc == Copy && s.sh.user.Copying?
    ensures var filled := Filled(s.sh.start, s.sh.end, |s.sh.buf|);
            Overlap(c, s) <==> s.sh.user.len > 0 && (filled < s.sh.user.len || filled + c.blk > |s.sh.buf|)
  {
    var cap := |s.sh.buf|;
    var filled := Filled(s.sh.start, s.sh.end, cap);
    if s.sh.user.len > 0 && filled < s.sh.user.len {
      assert SameIndex(s.sh, 0, filled);
    } else if s.sh.user.len > 0 && filled + c.blk > cap {
      assert SameIndex(s.sh, cap - filled, 0);
    }
  }

  lemma StartCopy(c: Config, s: Rx) returns (acts: seq<Action>, s': Rx)
    requires Inv(c, s) && Running(s) && s.th.pc != Copy && s.th.skips < MAX_SKIPS && Space(c, s.sh) > c.blk
    ensures Leads(c, s, acts, s') && Quiet(acts) && s'.th.pc == Copy && s'.sh.user == s.sh.user
    ensures s'.sh.start == s.sh.start && s'.sh.end == s.sh.end && |s'.sh.buf| == |s.sh.buf|
  {
    var a, s1 := ReachTest(c, s);
    var b := ThreadStep(false);
    s' := Step(c, s1, b).value;
    One(c, s1, b);
    Chain(c, s, a, s1, [b], s');
    acts := a + [b];
  }

  /** Through a check on a ring that stands still, drains go on until they overlap a read that has
      not finished. */
  lemma {:induction false} DrainIntoRead(c: Config, s: Rx) returns (acts: seq<Action>, s': Rx)
    requires Inv(c, s) && Running(s) && s.th.pc != Copy && s.th.skips < MAX_SKIPS
    requires c.guard == TestsWriteRing && Space(c, s.sh) > c.blk && s.sh.user.Copying? && s.sh.user.len > 0
    ensures Leads(c, s, acts, s') && Quiet(acts) && Overlap(c, s')
    decreases (var filled := Filled(s.sh.start, s.sh.end, |s.sh.buf|); if filled == 0 then 0 else |s.sh.buf| - filled)
  {
    var filled := Filled(s.sh.start, s.sh.end, |s.sh.buf|);
    if filled == 0 || filled + c.blk > |s.sh.buf| {
      acts, s' := StartCopy(c, s);
      OverlapIff(c, s');
    } else {
      var a, s1 := DrainAnother(c, s);
      FillAdvances(s.sh.start, s.sh.end, |s.sh.buf|, c.blk);
      var b;
      b, s' := DrainIntoRead(c, s1);
      Chain(c, s, a, s1, b, s');
      acts := a + b;
    }
  }

  // ---- reception with the intended check ----

  /** Some schedule drains another block. */
  ghost predicate CanDrain(c: Config, s: Rx)
    requires Shape(c, s)
  {
    exists acts :: Exec(c, s, acts).Some? && |Exec(c, s, acts).value.sh.drained| > |s.sh.drained|
  }

  /** The ring is full up to less than a block and the waiting read wants more than it holds. */
  predicate Deadlocked(c: Config, s: Rx)
    requires Shape(c, s)
  {
    var filled := Filled(s.sh.start, s.sh.end, |s.sh.buf|);
    s.sh.user.Waiting? && s.sh.user.len > filled && filled + c.blk + 2 > |s.sh.buf|
  }

  /** The user reads all there is. */
  lemma EmptyRing(c: Config, s: Rx) returns (acts: seq<Action>, s': Rx)
    requires Sound(c, s) && s.sh.user.Idle?
    ensures Leads(c, s, acts, s') && s'.th == s.th && s'.sh.start == s'.sh.end && |s'.sh.buf| == |s.sh.buf|
    ensures s'.sh.drained == s.sh.drained && s'.sh.user.Idle?
    ensures forall a :: a in acts ==> !a.WriteRingMoves?
  {
    var a := UserBegin(Filled(s.sh.start, s.sh.end, |s.sh.buf|));
    var s1 := Step(c, s, a).value;
    SoundStep(c, s, a);
    One(c, s, a);
    var rest;
    rest, s' := ReturnRead(c, s1);
    acts := [a] + rest;
    Chain(c, s, [a], s1, rest, s');
    FilledMeaning(s.sh.start, s.sh.end, |s.sh.buf|, a.len);
  }

  /** The present read returns, if it can without another drain. */
  lemma FreeUser(c: Config, s: Rx) returns (acts: seq<Action>, s': Rx)
    requires Sound(c, s)
    requires s.sh.user.Waiting? ==> s.sh.user.len <= Filled(s.sh.start, s.sh.end, |s.sh.buf|)
    ensures Leads(c, s, acts, s') && s'.th == s.th && |s'.sh.buf| == |s.sh.buf|
    ensures s'.sh.drained == s.sh.drained && s'.sh.user.Idle?
    ensures forall a :: a in acts ==> !a.WriteRingMoves?
  {
    match s.sh.user {
      case Idle => acts, s' := [], s;
      case Waiting(_) => acts, s' := ReturnRead(c, s);
      case Copying(_, _) => acts, s' := FinishRead(c, s);
    }
  }

  /** Space can be made unless the waiting read prevents it. */
  lemma MakeSpace(c: Config, s: Rx) returns (acts: seq<Action>, s': Rx)
    requires Sound(c, s) && c.blk + 2 <= |s.sh.buf| && !Deadlocked(c, s)
    ensures Sound(c, s') && Leads(c, s, acts, s') && s'.th == s.th && s'.sh.drained == s.sh.drained
    ensures Space(c, s'.sh) > c.blk
    ensures forall a :: a in acts ==> !a.WriteRingMoves?
  {
    if Space(c, s.sh) > c.blk {
      acts, s' := [], s;
    } else {
      var a, s1 := FreeUser(c, s);
      ExecSound(c, s, a);
      var b;
      b, s' := EmptyRing(c, s1);
      ExecSound(c, s1, b);
      acts := a + b;
      Chain(c, s, a, s1, b, s');
    }
  }

  /** With the space check on the receive ring, and the thread running: another block is drained on
      some schedule if and only if fewer than `MAX_SKIPS` passes were skipped, a block and two
      bytes fit the ring, and the waiting read does not deadlock with the thread. */
  lemma AliveIntendedIff(c: Config, s: Rx)
    requires Sound(c, s) && Running(s)
    ensures CanDrain(c, s) <==> s.th.skips < MAX_SKIPS && c.blk + 2 <= |s.sh.buf| && !Deadlocked(c, s)
  {
    if s.th.skips == MAX_SKIPS {
      forall acts | Exec(c, s, acts).Some? ensures |Exec(c, s, acts).value.sh.drained| == |s.sh.drained| {
        WedgedForever(c, s, acts, Exec(c, s, acts).value);
      }
    } else if c.blk + 2 > |s.sh.buf| {
      forall acts | Exec(c, s, acts).Some? ensures |Exec(c, s, acts).value.sh.drained| == |s.sh.drained| {
        TooSmallNeverDrains(c, s, acts, Exec(c, s, acts).value);
      }
    } else if Deadlocked(c, s) {
      forall acts | Exec(c, s, acts).Some? ensures |Exec(c, s, acts).value.sh.drained| == |s.sh.drained| {
        DeadlockedForever(c, s, acts, Exec(c, s, acts).value);
      }
    } else {
      var acts, s' := DrainWhenPossible(c, s);
      assert Exec(c, s, acts).Some?;
    }
  }

  lemma DrainWhenPossible(c: Config, s: Rx) returns (acts: seq<Action>, s': Rx)
    requires Sound(c, s) && Running(s) && s.th.skips < MAX_SKIPS && c.blk + 2 <= |s.sh.buf| && !Deadlocked(c, s)
    ensures Leads(c, s, acts, s') && |s'.sh.drained| == |s.sh.drained| + 1
    ensures forall a :: a in acts ==> !a.WriteRingMoves?
  {
    var a, s1 := MakeSpace(c, s);
    var b;
    b, s' := DrainAnother(c, s1);
    acts := a + b;
    Chain(c, s, a, s1, b, s');
  }

  lemma {:induction false} DeadlockedForever(c: Config, s0: Rx, acts: seq<Action>, s: Rx)
    requires Sound(c, s0) && Deadlocked(c, s0) && Leads(c, s0, acts, s)
    ensures Sound(c, s) && Deadlocked(c, s) && s.sh.drained == s0.sh.drained
    decreases |acts|
  {
    if acts != [] {
      var mid, a := Exec(c, s0, acts[..|acts| - 1]).value, acts[|acts| - 1];
      DeadlockedForever(c, s0, acts[..|acts| - 1], mid);
      SoundStep(c, mid, a);
      DeadlockedStep(c, mid, a);
    }
  }

  lemma DeadlockedStep(c: Config, s: Rx, a: Action)
    requires Sound(c, s) && Deadlocked(c, s) && Step(c, s, a).Some?
    ensures var s' := Step(c, s, a).value; Deadlocked(c, s') && s'.sh.drained == s.sh.drained
  {
  }

  lemma {:induction false} TooSmallNeverDrains(c: Config, s0: Rx, acts: seq<Action>, s: Rx)
    requires Sound(c, s0) && c.blk + 2 > |s0.sh.buf| && Leads(c, s0, acts, s)
    ensures Sound(c, s) && |s.sh.buf| == |s0.sh.buf| && s.sh.drained == s0.sh.drained
    decreases |acts|
  {
    if acts != [] {
      var mid, a := Exec(c, s0, acts[..|acts| - 1]).value, acts[|acts| - 1];
      TooSmallNeverDrains(c, s0, acts[..|acts| - 1], mid);
      SoundStep(c, mid, a);
      TooSmallStep(c, mid, a);
    }
  }

  lemma TooSmallStep(c: Config, s: Rx, a: Action)
    requires Sound(c, s) && c.blk + 2 > |s.sh.buf| && Step(c, s, a).Some?
    ensures var s' := Step(c, s, a).value; |s'.sh.buf| == |s.sh.buf| && s'.sh.drained == s.sh.drained
  {
  }

  // ---- reception dies ----

  /** A pass through the drain loop that finds no space. */
  lemma SkipOne(c: Config, s: Rx) returns (acts: seq<Action>, s': Rx)
    requires Inv(c, s) && Running(s) && s.th.pc != Copy && s.th.skips < MAX_SKIPS && Space(c, s.sh) <= c.blk
    ensures Inv(c, s') && Leads(c, s, acts, s') && Quiet(acts) && SameWriteRing(s, s')
    ensures Running(s') && s'.th.pc != Copy && s'.th.skips == s.th.skips + 1 && s'.sh.buf == s.sh.buf
    ensures s'.sh.start == s.sh.start && s'.sh.end == s.sh.end
  {
    var a, s1 := ReachTest(c, s);
    var b := ThreadStep(false);
    s' := Step(c, s1, b).value;
    StepKeeps(c, s1, b);
    One(c, s1, b);
    Chain(c, s, a, s1, [b], s');
    acts := a + [b];
  }

  /** Without space, one pass after another is skipped until reception is dead. */
  lemma {:induction false} SkipAll(c: Config, s: Rx) returns (acts: seq<Action>, s': Rx)
    requires Inv(c, s) && Running(s) && s.th.pc != Copy && s.th.skips <= MAX_SKIPS && Space(c, s.sh) <= c.blk
    ensures Inv(c, s') && Leads(c, s, acts, s') && Quiet(acts) && s'.th.skips == MAX_SKIPS
    decreases MAX_SKIPS - s.th.skips
  {
    if s.th.skips == MAX_SKIPS {
      acts, s' := [], s;
    } else {
      var a, s1 := SkipOne(c, s);
      var b;
      b, s' := SkipAll(c, s1);
      acts := a + b;
      Chain(c, s, a, s1, b, s');
    }
  }

  /** With the space check on the receive ring and nobody reading, the ring fills and then
      reception dies: correcting the check alone does not prevent it. */
  lemma {:induction false} FillAndDie(c: Config, s: Rx) returns (acts: seq<Action>, s': Rx)
    requires Inv(c, s) && Running(s) && s.th.pc != Copy && s.th.skips < MAX_SKIPS && c.guard == TestsReadRing
    ensures Inv(c, s') && Leads(c, s, acts, s') && Quiet(acts) && s'.th.skips == MAX_SKIPS
    decreases Avail(s.sh.start, s.sh.end, |s.sh.buf|)
  {
    if Space(c, s.sh) <= c.blk {
      acts, s' := SkipAll(c, s);
    } else {
      var a, s1 := ReachTest(c, s);
      var b, s2 := DrainAlone(c, s1);
      Chain(c, s, a, s1, b, s2);
      var d;
      d, s' := FillAndDie(c, s2);
      acts := a + b + d;
      Chain(c, s, a + b, s2, d, s');
    }
  }

  /** So from every initial state some schedule in which nobody reads ends reception for good. */
  lemma ReceptionDies(c: Config, s0: Rx)
    requires Init(c, s0) && c.guard == TestsReadRing
    ensures exists acts :: Quiet(acts) && Exec(c, s0, acts).Some? && Exec(c, s0, acts).value.th.skips == MAX_SKIPS
  {
    InitInv(c, s0);
    var acts, s' := FillAndDie(c, s0);
    assert Quiet(acts) && Exec(c, s0, acts).Some?;
  }
}
