/** What some schedule can still bring about on the transmit path: how far the ring drains, and
    which blocked writes return (sw/langford_driver/langford.c:331-418, 507-513). */
module TxFaults {
  import opened Options
  import opened Ring
  import opened TxStream

  lemma {:induction false} Concat(blk: nat, s: Tx, a: seq<Action>, s1: Tx, b: seq<Action>)
    requires Shape(blk, s) && Shape(blk, s1) && Leads(blk, s, a, s1)
    ensures Exec(blk, s, a + b) == Exec(blk, s1, b)
    decreases |b|
  {
    if b == [] {
      assert a + b == a;
    } else {
      Concat(blk, s, a, s1, b[..|b| - 1]);
      assert (a + b)[..|a + b| - 1] == a + b[..|b| - 1];
    }
  }

  lemma Chain(blk: nat, s: Tx, a: seq<Action>, s1: Tx, b: seq<Action>, s2: Tx)
    requires Shape(blk, s) && Shape(blk, s1) && Leads(blk, s, a, s1) && Leads(blk, s1, b, s2)
    ensures Leads(blk, s, a + b, s2)
  {
    Concat(blk, s, a, s1, b);
  }

  lemma One(blk: nat, s: Tx, a: Action)
    requires Shape(blk, s) && Step(blk, s, a).Some?
    ensures Leads(blk, s, [a], Step(blk, s, a).value)
  {
    assert [a][..0] == [];
    assert Exec(blk, s, [a][..0]) == Some(s);
  }

  /** Steps of the device and the transmit thread only. */
  predicate Quiet(acts: seq<Action>) {
    forall a :: a in acts ==> a.DevicePop? || a.DeviceRead? || a.DeviceRetire? || a == ThreadStep(false)
  }

  /** Everything the device leaves alone. */
  predicate SameRing(s: Tx, s': Tx) {
    && s'.sh.buf == s.sh.buf && s'.sh.start == s.sh.start && s'.sh.end == s.sh.end
    && s'.sh.user == s.sh.user && s'.sh.written == s.sh.written && s'.sh.taken == s.sh.taken
  }

  /** Everything of the device's that only it and a finished pass change. */
  predicate SameDevice(s: Tx, s': Tx) {
    s'.sh.fifo == s.sh.fifo && s'.sh.transfers == s.sh.transfers && s'.sh.retired == s.sh.retired
  }

  /** The thread has not been asked to stop. */
  predicate Running(s: Tx) { s.th.pc != Drain && s.th.pc != Stopped }

  // ---- the device ----

  lemma {:induction false} FinishFirst(blk: nat, s: Tx) returns (acts: seq<Action>, s': Tx)
    requires Inv(blk, s) && s.sh.transfers != []
    ensures Inv(blk, s') && Leads(blk, s, acts, s') && Quiet(acts) && SameRing(s, s') && s'.th == s.th
    ensures s'.sh.transfers == s.sh.transfers[1..] && s'.sh.fifo == s.sh.fifo
    decreases blk - |s.sh.transfers[0].got|
  {
    var a := if |s.sh.transfers[0].got| == blk then DeviceRetire else DeviceRead(0);
    var s1 := Step(blk, s, a).value;
    StepKeeps(blk, s, a);
    One(blk, s, a);
    if a == DeviceRetire {
      acts, s' := [a], s1;
    } else {
      var rest;
      rest, s' := FinishFirst(blk, s1);
      acts := [a] + rest;
      Chain(blk, s, [a], s1, rest, s');
    }
  }

  /** Left to itself, the device finishes every descriptor it was given. */
  lemma {:induction false} Flush(blk: nat, s: Tx) returns (acts: seq<Action>, s': Tx)
    requires Inv(blk, s)
    ensures Inv(blk, s') && Leads(blk, s, acts, s') && Quiet(acts) && SameRing(s, s') && s'.th == s.th
    ensures s'.sh.fifo == [] && s'.sh.transfers == []
    decreases |s.sh.fifo|, |s.sh.transfers|
  {
    var rest, s1;
    if s.sh.transfers != [] {
      acts, s1 := FinishFirst(blk, s);
      rest, s' := Flush(blk, s1);
      Chain(blk, s, acts, s1, rest, s');
      acts := acts + rest;
    } else if s.sh.fifo != [] {
      var a := DevicePop;
      s1 := Step(blk, s, a).value;
      StepKeeps(blk, s, a);
      One(blk, s, a);
      rest, s' := Flush(blk, s1);
      Chain(blk, s, [a], s1, rest, s');
      acts := [a] + rest;
    } else {
      acts, s' := [], s;
    }
  }

  // ---- the thread ----

  lemma ThreadOne(blk: nat, s: Tx) returns (acts: seq<Action>, s': Tx)
    requires Inv(blk, s) && Running(s)
    ensures Inv(blk, s') && Leads(blk, s, acts, s') && Quiet(acts) && ThreadNext(blk, s, false) == Some(s')
  {
    var a := ThreadStep(false);
    s' := Step(blk, s, a).value;
    StepKeeps(blk, s, a);
    One(blk, s, a);
    acts := [a];
  }

  lemma {:induction false} EnqueueAll(blk: nat, s: Tx) returns (acts: seq<Action>, s': Tx)
    requires Inv(blk, s) && s.th.pc == Enqueue
    ensures Inv(blk, s') && Leads(blk, s, acts, s') && Quiet(acts) && SameRing(s, s') && s'.th.pc == Tail
    ensures s'.sh.transfers == s.sh.transfers && s'.sh.retired == s.sh.retired
    decreases s.th.buffsToWrite
  {
    var s1;
    acts, s1 := ThreadOne(blk, s);
    if s.th.buffsToWrite == 0 {
      s' := s1;
    } else {
      var rest;
      rest, s' := EnqueueAll(blk, s1);
      Chain(blk, s, acts, s1, rest, s');
      acts := acts + rest;
    }
  }

  /** From the middle of a pass the thread comes to the next one, unless it can go on refilling. */
  lemma Settle(blk: nat, s: Tx) returns (acts: seq<Action>, s': Tx)
    requires Inv(blk, s) && Running(s) && s.th.pc != Copy && s.th.pc != ReadLevel
    requires s.th.pc == Refill ==> s.th.descComp <= DESC_DELAY
    ensures Inv(blk, s') && Leads(blk, s, acts, s') && Quiet(acts) && SameRing(s, s') && s'.th.pc == Poll
  {
    acts, s' := [], s;
    var more, s1;
    if s'.th.pc == Refill {
      more, s1 := ThreadOne(blk, s');
      Chain(blk, s, acts, s', more, s1);
      acts, s' := acts + more, s1;
    }
    if s'.th.pc == Enqueue {
      more, s1 := EnqueueAll(blk, s');
      Chain(blk, s, acts, s', more, s1);
      acts, s' := acts + more, s1;
    }
    if s'.th.pc == Tail {
      more, s1 := ThreadOne(blk, s');
      Chain(blk, s, acts, s', more, s1);
      acts, s' := acts + more, s1;
    }
  }

  predicate Testing(s: Tx) { s.th.pc == Refill && s.th.descComp > DESC_DELAY }

  /** With the device idle a pass finds all slots free to refill. */
  lemma LevelRead(blk: nat, s: Tx) returns (acts: seq<Action>, s': Tx)
    requires Inv(blk, s) && s.th.pc == ReadLevel
    ensures Inv(blk, s') && Leads(blk, s, acts, s') && Quiet(acts) && SameRing(s, s') && Testing(s')
  {
    var a, s1 := Flush(blk, s);
    var b;
    b, s' := ThreadOne(blk, s1);
    Chain(blk, s, a, s1, b, s');
    acts := a + b;
  }

  lemma NextPass(blk: nat, s: Tx) returns (acts: seq<Action>, s': Tx)
    requires Inv(blk, s) && Running(s) && s.th.pc != Copy && s.th.pc != ReadLevel && !Testing(s)
    ensures Inv(blk, s') && Leads(blk, s, acts, s') && Quiet(acts) && SameRing(s, s') && s'.th.pc == ReadLevel
  {
    var a, s1 := Settle(blk, s);
    var b;
    b, s' := ThreadOne(blk, s1);
    Chain(blk, s, a, s1, b, s');
    acts := a + b;
  }

  /** A running thread can be brought to where it tests for data. */
  lemma ReachTest(blk: nat, s: Tx) returns (acts: seq<Action>, s': Tx)
    requires Inv(blk, s) && Running(s) && s.th.pc != Copy
    ensures Inv(blk, s') && Leads(blk, s, acts, s') && Quiet(acts) && SameRing(s, s') && Testing(s')
  {
    if Testing(s) {
      acts, s' := [], s;
    } else if s.th.pc == ReadLevel {
      acts, s' := LevelRead(blk, s);
    } else {
      var a, s1 := NextPass(blk, s);
      var b;
      b, s' := LevelRead(blk, s1);
      Chain(blk, s, a, s1, b, s');
      acts := a + b;
    }
  }

  /** The copy loop, run to its end. */
  lemma {:induction false} CopyRun(blk: nat, s: Tx) returns (acts: seq<Action>, s': Tx)
    requires Inv(blk, s) && s.th.pc == Copy
    ensures Inv(blk, s') && Leads(blk, s, acts, s') && Quiet(acts) && s'.th.pc == Refill
    ensures s'.sh.buf == s.sh.buf && s'.sh.start == Wrap(s.sh.start + blk, |s.sh.buf|) && s'.sh.end == s.sh.end
    ensures s'.sh.user == s.sh.user && s'.sh.written == s.sh.written
    ensures SameDevice(s, s') && |s'.sh.taken| == |s.sh.taken| + 1
    decreases blk - s.th.copied
  {
    var s1;
    acts, s1 := ThreadOne(blk, s);
    if s.th.copied == blk {
      s' := s1;
    } else {
      var rest;
      rest, s' := CopyRun(blk, s1);
      Chain(blk, s, acts, s1, rest, s');
      acts := acts + rest;
    }
  }

  /** A test that finds more than a block leads to the copy. */
  lemma ReachCopy(blk: nat, s: Tx) returns (acts: seq<Action>, s': Tx)
    requires Inv(blk, s) && Running(s) && Filled(s.sh.start, s.sh.end, |s.sh.buf|) > blk
    ensures Inv(blk, s') && Leads(blk, s, acts, s') && Quiet(acts) && SameRing(s, s') && s'.th.pc == Copy
  {
    if s.th.pc == Copy {
      acts, s' := [], s;
    } else {
      var a, s1 := ReachTest(blk, s);
      var b;
      b, s' := ThreadOne(blk, s1);
      Chain(blk, s, a, s1, b, s');
      acts := a + b;
    }
  }

  /** While the ring holds more than a block, the device and the thread alone take one from it. */
  lemma TakeBlock(blk: nat, s: Tx) returns (acts: seq<Action>, s': Tx)
    requires Inv(blk, s) && Running(s) && Filled(s.sh.start, s.sh.end, |s.sh.buf|) > blk
    ensures Inv(blk, s') && Leads(blk, s, acts, s') && Quiet(acts) && Running(s')
    ensures s'.sh.user == s.sh.user && s'.sh.written == s.sh.written && |s'.sh.buf| == |s.sh.buf|
    ensures s'.sh.start == Wrap(s.sh.start + blk, |s.sh.buf|)
    ensures Filled(s'.sh.start, s'.sh.end, |s'.sh.buf|) == Filled(s.sh.start, s.sh.end, |s.sh.buf|) - blk
  {
    var a, s1 := ReachCopy(blk, s);
    var b;
    b, s' := CopyRun(blk, s1);
    Chain(blk, s, a, s1, b, s');
    acts := a + b;
    PublishStart(s.sh.buf, s.sh.start, s.sh.end, blk);
  }

  /** So they bring it down to a block or less. */
  lemma {:induction false} DrainDown(blk: nat, s: Tx) returns (acts: seq<Action>, s': Tx)
    requires Inv(blk, s) && Running(s)
    ensures Inv(blk, s') && Leads(blk, s, acts, s') && Quiet(acts) && Running(s')
    ensures s'.sh.user == s.sh.user && s'.sh.written == s.sh.written && |s'.sh.buf| == |s.sh.buf|
    ensures Filled(s'.sh.start, s'.sh.end, |s'.sh.buf|) <= blk
    decreases Filled(s.sh.start, s.sh.end, |s.sh.buf|)
  {
    if Filled(s.sh.start, s.sh.end, |s.sh.buf|) <= blk {
      acts, s' := [], s;
    } else {
      var a, s1 := TakeBlock(blk, s);
      var b;
      b, s' := DrainDown(blk, s1);
      acts := a + b;
      Chain(blk, s, a, s1, b, s');
    }
  }

  // ---- the user ----

  /** A copy from the user, run to its end. */
  lemma {:induction false} FinishWrite(blk: nat, s: Tx) returns (acts: seq<Action>, s': Tx)
    requires Inv(blk, s) && s.sh.user.Copying?
    ensures Inv(blk, s') && Leads(blk, s, acts, s') && s'.th == s.th && OnlyUser(acts)
    ensures s'.sh.user.Idle? && s'.sh.start == s.sh.start && |s'.sh.buf| == |s.sh.buf|
    ensures s'.sh.written == s.sh.written + s.sh.user.data && s'.sh.taken == s.sh.taken
    ensures SameDevice(s, s')
    ensures Filled(s'.sh.start, s'.sh.end, |s'.sh.buf|) == Filled(s.sh.start, s.sh.end, |s.sh.buf|) + |s.sh.user.data|
    decreases |s.sh.user.data| - s.sh.user.copied
  {
    var a := if s.sh.user.copied == |s.sh.user.data| then UserPublish else UserCopy;
    var s1 := Step(blk, s, a).value;
    StepKeeps(blk, s, a);
    One(blk, s, a);
    if a == UserPublish {
      acts, s' := [a], s1;
      PublishEnd(s.sh.buf, s.sh.start, s.sh.end, s.sh.user.data);
    } else {
      var rest;
      rest, s' := FinishWrite(blk, s1);
      acts := [a] + rest;
      Chain(blk, s, [a], s1, rest, s');
    }
  }

  predicate OnlyUser(acts: seq<Action>) { forall a :: a in acts ==> OfUser(a) }

  /** A waiting write that finds room, run to its end. */
  lemma ReturnWrite(blk: nat, s: Tx) returns (acts: seq<Action>, s': Tx)
    requires Inv(blk, s) && s.sh.user.Waiting? && |s.sh.user.data| <= Avail(s.sh.start, s.sh.end, |s.sh.buf|)
    ensures Inv(blk, s') && Leads(blk, s, acts, s') && s'.th == s.th && OnlyUser(acts)
    ensures s'.sh.user.Idle? && s'.sh.start == s.sh.start && |s'.sh.buf| == |s.sh.buf|
    ensures s'.sh.written == s.sh.written + s.sh.user.data && s'.sh.taken == s.sh.taken
    ensures SameDevice(s, s')
    ensures Filled(s'.sh.start, s'.sh.end, |s'.sh.buf|) == Filled(s.sh.start, s.sh.end, |s.sh.buf|) + |s.sh.user.data|
  {
    var a := UserCheck;
    var s1 := Step(blk, s, a).value;
    StepKeeps(blk, s, a);
    One(blk, s, a);
    var rest;
    rest, s' := FinishWrite(blk, s1);
    acts := [a] + rest;
    Chain(blk, s, [a], s1, rest, s');
  }

  /** A new write that finds room, run to its end. */
  lemma WriteMore(blk: nat, s: Tx, n: nat) returns (acts: seq<Action>, s': Tx)
    requires Inv(blk, s) && s.sh.user.Idle? && n <= Avail(s.sh.start, s.sh.end, |s.sh.buf|)
    ensures Inv(blk, s') && Leads(blk, s, acts, s') && s'.th == s.th && s'.sh.user.Idle?
    ensures s'.sh.start == s.sh.start && |s'.sh.buf| == |s.sh.buf| && |s'.sh.written| == |s.sh.written| + n
    ensures SameDevice(s, s') && s'.sh.taken == s.sh.taken
    ensures Filled(s'.sh.start, s'.sh.end, |s'.sh.buf|) == Filled(s.sh.start, s.sh.end, |s.sh.buf|) + n
  {
    var a := UserBegin(Bytes(n));
    var s1 := Step(blk, s, a).value;
    StepKeeps(blk, s, a);
    One(blk, s, a);
    var rest;
    rest, s' := ReturnWrite(blk, s1);
    acts := [a] + rest;
    Chain(blk, s, [a], s1, rest, s');
  }

  /** The writer's present call returns, if it can, and the ring goes down to a block or less. */
  lemma FreeWriter(blk: nat, s: Tx) returns (acts: seq<Action>, s': Tx)
    requires Inv(blk, s) && HoldsBack(s) && Running(s)
    requires s.sh.user.Waiting? ==> |s.sh.user.data| <= LongestWrite(|s.sh.buf|, blk, |s.sh.written|)
    ensures Inv(blk, s') && Leads(blk, s, acts, s') && Running(s') && s'.sh.user.Idle?
    ensures |s'.sh.buf| == |s.sh.buf| && Filled(s'.sh.start, s'.sh.end, |s'.sh.buf|) <= blk
  {
    var a, s1 := DrainDown(blk, s);
    var b, s2 := ReturnAny(blk, s, a, s1);
    Chain(blk, s, a, s1, b, s2);
    var d;
    d, s' := DrainDown(blk, s2);
    Chain(blk, s, a + b, s2, d, s');
    acts := a + b + d;
  }

  lemma ReturnAny(blk: nat, s: Tx, down: seq<Action>, s1: Tx) returns (acts: seq<Action>, s': Tx)
    requires Inv(blk, s) && HoldsBack(s) && Leads(blk, s, down, s1) && Inv(blk, s1) && Running(s1)
    requires s1.sh.user == s.sh.user && s1.sh.written == s.sh.written && |s1.sh.buf| == |s.sh.buf|
    requires Filled(s1.sh.start, s1.sh.end, |s1.sh.buf|) <= blk
    requires s.sh.user.Waiting? ==> |s.sh.user.data| <= LongestWrite(|s.sh.buf|, blk, |s.sh.written|)
    ensures Inv(blk, s') && Leads(blk, s1, acts, s') && Running(s') && s'.sh.user.Idle? && |s'.sh.buf| == |s.sh.buf|
  {
    ExecHoldsBack(blk, s, down);
    match s.sh.user {
      case Idle => acts, s' := [], s1;
      case Waiting(_) =>
        RoomForWrite(blk, s1);
        acts, s' := ReturnWrite(blk, s1);
      case Copying(_, _) => acts, s' := FinishWrite(blk, s1);
    }
  }

  /** Writes and drains bring the end of the ring round to where its start is now. */
  lemma GoRound(blk: nat, s: Tx) returns (acts: seq<Action>, s': Tx)
    requires Inv(blk, s) && Running(s) && s.sh.user.Idle? && blk + 2 <= |s.sh.buf|
    requires Filled(s.sh.start, s.sh.end, |s.sh.buf|) <= blk
    ensures Inv(blk, s') && Leads(blk, s, acts, s') && Running(s') && s'.sh.user.Idle? && |s'.sh.buf| == |s.sh.buf|
    ensures s'.sh.end == s.sh.start
  {
    var cap := |s.sh.buf|;
    var a, s1 := WriteMore(blk, s, blk + 1 - Filled(s.sh.start, s.sh.end, cap));
    var b, s2 := TakeBlock(blk, s1);
    Chain(blk, s, a, s1, b, s2);
    var d;
    d, s' := AfterTake(blk, s2);
    Chain(blk, s, a + b, s2, d, s');
    acts := a + b + d;
    CameRound(s.sh.start, s'.sh.start, s'.sh.end, cap, blk);
  }

  lemma AfterTake(blk: nat, s: Tx) returns (acts: seq<Action>, s': Tx)
    requires Inv(blk, s) && Running(s) && s.sh.user.Idle? && blk + 2 <= |s.sh.buf|
    requires Filled(s.sh.start, s.sh.end, |s.sh.buf|) == 1
    ensures Inv(blk, s') && Leads(blk, s, acts, s') && Running(s') && s'.sh.user.Idle? && |s'.sh.buf| == |s.sh.buf|
    ensures s'.sh.start == s.sh.start && Filled(s'.sh.start, s'.sh.end, |s'.sh.buf|) == |s.sh.buf| - blk
  {
    acts, s' := WriteMore(blk, s, |s.sh.buf| - blk - 1);
  }

  lemma CameRound(from: nat, start: nat, end: nat, cap: nat, blk: nat)
    requires from < cap && end < cap && 0 < blk < cap && start == Wrap(from + blk, cap)
    requires Filled(start, end, cap) == cap - blk
    ensures end == from
  {
  }

  function Bytes(n: nat): seq<Byte> { seq(n, _ => 0) }

  /** The user writes `n` bytes into the empty ring while nothing else runs. */
  lemma WriteFirst(blk: nat, s: Tx, n: nat) returns (acts: seq<Action>, s': Tx)
    requires Init(blk, s) && n < |s.sh.buf|
    ensures Inv(blk, s') && Leads(blk, s, acts, s') && s'.th == s.th && |s'.sh.buf| == |s.sh.buf|
    ensures s'.sh.user.Idle? && |s'.sh.written| == Filled(s'.sh.start, s'.sh.end, |s'.sh.buf|) == n
    ensures SameDevice(s, s') && s'.sh.taken == s.sh.taken
  {
    InitInv(blk, s);
    acts, s' := WriteMore(blk, s, n);
  }

  // ---- which writes return ----

  /** Some schedule lets the user's present call return. */
  ghost predicate CanReturn(blk: nat, s: Tx)
    requires Shape(blk, s)
  {
    exists acts :: Exec(blk, s, acts).Some? && Exec(blk, s, acts).value.sh.user.Idle?
  }

  /** With the thread running: a waiting write returns on some schedule if and only if it is no
      longer than `LongestWrite`. Otherwise it waits on every schedule. */
  lemma WriteReturnsIff(blk: nat, s: Tx)
    requires Inv(blk, s) && HoldsBack(s) && Running(s) && s.sh.user.Waiting?
    ensures CanReturn(blk, s) <==> |s.sh.user.data| <= LongestWrite(|s.sh.buf|, blk, |s.sh.written|)
  {
    if |s.sh.user.data| <= LongestWrite(|s.sh.buf|, blk, |s.sh.written|) {
      var a, s1 := DrainDown(blk, s);
      ExecHoldsBack(blk, s, a);
      RoomForWrite(blk, s1);
      var b, s2 := ReturnWrite(blk, s1);
      Chain(blk, s, a, s1, b, s2);
      assert Exec(blk, s, a + b).value.sh.user.Idle?;
    } else {
      forall acts | Exec(blk, s, acts).Some? ensures !Exec(blk, s, acts).value.sh.user.Idle? {
        LongWriteWaits(blk, s, acts, Exec(blk, s, acts).value);
      }
    }
  }

  lemma {:induction false} ExecHoldsBack(blk: nat, s: Tx, acts: seq<Action>)
    requires Inv(blk, s) && HoldsBack(s) && Exec(blk, s, acts).Some?
    ensures Inv(blk, Exec(blk, s, acts).value) && HoldsBack(Exec(blk, s, acts).value)
    decreases |acts|
  {
    if acts != [] {
      var mid := Exec(blk, s, acts[..|acts| - 1]).value;
      ExecHoldsBack(blk, s, acts[..|acts| - 1]);
      HoldsBackStep(blk, mid, acts[|acts| - 1]);
      StepKeeps(blk, mid, acts[|acts| - 1]);
    }
  }
}
