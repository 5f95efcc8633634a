/** Both halves of the streaming engine at once: the space check of `dev_read_task` as it is written
    (sw/langford_driver/langford.c:196) reads the indices that `cdev_write` and `dev_write_task`
    move (lines 358, 525). It holds the mutex of the other ring while it does, so the two may be of
    different moments. */
module Duplex {
  import opened Options
  import opened Ring
  import V = Divisors
  import T = TxStream
  import R = RxStream
  import TF = TxFaults
  import RF = RxFaults

  /** Besides the two halves: what the receive thread has read so far of the transmit ring's indices
      for the check it is about to make. */
  datatype Both = Both(tx: T.Tx, rx: R.Rx, start: Option<nat>, end: Option<nat>)

  datatype Move = Transmit(t: T.Action) | ReadStart | ReadEnd | Receive(r: R.Action)

  /** Rings of one capacity and one block size. */
  predicate Shape(c: R.Config, s: Both) {
    && T.Shape(c.blk, s.tx) && R.Shape(c, s.rx) && |s.tx.sh.buf| == |s.rx.sh.buf|
    && (s.start.Some? ==> s.start.value < |s.rx.sh.buf|) && (s.end.Some? ==> s.end.value < |s.rx.sh.buf|)
  }

  /** The thread's next step is the check as written. */
  predicate AtCheck(c: R.Config, rx: R.Rx) {
    c.guard == R.TestsWriteRing && rx.th.pc == R.Drain && rx.th.descComp > R.DESC_DELAY
  }

  /** The receive side with these values for the transmit ring's indices. */
  function Seeing(rx: R.Rx, start: nat, end: nat): R.Rx {
    rx.(sh := rx.sh.(writeStart := start, writeEnd := end))
  }

  /** What it would see at this moment. */
  function View(s: Both): R.Rx { Seeing(s.rx, s.tx.sh.start, s.tx.sh.end) }

  /** The thread has read neither index. */
  predicate Fresh(s: Both) { s.start.None? && s.end.None? }

  function TransmitStep(c: R.Config, s: Both, a: T.Action): (r: Option<Both>)
    requires Shape(c, s)
    ensures r.Some? ==> Shape(c, r.value)
  {
    var tx := T.Step(c.blk, s.tx, a);
    if tx.None? then None else
    TransmitSize(c.blk, s.tx, a);
    Some(s.(tx := tx.value))
  }

  function ReceiveStep(c: R.Config, s: Both, a: R.Action): (r: Option<Both>)
    requires Shape(c, s)
    ensures r.Some? ==> Shape(c, r.value)
  {
    if a.WriteRingMoves? then None
    else if a.ThreadStep? && AtCheck(c, s.rx) then
      if s.start.None? || s.end.None? then None else
      var seen := Seeing(s.rx, s.start.value, s.end.value);
      var rx := R.Step(c, seen, a);
      if rx.None? then None else
      ReceiveSees(c, seen, a);
      Some(Both(s.tx, rx.value, None, None))
    else
      var rx := R.Step(c, s.rx, a);
      if rx.None? then None else
      ReceiveSees(c, s.rx, a);
      Some(s.(rx := rx.value))
  }

  function Step(c: R.Config, s: Both, m: Move): (r: Option<Both>)
    requires Shape(c, s)
    ensures r.Some? ==> Shape(c, r.value)
  {
    match m
    case Transmit(a) => TransmitStep(c, s, a)
    case ReadStart => if AtCheck(c, s.rx) && s.start.None? then Some(s.(start := Some(s.tx.sh.start))) else None
    case ReadEnd => if AtCheck(c, s.rx) && s.end.None? then Some(s.(end := Some(s.tx.sh.end))) else None
    case Receive(a) => ReceiveStep(c, s, a)
  }

  lemma TransmitSize(blk: nat, s: T.Tx, a: T.Action)
    requires T.Shape(blk, s) && T.Step(blk, s, a).Some?
    ensures |T.Step(blk, s, a).value.sh.buf| == |s.sh.buf|
  {
  }

  lemma ReceiveSees(c: R.Config, s: R.Rx, a: R.Action)
    requires R.Shape(c, s) && R.Step(c, s, a).Some? && !a.WriteRingMoves?
    ensures var s' := R.Step(c, s, a).value;
            RF.SameWriteRing(s, s') && |s'.sh.buf| == |s.sh.buf|
  {
  }

  function Exec(c: R.Config, s: Both, moves: seq<Move>): (r: Option<Both>)
    requires Shape(c, s)
    ensures r.Some? ==> Shape(c, r.value)
    decreases |moves|
  {
    if moves == [] then Some(s) else
    var r := Exec(c, s, moves[..|moves| - 1]);
    if r.None? then None else Step(c, r.value, moves[|moves| - 1])
  }

  predicate Leads(c: R.Config, s: Both, moves: seq<Move>, s': Both)
    requires Shape(c, s)
  {
    Exec(c, s, moves) == Some(s')
  }

  lemma {:induction false} Concat(c: R.Config, s: Both, a: seq<Move>, s1: Both, b: seq<Move>)
    requires Shape(c, s) && Leads(c, s, a, s1)
    ensures Exec(c, s, a + b) == Exec(c, s1, b)
    decreases |b|
  {
    if b == [] {
      assert a + b == a;
    } else {
      Concat(c, s, a, s1, b[..|b| - 1]);
      assert (a + b)[..|a + b| - 1] == a + b[..|b| - 1];
    }
  }

  lemma Chain(c: R.Config, s: Both, a: seq<Move>, s1: Both, b: seq<Move>, s2: Both)
    requires Shape(c, s) && Leads(c, s, a, s1) && Leads(c, s1, b, s2)
    ensures Leads(c, s, a + b, s2)
  {
    Concat(c, s, a, s1, b);
  }

  lemma Extend(c: R.Config, s: Both, moves: seq<Move>, s1: Both, m: Move, s2: Both)
    requires Shape(c, s) && Leads(c, s, moves, s1) && Step(c, s1, m) == Some(s2)
    ensures Leads(c, s, moves + [m], s2)
  {
    assert (moves + [m])[..|moves|] == moves;
  }

  /** Both halves freshly opened. */
  predicate Init(c: R.Config, s: Both) {
    Shape(c, s) && T.Init(c.blk, s.tx) && R.Init(c, s.rx) && Fresh(s)
  }

  /** Every pair of sizes has such a state. */
  lemma Opens(c: R.Config, cap: nat) returns (s: Both)
    requires 0 < c.blk < cap
    ensures Init(c, s) && |s.rx.sh.buf| == cap
  {
    var tx := TxOpens(c.blk, cap);
    var rx := RxOpens(c, cap);
    s := Both(tx, rx, None, None);
  }

  lemma TxOpens(blk: nat, cap: nat) returns (tx: T.Tx)
    requires 0 < blk < cap
    ensures T.Init(blk, tx) && |tx.sh.buf| == cap
  {
    var slots := seq(T.DMA_BUFFS, _ => TF.Bytes(blk));
    tx := T.Tx(T.Shared(TF.Bytes(cap), 0, 0, T.Idle, slots, [], [], [], [], 0, []),
               T.Thread(T.Poll, 0, 0, 0, 0, 0, 0, 0));
  }

  lemma RxOpens(c: R.Config, cap: nat) returns (rx: R.Rx)
    requires 0 < c.blk < cap
    ensures R.Init(c, rx) && |rx.sh.buf| == cap
  {
    var slots := seq(R.DMA_BUFFS, _ => TF.Bytes(c.blk));
    rx := R.Rx(R.Shared(TF.Bytes(cap), 0, 0, 0, 0, R.Idle, slots, [], [], [], [], [], true),
               R.Thread(R.Poll, 0, 0, 0, 0, 0, 0, 0, 0));
  }

  // ---- both halves keep their invariants ----

  predicate Inv(c: R.Config, s: Both) {
    Shape(c, s) && T.Inv(c.blk, s.tx) && T.HoldsBack(s.tx) && R.Inv(c, s.rx)
  }

  lemma InitInv(c: R.Config, s: Both)
    requires Init(c, s)
    ensures Inv(c, s)
  {
    T.InitInv(c.blk, s.tx);
    R.InitInv(c, s.rx);
  }

  /** To the receive side what it sees is moved by an action of its own. */
  lemma SeeingIsStep(c: R.Config, rx: R.Rx, start: nat, end: nat)
    requires R.Shape(c, rx) && start < |rx.sh.buf| && end < |rx.sh.buf|
    ensures R.Step(c, rx, R.WriteRingMoves(start, end)) == Some(Seeing(rx, start, end))
  {
  }

  lemma SeeingKeeps(c: R.Config, rx: R.Rx, start: nat, end: nat)
    requires R.Inv(c, rx) && start < |rx.sh.buf| && end < |rx.sh.buf|
    ensures R.Inv(c, Seeing(rx, start, end))
  {
    SeeingIsStep(c, rx, start, end);
    R.StepKeeps(c, rx, R.WriteRingMoves(start, end));
  }

  lemma ReceiveKeeps(c: R.Config, s: Both, a: R.Action)
    requires Inv(c, s) && ReceiveStep(c, s, a).Some?
    ensures Inv(c, ReceiveStep(c, s, a).value)
  {
    if a.ThreadStep? && AtCheck(c, s.rx) {
      SeeingKeeps(c, s.rx, s.start.value, s.end.value);
      R.StepKeeps(c, Seeing(s.rx, s.start.value, s.end.value), a);
    } else {
      R.StepKeeps(c, s.rx, a);
    }
  }

  lemma StepKeeps(c: R.Config, s: Both, m: Move)
    requires Inv(c, s) && Step(c, s, m).Some?
    ensures Inv(c, Step(c, s, m).value)
  {
    match m {
      case Transmit(a) =>
        T.StepKeeps(c.blk, s.tx, a);
        T.HoldsBackStep(c.blk, s.tx, a);
      case Receive(a) => ReceiveKeeps(c, s, a);
      case ReadStart | ReadEnd =>
    }
  }

  lemma {:induction false} ExecKeeps(c: R.Config, s: Both, moves: seq<Move>)
    requires Inv(c, s) && Exec(c, s, moves).Some?
    ensures Inv(c, Exec(c, s, moves).value)
    decreases |moves|
  {
    if moves != [] {
      ExecKeeps(c, s, moves[..|moves| - 1]);
      StepKeeps(c, Exec(c, s, moves[..|moves| - 1]).value, moves[|moves| - 1]);
    }
  }

  // ---- schedules of one half ----

  function Transmits(acts: seq<T.Action>): seq<Move> {
    seq(|acts|, i requires 0 <= i < |acts| => Transmit(acts[i]))
  }

  lemma TransmitsLast(acts: seq<T.Action>)
    requires acts != []
    ensures Transmits(acts) == Transmits(acts[..|acts| - 1]) + [Transmit(acts[|acts| - 1])]
  {
  }

  function AfterTransmits(c: R.Config, s: Both, acts: seq<T.Action>): Both
    requires Shape(c, s) && T.Exec(c.blk, s.tx, acts).Some?
  {
    s.(tx := T.Exec(c.blk, s.tx, acts).value)
  }

  lemma TransmitSnoc(c: R.Config, s: Both, acts: seq<T.Action>)
    requires Shape(c, s) && acts != [] && T.Exec(c.blk, s.tx, acts).Some?
    requires Leads(c, s, Transmits(acts[..|acts| - 1]), AfterTransmits(c, s, acts[..|acts| - 1]))
    ensures Leads(c, s, Transmits(acts), AfterTransmits(c, s, acts))
  {
    var front, a := acts[..|acts| - 1], acts[|acts| - 1];
    Extend(c, s, Transmits(front), AfterTransmits(c, s, front), Transmit(a), AfterTransmits(c, s, acts));
    TransmitsLast(acts);
  }

  lemma {:induction false} TransmitAlone(c: R.Config, s: Both, acts: seq<T.Action>, tx: T.Tx)
    requires Shape(c, s) && T.Leads(c.blk, s.tx, acts, tx)
    ensures Leads(c, s, Transmits(acts), s.(tx := tx))
    decreases |acts|
  {
    if acts == [] {
      assert Transmits(acts) == [];
    } else {
      TransmitAlone(c, s, acts[..|acts| - 1], T.Exec(c.blk, s.tx, acts[..|acts| - 1]).value);
      TransmitSnoc(c, s, acts);
    }
  }

  lemma BlindOthers(c: R.Config, rx: R.Rx, a: R.Action, start: nat, end: nat)
    requires R.Shape(c, rx) && R.Shape(c, Seeing(rx, start, end)) && !a.WriteRingMoves? && !a.ThreadStep?
    ensures var r, seen := R.OthersStep(c, rx.sh, a), R.OthersStep(c, Seeing(rx, start, end).sh, a);
            if r.None? then seen.None? else seen == Some(r.value.(writeStart := start, writeEnd := end))
  {
  }

  lemma BlindDrain(c: R.Config, rx: R.Rx, start: nat, end: nat)
    requires R.Shape(c, rx) && R.Shape(c, Seeing(rx, start, end)) && rx.th.pc == R.Drain && !AtCheck(c, rx)
    ensures R.DrainStep(c, Seeing(rx, start, end)) == Seeing(R.DrainStep(c, rx), start, end)
  {
  }

  lemma BlindCopy(c: R.Config, rx: R.Rx, start: nat, end: nat)
    requires R.Shape(c, rx) && R.Shape(c, Seeing(rx, start, end))
    ensures R.CopyStep(c, Seeing(rx, start, end)) == Seeing(R.CopyStep(c, rx), start, end)
  {
  }

  lemma BlindThread(c: R.Config, rx: R.Rx, stop: bool, start: nat, end: nat)
    requires R.Shape(c, rx) && R.Shape(c, Seeing(rx, start, end)) && !AtCheck(c, rx)
    ensures var r, seen := R.ThreadNext(c, rx, stop), R.ThreadNext(c, Seeing(rx, start, end), stop);
            if r.None? then seen.None? else seen == Some(Seeing(r.value, start, end))
  {
    if rx.th.pc == R.Drain {
      BlindDrain(c, rx, start, end);
    } else if rx.th.pc == R.Copy {
      BlindCopy(c, rx, start, end);
    }
  }

  /** A step that is not the check does not depend on what is seen. */
  lemma Blind(c: R.Config, rx: R.Rx, a: R.Action, start: nat, end: nat)
    requires R.Shape(c, rx) && R.Shape(c, Seeing(rx, start, end))
    requires !a.WriteRingMoves? && !(a.ThreadStep? && AtCheck(c, rx))
    ensures var r, seen := R.Step(c, rx, a), R.Step(c, Seeing(rx, start, end), a);
            if r.None? then seen.None? else seen == Some(Seeing(r.value, start, end))
  {
    if a.ThreadStep? {
      BlindThread(c, rx, a.stop, start, end);
    } else {
      BlindOthers(c, rx, a, start, end);
    }
  }

  /** The moves of the receive half among `moves` are from `acts`, and the rest its reads. */
  predicate From(moves: seq<Move>, acts: seq<R.Action>) {
    forall m :: m in moves ==> !m.Transmit? && (m.Receive? ==> m.r in acts)
  }

  /** A step of the receive half, with the reads it needs just before it. */
  lemma ReceiveOne(c: R.Config, s: Both, a: R.Action, rx: R.Rx) returns (moves: seq<Move>, s': Both)
    requires Shape(c, s) && Fresh(s) && R.Shape(c, View(s)) && R.Step(c, View(s), a) == Some(rx) && !a.WriteRingMoves?
    ensures Leads(c, s, moves, s') && Fresh(s') && s'.tx == s.tx && View(s') == rx && From(moves, [a])
  {
    if a.ThreadStep? && AtCheck(c, s.rx) {
      moves, s' := CheckNow(c, s, a, rx);
    } else {
      Blind(c, s.rx, a, s.tx.sh.start, s.tx.sh.end);
      moves, s' := [Receive(a)], s.(rx := R.Step(c, s.rx, a).value);
      Extend(c, s, [], s, Receive(a), s');
    }
  }

  lemma CheckNow(c: R.Config, s: Both, a: R.Action, rx: R.Rx) returns (moves: seq<Move>, s': Both)
    requires Shape(c, s) && Fresh(s) && R.Shape(c, View(s)) && R.Step(c, View(s), a) == Some(rx)
    requires a.ThreadStep? && AtCheck(c, s.rx)
    ensures Leads(c, s, moves, s') && Fresh(s') && s'.tx == s.tx && View(s') == rx && From(moves, [a])
  {
    var s1 := s.(start := Some(s.tx.sh.start));
    var s2 := s1.(end := Some(s.tx.sh.end));
    s' := Both(s.tx, rx, None, None);
    Extend(c, s, [], s, ReadStart, s1);
    Extend(c, s, [ReadStart], s1, ReadEnd, s2);
    Extend(c, s, [ReadStart] + [ReadEnd], s2, Receive(a), s');
    moves := [ReadStart] + [ReadEnd] + [Receive(a)];
    ReceiveSees(c, View(s), a);
  }

  /** A schedule of the receive half, while the transmit half stands still. */
  lemma {:induction false} ReceiveAlone(c: R.Config, s: Both, acts: seq<R.Action>, rx: R.Rx)
      returns (moves: seq<Move>, s': Both)
    requires Shape(c, s) && Fresh(s) && R.Shape(c, View(s)) && R.Leads(c, View(s), acts, rx)
    requires forall a :: a in acts ==> !a.WriteRingMoves?
    ensures Leads(c, s, moves, s') && Fresh(s') && s'.tx == s.tx && View(s') == rx && From(moves, acts)
    decreases |acts|
  {
    if acts == [] {
      moves, s' := [], s;
    } else {
      var front, a := acts[..|acts| - 1], acts[|acts| - 1];
      var mid := R.Exec(c, View(s), front).value;
      var first, s1 := ReceiveAlone(c, s, front, mid);
      var last;
      last, s' := ReceiveOne(c, s1, a, rx);
      moves := first + last;
      Chain(c, s, first, s1, last, s');
    }
  }

  /** No move of the transmit half, and nobody reads. */
  predicate OnlyReception(moves: seq<Move>) {
    forall m :: m in moves ==> !m.Transmit? && (m.Receive? ==> !R.OfUser(m.r))
  }

  predicate NobodyReads(moves: seq<Move>) {
    forall m :: m in moves && m.Receive? ==> !R.OfUser(m.r)
  }

  lemma QuietIsOnlyReception(moves: seq<Move>, acts: seq<R.Action>)
    requires From(moves, acts) && RF.Quiet(acts)
    ensures OnlyReception(moves)
  {
  }

  /** Every schedule of both halves is one of the receive half alone, with moves of what it sees. */
  lemma {:induction false} Projected(c: R.Config, s: Both, moves: seq<Move>) returns (acts: seq<R.Action>)
    requires Shape(c, s) && Exec(c, s, moves).Some?
    ensures R.Leads(c, s.rx, acts, Exec(c, s, moves).value.rx)
    decreases |moves|
  {
    acts := [];
    if moves != [] {
      var front, m := moves[..|moves| - 1], moves[|moves| - 1];
      acts := Projected(c, s, front);
      var mid := Exec(c, s, front).value;
      var more := ProjectedStep(c, mid, m);
      RF.Chain(c, s.rx, acts, mid.rx, more, Exec(c, s, moves).value.rx);
      acts := acts + more;
    }
  }

  lemma ProjectedStep(c: R.Config, s: Both, m: Move) returns (acts: seq<R.Action>)
    requires Shape(c, s) && Step(c, s, m).Some?
    ensures R.Leads(c, s.rx, acts, Step(c, s, m).value.rx)
  {
    acts := [];
    if m.Receive? {
      if m.r.ThreadStep? && AtCheck(c, s.rx) {
        var seen := R.WriteRingMoves(s.start.value, s.end.value);
        SeeingIsStep(c, s.rx, s.start.value, s.end.value);
        RF.One(c, s.rx, seen);
        R.Extend(c, s.rx, [seen], Seeing(s.rx, s.start.value, s.end.value), m.r, Step(c, s, m).value.rx);
        acts := [seen] + [m.r];
      } else {
        RF.One(c, s.rx, m.r);
        acts := [m.r];
      }
    }
  }

  // ---- the space check as written ----

  lemma ViewInit(c: R.Config, s: Both)
    requires Init(c, s)
    ensures R.Init(c, View(s))
  {
  }

  lemma ViewInv(c: R.Config, s: Both)
    requires Inv(c, s)
    ensures R.Inv(c, View(s))
  {
    SeeingKeeps(c, s.rx, s.tx.sh.start, s.tx.sh.end);
  }

  /** The check as written is wrong for every pair of sizes with which it ever lets a drain pass:
      from every initial state some schedule without a single move of the transmit half loses a
      ring's worth of received bytes. */
  lemma WrongRingLosesData(c: R.Config, s0: Both)
    requires Init(c, s0) && c.guard == R.TestsWriteRing && c.blk + 1 < |s0.rx.sh.buf|
    ensures exists moves :: OnlyReception(moves) && Exec(c, s0, moves).Some? && RF.Lost(Exec(c, s0, moves).value.rx.sh)
  {
    ViewInit(c, s0);
    R.InitInv(c, View(s0));
    var acts, rx := RF.FillUnchecked(c, View(s0));
    var moves, s := ReceiveAlone(c, s0, acts, rx);
    QuietIsOnlyReception(moves, acts);
    assert Exec(c, s0, moves).Some?;
  }

  /** And the comment on the copies (lines 28-33) is false of the receive pair: some schedule without
      a move of the transmit half has both of its copies at one index of the ring. */
  lemma CopiesOverlap(c: R.Config, s0: Both) returns (moves: seq<Move>, s: Both)
    requires Init(c, s0) && c.guard == R.TestsWriteRing && c.blk + 1 < |s0.rx.sh.buf|
    ensures Leads(c, s0, moves, s) && RF.Overlap(c, s.rx) && forall m :: m in moves ==> !m.Transmit?
  {
    ViewInit(c, s0);
    R.InitInv(c, View(s0));
    var acts, rx := OverlapAlone(c, View(s0));
    moves, s := ReceiveAlone(c, s0, acts, rx);
    OverlapSeen(c, s, rx);
  }

  lemma OverlapSeen(c: R.Config, s: Both, rx: R.Rx)
    requires Shape(c, s) && View(s) == rx && R.Shape(c, rx) && RF.Overlap(c, rx)
    ensures RF.Overlap(c, s.rx)
  {
    RF.OverlapIff(c, rx);
    RF.OverlapIff(c, s.rx);
  }

  /** A block is drained, the user starts to read a byte of it, and drains go on. */
  lemma OverlapAlone(c: R.Config, s: R.Rx) returns (acts: seq<R.Action>, s': R.Rx)
    requires R.Inv(c, s) && R.Init(c, s) && c.guard == R.TestsWriteRing && R.Space(c, s.sh) > c.blk
    ensures R.Leads(c, s, acts, s') && RF.Overlap(c, s') && forall a :: a in acts ==> !a.WriteRingMoves?
  {
    var a, s1 := RF.DrainAnother(c, s);
    FillAdvances(s.sh.start, s.sh.end, |s.sh.buf|, c.blk);
    var b, s2 := RF.StartRead(c, s1, 1);
    RF.Chain(c, s, a, s1, b, s2);
    var d;
    d, s' := RF.DrainIntoRead(c, s2);
    RF.Chain(c, s, a + b, s2, d, s');
    acts := a + b + d;
  }

  // ---- when reception goes on ----

  /** Some schedule drains another block. */
  ghost predicate CanDrain(c: R.Config, s: Both)
    requires Shape(c, s)
  {
    exists moves :: Exec(c, s, moves).Some? && |Exec(c, s, moves).value.rx.sh.drained| > |s.rx.sh.drained|
  }

  /** The most room the transmit ring has until the writer publishes. */
  function Room(c: R.Config, s: Both): int
    requires c.blk > 0
  {
    T.LongestWrite(|s.tx.sh.buf|, c.blk, |s.tx.sh.written|)
  }

  /** The check can pass: in time there is room for a block and a byte, or the writer is not stuck and
      can bring the indices to where it appears so. */
  predicate Passable(c: R.Config, s: Both)
    requires c.blk > 0
  {
    && c.blk + 2 <= |s.tx.sh.buf|
    && (Room(c, s) > c.blk || (s.tx.sh.user.Waiting? ==> |s.tx.sh.user.data| <= Room(c, s)))
  }

  /** Both threads run, and the receive thread is not between the reads of its check. */
  predicate Going(c: R.Config, s: Both) {
    Inv(c, s) && Fresh(s) && TF.Running(s.tx) && RF.Running(s.rx) && c.guard == R.TestsWriteRing
  }

  /** One more block at the end of the receive ring, and nothing else its user could notice. */
  predicate Drained(c: R.Config, s: Both, s': Both)
    requires Shape(c, s)
  {
    && |s'.rx.sh.drained| == |s.rx.sh.drained| + 1 && |s'.rx.sh.buf| == |s.rx.sh.buf|
    && s'.rx.sh.start == s.rx.sh.start && s'.rx.sh.end == Wrap(s.rx.sh.end + c.blk, |s.rx.sh.buf|)
    && s'.rx.sh.user == s.rx.sh.user && s'.rx.sh.delivered == s.rx.sh.delivered && s'.rx.th.skips == s.rx.th.skips
  }

  /** With space in sight, or already found, the receive half drains while the other stands still. */
  lemma DrainNow(c: R.Config, s: Both) returns (moves: seq<Move>, s': Both)
    requires Going(c, s) && s.rx.th.skips < R.MAX_SKIPS
    requires s.rx.th.pc == R.Copy || Avail(s.tx.sh.start, s.tx.sh.end, |s.tx.sh.buf|) > c.blk
    ensures Leads(c, s, moves, s') && Going(c, s') && Drained(c, s, s') && s'.tx == s.tx
  {
    ViewInv(c, s);
    var acts, rx := RF.DrainAnother(c, View(s));
    moves, s' := ReceiveAlone(c, s, acts, rx);
    ExecKeeps(c, s, moves);
  }

  /** The transmit half brings its ring down to a block, and then the receive half finds space. */
  lemma DrainWithRoom(c: R.Config, s: Both) returns (moves: seq<Move>, s': Both)
    requires Going(c, s) && s.rx.th.skips < R.MAX_SKIPS && Room(c, s) > c.blk
    ensures Leads(c, s, moves, s') && Going(c, s') && Drained(c, s, s') && Room(c, s') > c.blk
  {
    var a, tx := TF.DrainDown(c.blk, s.tx);
    TransmitAlone(c, s, a, tx);
    var s1 := s.(tx := tx);
    ExecKeeps(c, s, Transmits(a));
    T.RoomForWrite(c.blk, tx);
    var b;
    b, s' := DrainNow(c, s1);
    moves := Transmits(a) + b;
    Chain(c, s, Transmits(a), s1, b, s');
  }

  /** The thread reads the start; then writes and drains bring the end round to that place; then it
      reads the end, and the ring looks empty. */
  lemma TornCheck(c: R.Config, s: Both) returns (moves: seq<Move>, s': Both)
    requires Going(c, s) && AtCheck(c, s.rx) && s.tx.sh.user.Idle? && c.blk + 2 <= |s.tx.sh.buf|
    requires Filled(s.tx.sh.start, s.tx.sh.end, |s.tx.sh.buf|) <= c.blk
    ensures Leads(c, s, moves, s') && Going(c, s') && s'.rx.th.pc == R.Copy && s'.tx.sh.user.Idle?
    ensures RxKept(s, s') && |s'.tx.sh.buf| == |s.tx.sh.buf|
  {
    var s1 := s.(start := Some(s.tx.sh.start));
    Extend(c, s, [], s, ReadStart, s1);
    var a, tx := TF.GoRound(c.blk, s.tx);
    TransmitAlone(c, s1, a, tx);
    var s2 := s1.(tx := tx);
    Chain(c, s, [ReadStart], s1, Transmits(a), s2);
    var s3 := s2.(end := Some(tx.sh.end));
    Extend(c, s, [ReadStart] + Transmits(a), s2, ReadEnd, s3);
    s' := SeesEmpty(c, s3);
    moves := [ReadStart] + Transmits(a) + [ReadEnd] + [Receive(R.ThreadStep(false))];
    Extend(c, s, [ReadStart] + Transmits(a) + [ReadEnd], s3, Receive(R.ThreadStep(false)), s');
    ExecKeeps(c, s, moves);
  }

  predicate RxKept(s: Both, s': Both) {
    && |s'.rx.sh.buf| == |s.rx.sh.buf| && s'.rx.sh.start == s.rx.sh.start && s'.rx.sh.end == s.rx.sh.end
    && s'.rx.sh.user == s.rx.sh.user && s'.rx.sh.delivered == s.rx.sh.delivered
    && s'.rx.sh.drained == s.rx.sh.drained && s'.rx.th.skips == s.rx.th.skips
  }

  lemma SeesEmpty(c: R.Config, s: Both) returns (s': Both)
    requires Shape(c, s) && AtCheck(c, s.rx) && s.start.Some? && s.end == s.start && c.blk + 2 <= |s.tx.sh.buf|
    ensures Step(c, s, Receive(R.ThreadStep(false))) == Some(s')
    ensures s'.tx == s.tx && Fresh(s') && s'.rx.th.pc == R.Copy && RxKept(s, s')
  {
    s' := Step(c, s, Receive(R.ThreadStep(false))).value;
  }

  /** The transmit half frees its writer, and the receive half comes to its check. */
  lemma Prepare(c: R.Config, s: Both) returns (moves: seq<Move>, s': Both)
    requires Going(c, s) && s.rx.th.skips < R.MAX_SKIPS && s.rx.th.pc != R.Copy
    requires s.tx.sh.user.Waiting? ==> |s.tx.sh.user.data| <= Room(c, s)
    ensures Leads(c, s, moves, s') && Going(c, s') && AtCheck(c, s'.rx) && s'.tx.sh.user.Idle? && RxKept(s, s')
    ensures |s'.tx.sh.buf| == |s.tx.sh.buf| && Filled(s'.tx.sh.start, s'.tx.sh.end, |s'.tx.sh.buf|) <= c.blk
  {
    var a, tx := TF.FreeWriter(c.blk, s.tx);
    TransmitAlone(c, s, a, tx);
    var s1 := s.(tx := tx);
    ExecKeeps(c, s, Transmits(a));
    ViewInv(c, s1);
    var acts, rx := RF.ReachTest(c, View(s1));
    var b;
    b, s' := ReceiveAlone(c, s1, acts, rx);
    ExecKeeps(c, s1, b);
    moves := Transmits(a) + b;
    Chain(c, s, Transmits(a), s1, b, s');
  }

  lemma DrainTorn(c: R.Config, s: Both) returns (moves: seq<Move>, s': Both)
    requires Going(c, s) && s.rx.th.skips < R.MAX_SKIPS && s.rx.th.pc != R.Copy && c.blk + 2 <= |s.tx.sh.buf|
    requires s.tx.sh.user.Waiting? ==> |s.tx.sh.user.data| <= Room(c, s)
    ensures Leads(c, s, moves, s') && Going(c, s') && Drained(c, s, s') && s'.tx.sh.user.Idle?
    ensures |s'.tx.sh.buf| == |s.tx.sh.buf|
  {
    var a, s1 := Prepare(c, s);
    var b, s2 := TornCheck(c, s1);
    Chain(c, s, a, s1, b, s2);
    var d;
    d, s' := DrainNow(c, s2);
    Chain(c, s, a + b, s2, d, s');
    moves := a + b + d;
  }

  /** So another block can be drained whenever the check can pass, and the check can pass again. */
  lemma DrainOne(c: R.Config, s: Both) returns (moves: seq<Move>, s': Both)
    requires Going(c, s) && s.rx.th.skips < R.MAX_SKIPS && (s.rx.th.pc == R.Copy || Passable(c, s))
    ensures Leads(c, s, moves, s') && Going(c, s') && Drained(c, s, s')
    ensures Passable(c, s) ==> Passable(c, s')
  {
    if s.rx.th.pc == R.Copy {
      moves, s' := DrainNow(c, s);
    } else if Room(c, s) > c.blk {
      moves, s' := DrainWithRoom(c, s);
    } else {
      moves, s' := DrainTorn(c, s);
    }
  }

  /** The check cannot pass: the ring never has room for it, or the writer waits for room that never
      comes and what was read of the indices shows none either. */
  predicate Blocked(c: R.Config, s: Both) {
    && Inv(c, s) && c.guard == R.TestsWriteRing
    && (|s.tx.sh.buf| == c.blk + 1 || (Stuck(c, s) && SeesNoRoom(c, s)))
  }

  predicate Stuck(c: R.Config, s: Both)
    requires c.blk > 0
  {
    s.tx.sh.user.Waiting? && |s.tx.sh.user.data| > Room(c, s) && Room(c, s) <= c.blk
  }

  predicate SeesNoRoom(c: R.Config, s: Both) {
    && (s.start.Some? ==> Avail(s.start.value, s.tx.sh.end, |s.tx.sh.buf|) <= c.blk)
    && (s.end.Some? ==> s.end.value == s.tx.sh.end)
  }

  lemma NotPassable(c: R.Config, s: Both)
    requires Inv(c, s) && Fresh(s) && c.guard == R.TestsWriteRing
    ensures Blocked(c, s) <==> !Passable(c, s)
  {
  }

  lemma StuckTransmit(c: R.Config, s: Both, a: T.Action)
    requires Inv(c, s) && Stuck(c, s) && T.Step(c.blk, s.tx, a).Some?
    ensures var tx := T.Step(c.blk, s.tx, a).value;
            Stuck(c, s.(tx := tx)) && tx.sh.end == s.tx.sh.end && |tx.sh.buf| == |s.tx.sh.buf|
  {
    T.RoomForWrite(c.blk, s.tx);
    T.RefusedStep(c.blk, s.tx, a);
    RefusedEnd(c.blk, s.tx, a);
  }

  lemma RefusedEnd(blk: nat, s: T.Tx, a: T.Action)
    requires T.Shape(blk, s) && T.Step(blk, s, a).Some? && s.sh.user.Waiting?
    ensures T.Step(blk, s, a).value.sh.end == s.sh.end
  {
  }

  /** A failed check is a skipped pass, and nothing else drains unless a copy is under way. */
  lemma NoSpaceSeen(c: R.Config, s: Both, a: R.Action)
    requires Blocked(c, s) && ReceiveStep(c, s, a).Some?
    ensures var s' := ReceiveStep(c, s, a).value;
            && s'.tx == s.tx && (s'.start == s.start || s'.start.None?) && (s'.end == s.end || s'.end.None?)
            && (s.rx.th.pc != R.Copy ==> s'.rx.th.pc != R.Copy && s'.rx.sh.drained == s.rx.sh.drained)
  {
  }

  lemma BlockedStep(c: R.Config, s: Both, m: Move)
    requires Blocked(c, s) && Step(c, s, m).Some?
    ensures var s' := Step(c, s, m).value;
            && Blocked(c, s') && |s'.tx.sh.buf| == |s.tx.sh.buf|
            && (s.rx.th.pc != R.Copy ==> s'.rx.th.pc != R.Copy && s'.rx.sh.drained == s.rx.sh.drained)
  {
    StepKeeps(c, s, m);
    match m {
      case Transmit(a) =>
        TransmitSize(c.blk, s.tx, a);
        if Stuck(c, s) { StuckTransmit(c, s, a); }
      case Receive(a) => NoSpaceSeen(c, s, a);
      case ReadStart | ReadEnd => T.RoomForWrite(c.blk, s.tx);
    }
  }

  lemma {:induction false} BlockedForever(c: R.Config, s: Both, moves: seq<Move>)
    requires Blocked(c, s) && s.rx.th.pc != R.Copy && Exec(c, s, moves).Some?
    ensures var s' := Exec(c, s, moves).value;
            Blocked(c, s') && s'.rx.th.pc != R.Copy && s'.rx.sh.drained == s.rx.sh.drained
    decreases |moves|
  {
    if moves != [] {
      BlockedForever(c, s, moves[..|moves| - 1]);
      BlockedStep(c, Exec(c, s, moves[..|moves| - 1]).value, moves[|moves| - 1]);
    }
  }

  /** The check as written, with both threads running, in rings of any size: another block is drained
      on some schedule if and only if fewer than `MAX_SKIPS` passes were skipped and a copy is
      under way or the check can pass. */
  lemma AliveAsWrittenIff(c: R.Config, s: Both)
    requires Going(c, s)
    ensures CanDrain(c, s) <==> s.rx.th.skips < R.MAX_SKIPS && (s.rx.th.pc == R.Copy || Passable(c, s))
  {
    if s.rx.th.skips == R.MAX_SKIPS {
      forall moves | Exec(c, s, moves).Some? ensures |Exec(c, s, moves).value.rx.sh.drained| == |s.rx.sh.drained| {
        var acts := Projected(c, s, moves);
        R.WedgedForever(c, s.rx, acts, Exec(c, s, moves).value.rx);
      }
    } else if s.rx.th.pc == R.Copy || Passable(c, s) {
      var moves, s' := DrainOne(c, s);
      assert Exec(c, s, moves).Some?;
    } else {
      NotPassable(c, s);
      forall moves | Exec(c, s, moves).Some? ensures |Exec(c, s, moves).value.rx.sh.drained| == |s.rx.sh.drained| {
        BlockedForever(c, s, moves);
      }
    }
  }

  /** In rings of more than two blocks and a byte it always can. */
  lemma LargeRingPassable(c: R.Config, s: Both)
    requires Inv(c, s) && |s.tx.sh.buf| > 2 * c.blk + 1
    ensures Passable(c, s)
  {
  }

  /** In every smaller ring, from every initial state, some schedule with no skipped pass ends
      reception: the transmit thread keeps a block, and the writer waits for all the rest. */
  lemma SmallRingStarves(c: R.Config, s0: Both) returns (moves: seq<Move>, s: Both)
    requires Init(c, s0) && c.guard == R.TestsWriteRing && |s0.rx.sh.buf| <= 2 * c.blk + 1
    ensures Leads(c, s0, moves, s) && s.rx.th.skips == 0 && Going(c, s) && !CanDrain(c, s)
  {
    var cap := |s0.rx.sh.buf|;
    var a, tx := TF.WriteFirst(c.blk, s0.tx, c.blk);
    var b := T.UserBegin(TF.Bytes(cap - c.blk));
    var tx' := T.Step(c.blk, tx, b).value;
    T.Extend(c.blk, s0.tx, a, tx, b, tx');
    TransmitAlone(c, s0, a + [b], tx');
    moves, s := Transmits(a + [b]), s0.(tx := tx');
    InitInv(c, s0);
    ExecKeeps(c, s0, moves);
    StartsRunning(c, s0);
    BlockHeld(cap, c.blk);
    AliveAsWrittenIff(c, s);
  }

  lemma StartsRunning(c: R.Config, s: Both)
    requires Init(c, s)
    ensures TF.Running(s.tx) && RF.Running(s.rx) && s.rx.th.skips == 0 && s.rx.th.pc != R.Copy
  {
  }

  lemma BlockHeld(cap: nat, blk: nat)
    requires 0 < blk < cap
    ensures T.LongestWrite(cap, blk, blk) == cap - 1 - blk
  {
    SmallMod(blk - 1, blk);
  }

  // ---- reception dies ----

  /** With the check as written too: from every initial state some schedule in which nobody reads
      skips `MAX_SKIPS` passes, after which reception is over. The writer fills its ring and the
      transmit thread does not run meanwhile. */
  lemma ReceptionDiesAsWritten(c: R.Config, s0: Both)
    requires Init(c, s0) && c.guard == R.TestsWriteRing
    ensures exists moves :: NobodyReads(moves) && Exec(c, s0, moves).Some?
              && Exec(c, s0, moves).value.rx.th.skips == R.MAX_SKIPS
  {
    var a, tx := TF.WriteFirst(c.blk, s0.tx, |s0.tx.sh.buf| - 1);
    TransmitAlone(c, s0, a, tx);
    var s1 := s0.(tx := tx);
    InitInv(c, s0);
    ExecKeeps(c, s0, Transmits(a));
    ViewInv(c, s1);
    var acts, rx := RF.SkipAll(c, View(s1));
    var b, s := ReceiveAlone(c, s1, acts, rx);
    Chain(c, s0, Transmits(a), s1, b, s);
    QuietIsOnlyReception(b, acts);
    var moves := Transmits(a) + b;
    assert NobodyReads(moves) && Exec(c, s0, moves).Some?;
  }

  // ---- which reads return ----

  /** Some schedule lets the reader's present call return. */
  ghost predicate CanReturn(c: R.Config, s: Both)
    requires Shape(c, s)
  {
    exists moves :: Exec(c, s, moves).Some? && Exec(c, s, moves).value.rx.sh.user.Idle?
  }

  function Fill(s: Both): int { Filled(s.rx.sh.start, s.rx.sh.end, |s.rx.sh.buf|) }

  /** `n` more blocks drained, and nothing else the user could notice. */
  predicate DrainedMany(c: R.Config, s: Both, n: nat, s': Both)
    requires Shape(c, s)
  {
    && Shape(c, s') && |s'.rx.sh.buf| == |s.rx.sh.buf| && s'.rx.sh.user == s.rx.sh.user
    && s'.rx.th.skips == s.rx.th.skips && Fill(s') == V.FillAfter(|s.rx.sh.buf|, c.blk, Fill(s), n)
  }

  lemma {:induction false} DrainMany(c: R.Config, s: Both, n: nat) returns (moves: seq<Move>, s': Both)
    requires Going(c, s) && s.rx.th.skips < R.MAX_SKIPS && Passable(c, s)
    ensures Leads(c, s, moves, s') && Going(c, s') && Passable(c, s') && DrainedMany(c, s, n, s')
    decreases n
  {
    if n == 0 {
      moves, s' := [], s;
      NoneDrained(c, s, n);
    } else {
      var first, s1 := DrainMany(c, s, n - 1);
      moves, s' := ThenDrain(c, s, n, first, s1);
    }
  }

  lemma NoneDrained(c: R.Config, s: Both, n: nat)
    requires Shape(c, s) && n == 0
    ensures Leads(c, s, [], s) && DrainedMany(c, s, n, s)
  {
  }

  lemma ThenDrain(c: R.Config, s: Both, n: nat, first: seq<Move>, s1: Both) returns (moves: seq<Move>, s': Both)
    requires Shape(c, s) && n > 0 && Leads(c, s, first, s1) && DrainedMany(c, s, n - 1, s1)
    requires Going(c, s1) && s.rx.th.skips < R.MAX_SKIPS && Passable(c, s1)
    ensures Leads(c, s, moves, s') && Going(c, s') && Passable(c, s') && DrainedMany(c, s, n, s')
  {
    moves, s' := DrainNext(c, s, first, s1);
    OneMoreBlock(c, s, s1, s', n);
  }

  lemma DrainNext(c: R.Config, s: Both, first: seq<Move>, s1: Both) returns (moves: seq<Move>, s': Both)
    requires Shape(c, s) && Leads(c, s, first, s1)
    requires Going(c, s1) && s1.rx.th.skips < R.MAX_SKIPS && Passable(c, s1)
    ensures Leads(c, s, moves, s') && Going(c, s') && Passable(c, s') && Drained(c, s1, s')
  {
    var last;
    last, s' := DrainOne(c, s1);
    moves := first + last;
    Chain(c, s, first, s1, last, s');
  }

  lemma OneMoreBlock(c: R.Config, s: Both, s1: Both, s': Both, n: nat)
    requires Shape(c, s) && Shape(c, s') && n > 0 && DrainedMany(c, s, n - 1, s1) && Drained(c, s1, s')
    ensures DrainedMany(c, s, n, s')
  {
    FillAdvances(s1.rx.sh.start, s1.rx.sh.end, |s.rx.sh.buf|, c.blk);
  }

  /** A read that finds enough returns. */
  lemma ReturnNow(c: R.Config, s: Both) returns (moves: seq<Move>, s': Both)
    requires Inv(c, s) && Fresh(s) && s.rx.sh.user.Waiting? && s.rx.sh.user.len <= Fill(s)
    ensures Leads(c, s, moves, s') && s'.rx.sh.user.Idle?
  {
    ViewInv(c, s);
    var acts, rx := RF.ReturnRead(c, View(s));
    moves, s' := ReceiveAlone(c, s, acts, rx);
  }

  /** So many blocks bring the ring to the most it can hold. */
  lemma BlocksToMost(cap: nat, blk: nat, f: nat) returns (n: nat)
    requires f < cap && blk < cap
    ensures V.FillAfter(cap, blk, f, n) == RF.MostHeld(cap, blk, f)
  {
    V.GcdDivides(cap, blk);
    V.LargestInClassIs(cap, V.Gcd(cap, blk), f, f);
    n := V.StepsLead(cap, blk, f, RF.MostHeld(cap, blk, f));
  }

  /** While the check can pass, blocks can be drained until the ring holds the most it can. */
  lemma ServeRead(c: R.Config, s: Both) returns (moves: seq<Move>, s': Both)
    requires Going(c, s) && s.rx.th.skips < R.MAX_SKIPS && Passable(c, s) && s.rx.sh.user.Waiting?
    requires s.rx.sh.user.len <= RF.MostHeld(|s.rx.sh.buf|, c.blk, Fill(s))
    ensures Leads(c, s, moves, s') && s'.rx.sh.user.Idle?
  {
    var a, s1 := FillUp(c, s);
    moves, s' := ThenReturn(c, s, a, s1);
  }

  lemma FillUp(c: R.Config, s: Both) returns (moves: seq<Move>, s': Both)
    requires Going(c, s) && s.rx.th.skips < R.MAX_SKIPS && Passable(c, s)
    ensures Leads(c, s, moves, s') && Inv(c, s') && Fresh(s') && s'.rx.sh.user == s.rx.sh.user
    ensures Fill(s') == RF.MostHeld(|s.rx.sh.buf|, c.blk, Fill(s))
  {
    var n := BlocksToMost(|s.rx.sh.buf|, c.blk, Fill(s));
    moves, s' := DrainMany(c, s, n);
  }

  lemma ThenReturn(c: R.Config, s: Both, a: seq<Move>, s1: Both) returns (moves: seq<Move>, s': Both)
    requires Shape(c, s) && Leads(c, s, a, s1)
    requires Inv(c, s1) && Fresh(s1) && s1.rx.sh.user.Waiting? && s1.rx.sh.user.len <= Fill(s1)
    ensures Leads(c, s, moves, s') && s'.rx.sh.user.Idle?
  {
    var b;
    b, s' := ReturnNow(c, s1);
    moves := a + b;
    Chain(c, s, a, s1, b, s');
  }

  /** A blocked thread publishes at most the block it is copying. */
  predicate TooLong(c: R.Config, s: Both)
    requires Shape(c, s)
  {
    && s.rx.sh.user.Waiting? && s.rx.sh.user.len > Fill(s)
    && (s.rx.th.pc == R.Copy ==> s.rx.sh.user.len > Advance(Fill(s), c.blk, |s.rx.sh.buf|))
  }

  lemma TooLongReceive(c: R.Config, s: Both, a: R.Action)
    requires Blocked(c, s) && TooLong(c, s) && ReceiveStep(c, s, a).Some?
    ensures TooLong(c, ReceiveStep(c, s, a).value)
  {
    NoSpaceSeen(c, s, a);
    var from := if a.ThreadStep? && AtCheck(c, s.rx) then Seeing(s.rx, s.start.value, s.end.value) else s.rx;
    RF.RefusedFill(c, from, a);
    R.RefusedStep(c, from, a);
  }

  lemma TooLongStep(c: R.Config, s: Both, m: Move)
    requires Blocked(c, s) && TooLong(c, s) && Step(c, s, m).Some?
    ensures Blocked(c, Step(c, s, m).value) && TooLong(c, Step(c, s, m).value)
  {
    BlockedStep(c, s, m);
    if m.Receive? { TooLongReceive(c, s, m.r); }
  }

  lemma {:induction false} BlockedReadWaits(c: R.Config, s: Both, moves: seq<Move>)
    requires Blocked(c, s) && TooLong(c, s) && Exec(c, s, moves).Some?
    ensures Blocked(c, Exec(c, s, moves).value) && TooLong(c, Exec(c, s, moves).value)
    decreases |moves|
  {
    if moves != [] {
      BlockedReadWaits(c, s, moves[..|moves| - 1]);
      TooLongStep(c, Exec(c, s, moves[..|moves| - 1]).value, moves[|moves| - 1]);
    }
  }

  /** The longest read that some schedule serves: what the ring holds; with reception alive, the most
      blocks can make it hold; and behind a check that cannot pass, what the block being copied
      makes it hold. */
  predicate Servable(c: R.Config, s: Both, len: nat)
    requires Shape(c, s)
  {
    || len <= Fill(s)
    || (s.rx.th.skips < R.MAX_SKIPS &&
        if Passable(c, s) then len <= RF.MostHeld(|s.rx.sh.buf|, c.blk, Fill(s))
        else s.rx.th.pc == R.Copy && len <= Advance(Fill(s), c.blk, |s.rx.sh.buf|))
  }

  /** The check as written, with both threads running, in rings of any size: a waiting read returns on
      some schedule if and only if it is so served. Otherwise it waits on every schedule. */
  lemma ReadReturnsAsWrittenIff(c: R.Config, s: Both)
    requires Going(c, s) && s.rx.sh.user.Waiting?
    ensures CanReturn(c, s) <==> Servable(c, s, s.rx.sh.user.len)
  {
    if Servable(c, s, s.rx.sh.user.len) {
      var moves, s' := ServeAsWritten(c, s);
      assert Exec(c, s, moves).Some?;
    } else {
      forall moves | Exec(c, s, moves).Some? ensures !Exec(c, s, moves).value.rx.sh.user.Idle? {
        WaitsAsWritten(c, s, moves);
      }
    }
  }

  lemma ServeAsWritten(c: R.Config, s: Both) returns (moves: seq<Move>, s': Both)
    requires Going(c, s) && s.rx.sh.user.Waiting? && Servable(c, s, s.rx.sh.user.len)
    ensures Leads(c, s, moves, s') && s'.rx.sh.user.Idle?
  {
    if s.rx.sh.user.len <= Fill(s) {
      moves, s' := ReturnNow(c, s);
    } else if Passable(c, s) {
      moves, s' := ServeRead(c, s);
    } else {
      moves, s' := ServeFromCopy(c, s);
    }
  }

  lemma ServeFromCopy(c: R.Config, s: Both) returns (moves: seq<Move>, s': Both)
    requires Going(c, s) && s.rx.th.skips < R.MAX_SKIPS && s.rx.th.pc == R.Copy && s.rx.sh.user.Waiting?
    requires s.rx.sh.user.len <= Advance(Fill(s), c.blk, |s.rx.sh.buf|)
    ensures Leads(c, s, moves, s') && s'.rx.sh.user.Idle?
  {
    var a, s1 := FillFromCopy(c, s);
    moves, s' := ThenReturn(c, s, a, s1);
  }

  lemma FillFromCopy(c: R.Config, s: Both) returns (moves: seq<Move>, s': Both)
    requires Going(c, s) && s.rx.th.skips < R.MAX_SKIPS && s.rx.th.pc == R.Copy
    ensures Leads(c, s, moves, s') && Inv(c, s') && Fresh(s') && s'.rx.sh.user == s.rx.sh.user
    ensures Fill(s') == Advance(Fill(s), c.blk, |s.rx.sh.buf|)
  {
    moves, s' := DrainNow(c, s);
    FillAdvances(s.rx.sh.start, s.rx.sh.end, |s.rx.sh.buf|, c.blk);
  }

  lemma WaitsAsWritten(c: R.Config, s: Both, moves: seq<Move>)
    requires Going(c, s) && s.rx.sh.user.Waiting? && !Servable(c, s, s.rx.sh.user.len) && Exec(c, s, moves).Some?
    ensures Exec(c, s, moves).value.rx.sh.user.Waiting?
  {
    if s.rx.th.skips < R.MAX_SKIPS && !Passable(c, s) {
      NotPassable(c, s);
      BlockedReadWaits(c, s, moves);
    } else {
      var acts := Projected(c, s, moves);
      if s.rx.th.skips < R.MAX_SKIPS {
        RF.LongerReadWaits(c, s.rx, acts, Exec(c, s, moves).value.rx);
      } else {
        RF.WedgedReadWaits(c, s.rx, acts, Exec(c, s, moves).value.rx);
      }
    }
  }

  /** Any read of what is there, run to its end. */
  lemma ReadSome(c: R.Config, s: Both, n: nat) returns (moves: seq<Move>, s': Both)
    requires Going(c, s) && s.rx.sh.user.Idle? && n <= Fill(s)
    ensures Leads(c, s, moves, s') && Going(c, s') && s'.tx == s.tx && s'.rx.th == s.rx.th && s'.rx.sh.user.Idle?
    ensures |s'.rx.sh.buf| == |s.rx.sh.buf| && Fill(s') == Fill(s) - n
    ensures |s'.rx.sh.delivered| == |s.rx.sh.delivered| + n
  {
    ViewInv(c, s);
    var a, rx := RF.StartRead(c, View(s), n);
    var b, rx' := RF.FinishRead(c, rx);
    RF.Chain(c, View(s), a, rx, b, rx');
    moves, s' := ReceiveAlone(c, s, a + b, rx');
    ExecKeeps(c, s, moves);
  }

  lemma BeginRead(c: R.Config, s: Both, n: nat) returns (s': Both)
    requires Going(c, s) && s.rx.sh.user.Idle?
    ensures Step(c, s, Receive(R.UserBegin(n))) == Some(s') && Going(c, s') && s'.tx == s.tx
    ensures s'.rx == s.rx.(sh := s.rx.sh.(user := R.Waiting(n)))
  {
    s' := Step(c, s, Receive(R.UserBegin(n))).value;
    StepKeeps(c, s, Receive(R.UserBegin(n)));
  }

  /** In a ring of whole blocks the first read returns on some schedule if and only if it leaves a
      block of the capacity. */
  lemma FirstReadReturnsIff(c: R.Config, s0: Both, len: nat) returns (s: Both)
    requires Init(c, s0) && c.guard == R.TestsWriteRing
    requires |s0.rx.sh.buf| > 2 * c.blk + 1 && |s0.rx.sh.buf| % c.blk == 0
    ensures Step(c, s0, Receive(R.UserBegin(len))) == Some(s)
    ensures CanReturn(c, s) <==> len <= |s0.rx.sh.buf| - c.blk
  {
    InitInv(c, s0);
    StartsRunning(c, s0);
    s := BeginRead(c, s0, len);
    LargeRingPassable(c, s);
    WholeRing(|s0.rx.sh.buf|, c.blk, 0);
    ReadReturnsAsWrittenIff(c, s);
  }

  lemma WholeRing(cap: nat, blk: nat, f: nat)
    requires 0 < blk < cap && cap % blk == 0 && f < blk
    ensures RF.MostHeld(cap, blk, f) == cap - blk + f
  {
    assert V.Gcd(cap, blk) == V.Gcd(blk, 0) == blk;
    SmallMod(f, blk);
  }

  /** But once a byte of a block has been read, a read of all but one byte of the ring can return:
      unlike with the check on the receive ring, blocks go on to be drained over unread ones. */
  lemma OneByteUnlocks(c: R.Config, s0: Both) returns (moves: seq<Move>, s: Both)
    requires Init(c, s0) && c.guard == R.TestsWriteRing
    requires |s0.rx.sh.buf| > 2 * c.blk + 1 && |s0.rx.sh.buf| % c.blk == 0
    ensures Leads(c, s0, moves, s) && |s.rx.sh.delivered| == 1 && s.rx.sh.user == R.Waiting(|s0.rx.sh.buf| - 1)
    ensures CanReturn(c, s)
  {
    InitInv(c, s0);
    StartsRunning(c, s0);
    LargeRingPassable(c, s0);
    var a, s1 := DrainOne(c, s0);
    FillAdvances(s0.rx.sh.start, s0.rx.sh.end, |s0.rx.sh.buf|, c.blk);
    var b, s2 := ReadSome(c, s1, 1);
    Chain(c, s0, a, s1, b, s2);
    moves, s := ThenBegin(c, s0, a + b, s2, |s0.rx.sh.buf| - 1);
    AllButOneServable(c, s);
    ReadReturnsAsWrittenIff(c, s);
  }

  lemma ThenBegin(c: R.Config, s0: Both, a: seq<Move>, s1: Both, n: nat) returns (moves: seq<Move>, s: Both)
    requires Shape(c, s0) && Leads(c, s0, a, s1) && Going(c, s1) && s1.rx.sh.user.Idle?
    ensures Leads(c, s0, moves, s) && Going(c, s) && s.tx == s1.tx
    ensures s.rx == s1.rx.(sh := s1.rx.sh.(user := R.Waiting(n)))
  {
    s := BeginRead(c, s1, n);
    moves := a + [Receive(R.UserBegin(n))];
    Extend(c, s0, a, s1, Receive(R.UserBegin(n)), s);
  }

  lemma AllButOneServable(c: R.Config, s: Both)
    requires Going(c, s) && s.rx.th.skips < R.MAX_SKIPS && Fill(s) == c.blk - 1
    requires |s.rx.sh.buf| > 2 * c.blk + 1 && |s.rx.sh.buf| % c.blk == 0
    ensures Servable(c, s, |s.rx.sh.buf| - 1)
  {
    LargeRingPassable(c, s);
    WholeRing(|s.rx.sh.buf|, c.blk, c.blk - 1);
  }

  // ---- room that is never there ----

  lemma WrittenGrows(c: R.Config, s: Both, m: Move)
    requires Shape(c, s) && Step(c, s, m).Some?
    ensures |Step(c, s, m).value.tx.sh.written| >= |s.tx.sh.written|
    ensures |Step(c, s, m).value.tx.sh.buf| == |s.tx.sh.buf|
  {
    if m.Transmit? { TransmitSize(c.blk, s.tx, m.t); }
  }

  lemma {:induction false} RoomNeverThere(c: R.Config, s: Both, moves: seq<Move>)
    requires Inv(c, s) && |s.tx.sh.buf| == c.blk + 2 && s.tx.sh.written != [] && Exec(c, s, moves).Some?
    ensures var s' := Exec(c, s, moves).value;
            && Inv(c, s') && |s'.tx.sh.buf| == c.blk + 2 && s'.tx.sh.written != []
            && Avail(s'.tx.sh.start, s'.tx.sh.end, |s'.tx.sh.buf|) <= c.blk
    decreases |moves|
  {
    if moves != [] {
      var mid := Exec(c, s, moves[..|moves| - 1]).value;
      RoomNeverThere(c, s, moves[..|moves| - 1]);
      StepKeeps(c, mid, moves[|moves| - 1]);
      WrittenGrows(c, mid, moves[|moves| - 1]);
    }
    T.RingHolds(c.blk, Exec(c, s, moves).value.tx);
  }

  /** The two reads of the check can show room that the transmit ring has at no moment. */
  lemma PassesWithoutRoom(c: R.Config, s: Both)
    requires Going(c, s) && |s.tx.sh.buf| == c.blk + 2 && s.tx.sh.written != [] && s.tx.sh.user.Idle?
    requires s.rx.th.skips < R.MAX_SKIPS && s.rx.th.pc != R.Copy
    ensures CanDrain(c, s)
    ensures forall moves :: Exec(c, s, moves).Some? ==>
              var tx := Exec(c, s, moves).value.tx; Avail(tx.sh.start, tx.sh.end, |tx.sh.buf|) <= c.blk
  {
    AliveAsWrittenIff(c, s);
    forall moves | Exec(c, s, moves).Some?
      ensures var tx := Exec(c, s, moves).value.tx; Avail(tx.sh.start, tx.sh.end, |tx.sh.buf|) <= c.blk
    {
      RoomNeverThere(c, s, moves);
    }
  }

  // ---- the intended check ----

  /** With the check on the receive ring the transmit half does not matter: another block is drained
      on some schedule of both if and only if fewer than `MAX_SKIPS` passes were skipped, a block and
      two bytes fit the ring, and the waiting read does not deadlock with the thread. */
  lemma AliveIntendedIff(c: R.Config, s: Both)
    requires Shape(c, s) && Fresh(s) && R.Sound(c, s.rx) && RF.Running(s.rx)
    ensures CanDrain(c, s) <==>
              s.rx.th.skips < R.MAX_SKIPS && c.blk + 2 <= |s.rx.sh.buf| && !RF.Deadlocked(c, s.rx)
  {
    RF.AliveIntendedIff(c, s.rx);
    if s.rx.th.skips < R.MAX_SKIPS && c.blk + 2 <= |s.rx.sh.buf| && !RF.Deadlocked(c, s.rx) {
      SeeingIsStep(c, s.rx, s.tx.sh.start, s.tx.sh.end);
      R.SoundStep(c, s.rx, R.WriteRingMoves(s.tx.sh.start, s.tx.sh.end));
      var acts, rx := RF.DrainWhenPossible(c, View(s));
      var moves, s' := ReceiveAlone(c, s, acts, rx);
      assert Exec(c, s, moves).Some?;
    } else {
      forall moves | Exec(c, s, moves).Some? ensures |Exec(c, s, moves).value.rx.sh.drained| <= |s.rx.sh.drained| {
        var acts := Projected(c, s, moves);
        assert R.Exec(c, s.rx, acts).Some?;
      }
    }
  }
}
