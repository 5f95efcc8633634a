/** The streaming theorems at the driver's own sizes (sw/langford_driver/langford.h:74-88). */
module Sizes {
  import opened Options
  import opened Ring
  import T = TxStream
  import R = RxStream
  import D = Duplex
  import RF = RxFaults
  import TF = TxFaults

  const CDEVBUFFSIZE: nat := 33554432
  const DMABUFFSIZE: nat := 262144

  function Zeros(n: nat): seq<Byte> { seq(n, _ => 0) }

  /** The rings of `cdev_open` and the transmit thread just spawned. */
  function TxStart(): T.Tx {
    T.Tx(T.Shared(Zeros(CDEVBUFFSIZE), 0, 0, T.Idle, seq(T.DMA_BUFFS, _ => Zeros(DMABUFFSIZE)), [], [], [], [], 0, []),
         T.Thread(T.Poll, 0, 0, 0, 0, 0, 0, 0))
  }

  lemma TxStarts()
    ensures T.Init(DMABUFFSIZE, TxStart()) && |TxStart().sh.buf| == CDEVBUFFSIZE
  {
  }

  /** The same for the receive thread. */
  function RxStart(): R.Rx {
    R.Rx(R.Shared(Zeros(CDEVBUFFSIZE), 0, 0, 0, 0, R.Idle, seq(R.DMA_BUFFS, _ => Zeros(DMABUFFSIZE)),
                  [], [], [], [], [], true),
         R.Thread(R.Poll, 0, 0, 0, 0, 0, 0, 0, 0))
  }

  function AsWritten(): R.Config { R.Config(DMABUFFSIZE, R.TestsWriteRing) }
  function Intended(): R.Config { R.Config(DMABUFFSIZE, R.TestsReadRing) }

  lemma RxStarts()
    ensures R.Init(AsWritten(), RxStart()) && R.Init(Intended(), RxStart()) && |RxStart().sh.buf| == CDEVBUFFSIZE
  {
  }

  /** From both halves freshly opened some schedule loses 33554432 received bytes without a move of
      the transmit half: they were drained, but the user neither has them nor finds them in the
      ring. */
  lemma DriverLosesData(s0: D.Both)
    requires D.Init(AsWritten(), s0) && |s0.rx.sh.buf| == CDEVBUFFSIZE
    ensures exists moves :: D.OnlyReception(moves) && D.Exec(AsWritten(), s0, moves).Some? &&
              var sh := D.Exec(AsWritten(), s0, moves).value.rx.sh;
              |sh.delivered| + Filled(sh.start, sh.end, |sh.buf|) == |Flatten(sh.drained)| - |sh.buf|
  {
    D.WrongRingLosesData(AsWritten(), s0);
  }

  /** The first read comes back on some schedule if and only if it is of at most 127 blocks: a read of
      a few bytes more than 33292288 waits forever, though the ring has 262144 bytes to spare. */
  lemma FirstReadReturnsIff(s0: D.Both, len: nat) returns (s: D.Both)
    requires D.Init(AsWritten(), s0) && |s0.rx.sh.buf| == CDEVBUFFSIZE
    ensures D.Step(AsWritten(), s0, D.Receive(R.UserBegin(len))) == Some(s)
    ensures D.CanReturn(AsWritten(), s) <==> len <= 33292288
  {
    s := D.FirstReadReturnsIff(AsWritten(), s0, len);
  }

  /** After one delivered byte a read of all but one byte of the ring can return. */
  lemma OneByteUnlocks(s0: D.Both) returns (moves: seq<D.Move>, s: D.Both)
    requires D.Init(AsWritten(), s0) && |s0.rx.sh.buf| == CDEVBUFFSIZE
    ensures D.Leads(AsWritten(), s0, moves, s) && |s.rx.sh.delivered| == 1 && s.rx.sh.user == R.Waiting(33554431)
    ensures D.CanReturn(AsWritten(), s)
  {
    moves, s := D.OneByteUnlocks(AsWritten(), s0);
  }

  /** With the space check on the receive ring the first read has the same limit, but it does not go
      away: after one delivered byte the limit is 33292287. */
  lemma FirstReadReturnsIntendedIff(len: nat)
    ensures var begun := RxStart().(sh := RxStart().sh.(user := R.Waiting(len)));
            && R.Shape(Intended(), RxStart()) && R.Step(Intended(), RxStart(), R.UserBegin(len)) == Some(begun)
            && (RF.CanReturn(Intended(), begun) <==> len <= 33292288)
    ensures R.LongestRead(CDEVBUFFSIZE, DMABUFFSIZE, 1) == 33292287
  {
    RxStarts();
    R.InitSound(Intended(), RxStart());
    R.SoundStep(Intended(), RxStart(), R.UserBegin(len));
    RF.ReadReturnsIff(Intended(), R.Step(Intended(), RxStart(), R.UserBegin(len)).value);
    assert R.LongestRead(CDEVBUFFSIZE, DMABUFFSIZE, 0) == 33292288;
  }

  /** Once a block has been written and nothing else, a write returns on some schedule if and only
      if it is shorter than 33292288 bytes, a block less than the ring's size. */
  lemma SecondWriteReturnsIff(data: seq<Byte>) returns (acts: seq<T.Action>, s: T.Tx)
    ensures T.Shape(DMABUFFSIZE, TxStart()) && T.Leads(DMABUFFSIZE, TxStart(), acts, s)
    ensures |s.sh.written| == DMABUFFSIZE && s.sh.user == T.Waiting(data)
    ensures TF.CanReturn(DMABUFFSIZE, s) <==> |data| < 33292288
  {
    TxStarts();
    var first, s1 := TF.WriteFirst(DMABUFFSIZE, TxStart(), DMABUFFSIZE);
    var a := T.UserBegin(data);
    s := T.Step(DMABUFFSIZE, s1, a).value;
    acts := first + [a];
    T.Extend(DMABUFFSIZE, TxStart(), first, s1, a, s);
    T.Reachable(DMABUFFSIZE, TxStart(), acts, s);
    T.AlwaysHoldsBack(DMABUFFSIZE, TxStart(), acts, s);
    TF.WriteReturnsIff(DMABUFFSIZE, s);
    assert T.LongestWrite(CDEVBUFFSIZE, DMABUFFSIZE, DMABUFFSIZE) == 33292287;
  }
}
