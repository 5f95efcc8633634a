/** The shadow register cache of the reference driver (sw/langford_driver/libs/reference/adf4350.c:67-115)
    and the synthesiser it feeds, when any transfer may fail. */
module ShadowRegs {
  import opened Options
  import opened Words

  const COUNT: nat := 6
  const EINVAL: int := 22

  type Six = s: seq<Word> | |s| == COUNT witness seq(COUNT, _ => ZERO)

  /** The synthesiser: the words it has latched, the words in effect, and which addresses were
      ever written. Registers 1 and 4 are double buffered: they take effect with the next write
      of register 0. */
  datatype Pll = Pll(latched: Six, active: Six, written: set<nat>)

  predicate Buffered(i: int) { i == 1 || i == 4 }

  function Receive(c: Pll, w: Word): Pll {
    var i := Address(w);
    if i >= COUNT then c else
    var latched := c.latched[i := w];
    Pll(latched,
         if Buffered(i) then c.active
         else if i == 0 then c.active[0 := w][1 := latched[1]][4 := latched[4]]
         else c.active[i := w],
         c.written + {i})
  }

  /** A register value leaves the address bits clear. */
  predicate Aligned(w: Word) { !w[0] && !w[1] && !w[2] }

  predicate AllAligned(regs: Six) { forall i :: 0 <= i < COUNT ==> Aligned(regs[i]) }

  /** The word sent for a register: `regs[i] | i`. */
  function Frame(value: Word, i: nat): Word { Or(value, FromNumber(i)) }

  lemma FrameAddress(value: Word, i: nat)
    requires Aligned(value) && i < COUNT
    ensures Address(Frame(value, i)) == i
  {
    LowBitsAddress(i, Frame(value, i));
  }

  lemma FrameInjective(v: Word, w: Word, i: nat)
    requires Aligned(v) && Aligned(w) && i < 8 && Frame(v, i) == Frame(w, i)
    ensures v == w
  {
    HighBits(i, BITS);
    assert forall k :: 3 <= k < BITS ==> v[k] == Frame(v, i)[k] && w[k] == Frame(w, i)[k];
  }

  lemma HighBits(n: nat, len: nat)
    requires n < 8 && len >= 3
    ensures forall k :: 3 <= k < len ==> !Digits(n, len)[k]
  {
    ZeroDigits(len - 3);
    assert Digits(n, len) == [n % 2 == 1, n / 2 % 2 == 1, n / 4 % 2 == 1] + Digits(0, len - 3) by {
      assert Digits(n, len) == [n % 2 == 1] + Digits(n / 2, len - 1);
      assert Digits(n / 2, len - 1) == [n / 2 % 2 == 1] + Digits(n / 4, len - 2);
      assert Digits(n / 4, len - 2) == [n / 4 % 2 == 1] + Digits(n / 8, len - 3);
    }
  }

  lemma {:induction false} ZeroDigits(len: nat)
    ensures forall k :: 0 <= k < len ==> !Digits(0, len)[k]
  {
    if len > 0 { ZeroDigits(len - 1); }
  }

  // ---- synchronisation ----

  /** `good[i]` says whether a transfer of register `i` succeeds; a failed one is not delivered. */
  type Transfers = g: seq<bool> | |g| == COUNT witness seq(COUNT, _ => true)

  datatype Outcome = Outcome(hw: Six, chip: Pll, ok: bool, sent: seq<int>)

  predicate Needed(regs: Six, hw: Six, i: int, doublebuf: bool)
    requires 0 <= i < COUNT
  {
    hw[i] != regs[i] || (i == 0 && doublebuf)
  }

  /** Registers `i` down to 0. */
  function SyncFrom(regs: Six, hw: Six, chip: Pll, good: Transfers, i: int, doublebuf: bool): Outcome
    requires -1 <= i < COUNT
    decreases i + 1
  {
    if i < 0 then Outcome(hw, chip, true, [])
    else if !Needed(regs, hw, i, doublebuf) then SyncFrom(regs, hw, chip, good, i - 1, doublebuf)
    else if !good[i] then Outcome(hw, chip, false, [])
    else
      var chip' := Receive(chip, Frame(regs[i], i));
      var rest := SyncFrom(regs, hw[i := regs[i]], chip', good, i - 1, doublebuf || Buffered(i));
      rest.(sent := [i] + rest.sent)
  }

  function Sync(regs: Six, hw: Six, chip: Pll, good: Transfers): Outcome {
    SyncFrom(regs, hw, chip, good, COUNT - 1, false)
  }

  predicate SameEnd(a: Outcome, b: Outcome) { a.hw == b.hw && a.chip == b.chip && a.ok == b.ok }

  lemma SyncStep(regs: Six, hw: Six, chip: Pll, good: Transfers, i: int, doublebuf: bool)
    requires 0 <= i < COUNT
    ensures var out := SyncFrom(regs, hw, chip, good, i, doublebuf);
            if !Needed(regs, hw, i, doublebuf) then SameEnd(out, SyncFrom(regs, hw, chip, good, i - 1, doublebuf))
            else if !good[i] then out.hw == hw && out.chip == chip && !out.ok
            else SameEnd(out, SyncFrom(regs, hw[i := regs[i]], Receive(chip, Frame(regs[i], i)), good,
                                       i - 1, doublebuf || Buffered(i)))
  {
  }

  class ShadowCache {
    var regs: Six
    var regsHw: Six
    var chip: Pll

    /** `adf4350_probe` fills `regs_hw` with ones, which no register value equals. */
    constructor (chip: Pll)
      ensures regs == seq(COUNT, _ => Mask(0)) && regsHw == seq(COUNT, _ => Mask(BITS)) && this.chip == chip
    {
      regs, regsHw, this.chip := seq(COUNT, _ => Mask(0)), seq(COUNT, _ => Mask(BITS)), chip;
    }

    function Snapshot(): State
      reads this
    {
      State(regs, regsHw, chip)
    }

    /** `adf4350_sync_config`: -1 stands for the error of the failed transfer. */
    method SyncConfig(good: Transfers) returns (ret: int)
      modifies this`regsHw, this`chip
      ensures var out := Sync(regs, old(regsHw), old(chip), good);
              regsHw == out.hw && chip == out.chip && ret == (if out.ok then 0 else -1)
    {
      var doublebuf := false;
      var i: int := COUNT - 1;
      while i >= 0
        invariant -1 <= i < COUNT
        invariant SameEnd(Sync(regs, old(regsHw), old(chip), good), SyncFrom(regs, regsHw, chip, good, i, doublebuf))
      {
        SyncStep(regs, regsHw, chip, good, i, doublebuf);
        if regsHw[i] != regs[i] || (i == 0 && doublebuf) {
          if i == 1 || i == 4 { doublebuf := true; }
          var val := Frame(regs[i], i);
          if !good[i] { return -1; }
          chip := Receive(chip, val);
          regsHw := regsHw[i := regs[i]];
        }
        i := i - 1;
      }
      return 0;
    }

    /** `adf4350_reg_access`: a write when `value` is given, else a read of the cache. A write changes the
        one shadow register, to the value with its address bits cleared, and with success leaves all
        six cached. */
    method RegAccess(reg: nat, value: Option<Word>, good: Transfers) returns (ret: int, read: Option<Word>)
      modifies this
      ensures reg >= COUNT ==> ret == -EINVAL && read == None && Snapshot() == old(Snapshot())
      ensures reg < COUNT && value.Some? ==>
                && Snapshot() == Next(old(Snapshot()), Change(reg, value.value), good).0
                && ret == (if Next(old(Snapshot()), Change(reg, value.value), good).1 then 0 else -1) && read == None
      ensures reg < COUNT && value.Some? ==>
                && regs == old(regs)[reg := regs[reg]]
                && (forall i :: 0 <= i < BITS ==> regs[reg][i] == (i >= 3 && value.value[i]))
                && (ret == 0 ==> regsHw == regs)
      ensures reg < COUNT && value.None? ==> ret == 0 && read == Some(regsHw[reg]) && Snapshot() == old(Snapshot())
    {
      if reg >= COUNT { return -EINVAL, None; }
      if value.Some? {
        regs := regs[reg := And(value.value, Not(Mask(3)))];
        read := None;
        ghost var hw, pll := regsHw, chip;
        ret := SyncConfig(good);
        if ret == 0 { SyncComplete(regs, hw, pll, good); }
      } else {
        read := Some(regsHw[reg]);
        ret := 0;
      }
    }
  }

  // ---- one call ----

  datatype State = State(regs: Six, hw: Six, chip: Pll)

  /** What a caller does to the shadow registers before synchronising: one value through
      `adf4350_reg_access`, or all six by `adf4350_set_freq`. */
  datatype Request = Change(reg: Index, value: Word) | Load(all: Six)

  type Index = i: nat | i < COUNT

  predicate Proper(r: Request) { r.Load? ==> AllAligned(r.all) }

  function Apply(regs: Six, r: Request): Six {
    match r
    case Change(reg, value) => regs[reg := And(value, Not(Mask(3)))]
    case Load(all) => all
  }

  function Next(s: State, r: Request, good: Transfers): (State, bool) {
    var regs := Apply(s.regs, r);
    var out := Sync(regs, s.hw, s.chip, good);
    (State(regs, out.hw, out.chip), out.ok)
  }

  // ---- what one synchronisation does ----

  /** Every register ever written holds the word last cached for it. */
  predicate Agrees(hw: Six, chip: Pll) {
    forall i :: i in chip.written ==> i < COUNT && chip.latched[i] == Frame(hw[i], i)
  }

  /** Only the double-buffered registers can differ from what is in effect. */
  predicate Direct(chip: Pll) {
    forall i :: 0 <= i < COUNT && !Buffered(i) ==> chip.active[i] == chip.latched[i]
  }

  predicate Stale(chip: Pll) { chip.active[1] != chip.latched[1] || chip.active[4] != chip.latched[4] }

  /** A register never written is cached as all ones. */
  predicate Unwritten(hw: Six, chip: Pll) {
    forall i: nat :: i < COUNT && i !in chip.written ==> hw[i] == Mask(BITS)
  }

  lemma ReceiveAgrees(hw: Six, chip: Pll, v: Word, i: Index)
    requires Agrees(hw, chip) && Address(Frame(v, i)) == i
    ensures Agrees(hw[i := v], Receive(chip, Frame(v, i)))
  {
    var chip' := Receive(chip, Frame(v, i));
    forall j | j in chip'.written ensures j < COUNT && chip'.latched[j] == Frame(hw[i := v][j], j) {
      if j != i { assert j in chip.written; }
    }
  }

  lemma ReceiveDirect(chip: Pll, w: Word)
    requires Direct(chip) && Address(w) < COUNT
    ensures Direct(Receive(chip, w))
  {
  }

  lemma {:induction false} SyncAgrees(regs: Six, hw: Six, chip: Pll, good: Transfers, i: int, doublebuf: bool)
    requires -1 <= i < COUNT && AllAligned(regs) && Agrees(hw, chip) && Direct(chip) && Unwritten(hw, chip)
    ensures var out := SyncFrom(regs, hw, chip, good, i, doublebuf);
            Agrees(out.hw, out.chip) && Direct(out.chip) && Unwritten(out.hw, out.chip)
    decreases i + 1
  {
    if i < 0 {
    } else if !Needed(regs, hw, i, doublebuf) {
      SyncAgrees(regs, hw, chip, good, i - 1, doublebuf);
    } else if good[i] {
      FrameAddress(regs[i], i);
      ReceiveAgrees(hw, chip, regs[i], i);
      ReceiveDirect(chip, Frame(regs[i], i));
      SyncAgrees(regs, hw[i := regs[i]], Receive(chip, Frame(regs[i], i)), good, i - 1, doublebuf || Buffered(i));
    }
  }

  /** A register among the lowest ones that is double buffered and out of date. */
  predicate BufferedChange(regs: Six, hw: Six, i: int) {
    (i >= 1 && hw[1] != regs[1]) || (i >= 4 && hw[4] != regs[4])
  }

  lemma {:induction false} SyncedUp(regs: Six, hw: Six, chip: Pll, good: Transfers, i: int, doublebuf: bool)
    requires -1 <= i < COUNT
    ensures var out := SyncFrom(regs, hw, chip, good, i, doublebuf);
            out.ok ==> forall j :: 0 <= j < COUNT ==> out.hw[j] == (if j <= i then regs[j] else hw[j])
    decreases i + 1
  {
    if i < 0 {
    } else if !Needed(regs, hw, i, doublebuf) {
      SyncedUp(regs, hw, chip, good, i - 1, doublebuf);
    } else if good[i] {
      SyncedUp(regs, hw[i := regs[i]], Receive(chip, Frame(regs[i], i)), good, i - 1, doublebuf || Buffered(i));
    }
  }

  /** Transfers are made in descending order, so register 0 is always the last. */
  lemma {:induction false} SentDescending(regs: Six, hw: Six, chip: Pll, good: Transfers, i: int, doublebuf: bool)
    requires -1 <= i < COUNT
    ensures var sent := SyncFrom(regs, hw, chip, good, i, doublebuf).sent;
            && (forall a :: 0 <= a < |sent| ==> 0 <= sent[a] <= i)
            && (forall a, b :: 0 <= a < b < |sent| ==> sent[a] > sent[b])
    decreases i + 1
  {
    if i < 0 {
    } else if !Needed(regs, hw, i, doublebuf) {
      SentDescending(regs, hw, chip, good, i - 1, doublebuf);
      assert SyncFrom(regs, hw, chip, good, i, doublebuf) == SyncFrom(regs, hw, chip, good, i - 1, doublebuf);
    } else if good[i] {
      SentDescending(regs, hw[i := regs[i]], Receive(chip, Frame(regs[i], i)), good, i - 1, doublebuf || Buffered(i));
    }
  }

  /** A successful call sent exactly the registers that differed, and register 0 if it or a
      double-buffered one did. */
  lemma {:induction false} SentExactly(regs: Six, hw: Six, chip: Pll, good: Transfers, i: int, doublebuf: bool, j: int)
    requires -1 <= i < COUNT && SyncFrom(regs, hw, chip, good, i, doublebuf).ok
    ensures j in SyncFrom(regs, hw, chip, good, i, doublebuf).sent <==>
              0 <= j <= i && (hw[j] != regs[j] || (j == 0 && (doublebuf || BufferedChange(regs, hw, i))))
    decreases i + 1
  {
    if i < 0 {
    } else if !Needed(regs, hw, i, doublebuf) {
      SentExactly(regs, hw, chip, good, i - 1, doublebuf, j);
    } else {
      var hw', chip' := hw[i := regs[i]], Receive(chip, Frame(regs[i], i));
      SentExactly(regs, hw', chip', good, i - 1, doublebuf || Buffered(i), j);
      var rest := SyncFrom(regs, hw', chip', good, i - 1, doublebuf || Buffered(i));
      assert j in [i] + rest.sent <==> j == i || j in rest.sent;
    }
  }

  /** A successful call leaves the cache equal to the shadow; it sent each register at most
      once, in descending order, and if register 1 or 4 was among them then register 0 last. */
  lemma SyncComplete(regs: Six, hw: Six, chip: Pll, good: Transfers)
    requires Sync(regs, hw, chip, good).ok
    ensures var out := Sync(regs, hw, chip, good);
            && out.hw == regs
            && (forall a, b :: 0 <= a < b < |out.sent| ==> out.sent[a] > out.sent[b])
            && (forall j :: 1 <= j < COUNT ==> (j in out.sent <==> hw[j] != regs[j]))
            && (0 in out.sent <==> TouchesBuffer(hw, regs))
            && (1 in out.sent || 4 in out.sent ==> |out.sent| > 0 && out.sent[|out.sent| - 1] == 0)
  {
    var out := Sync(regs, hw, chip, good);
    SyncedUp(regs, hw, chip, good, COUNT - 1, false);
    SentDescending(regs, hw, chip, good, COUNT - 1, false);
    forall j ensures j in out.sent <==> ToSend(regs, hw, j) {
      SentExactly(regs, hw, chip, good, COUNT - 1, false, j);
    }
    assert ToSend(regs, hw, 1) || ToSend(regs, hw, 4) ==> ToSend(regs, hw, 0);
    if 0 in out.sent { ZeroIsLast(out.sent); }
  }

  predicate ToSend(regs: Six, hw: Six, j: int) {
    0 <= j < COUNT && (hw[j] != regs[j] || (j == 0 && TouchesBuffer(hw, regs)))
  }

  lemma ZeroIsLast(sent: seq<int>)
    requires 0 in sent && forall a :: 0 <= a < |sent| ==> 0 <= sent[a]
    requires forall a, b :: 0 <= a < b < |sent| ==> sent[a] > sent[b]
    ensures sent[|sent| - 1] == 0
  {
    var k :| 0 <= k < |sent| && sent[k] == 0;
    if k < |sent| - 1 { assert sent[k] > sent[|sent| - 1]; }
  }

  /** A failed call stopped at the highest register that needed a transfer it could not make:
      everything above is up to date, it and everything below is as before. */
  lemma {:induction false} SyncFailed(regs: Six, hw: Six, chip: Pll, good: Transfers, i: int, doublebuf: bool)
      returns (at: nat)
    requires -1 <= i < COUNT && !SyncFrom(regs, hw, chip, good, i, doublebuf).ok
    ensures at <= i && !good[at] && (hw[at] != regs[at] || at == 0)
    ensures var out := SyncFrom(regs, hw, chip, good, i, doublebuf);
            forall j :: 0 <= j < COUNT ==> out.hw[j] == (if at < j <= i then regs[j] else hw[j])
    decreases i + 1
  {
    if !Needed(regs, hw, i, doublebuf) {
      at := SyncFailed(regs, hw, chip, good, i - 1, doublebuf);
    } else if good[i] {
      at := SyncFailed(regs, hw[i := regs[i]], Receive(chip, Frame(regs[i], i)), good, i - 1, doublebuf || Buffered(i));
    } else {
      at := i;
    }
  }

  /** With `pending` for a double-buffered write not yet made effective: a call that succeeds
      clears it exactly when it writes register 0. */
  lemma {:induction false} SyncEffect(regs: Six, hw: Six, chip: Pll, good: Transfers, i: int, doublebuf: bool)
    requires -1 <= i < COUNT && AllAligned(regs)
    ensures var out := SyncFrom(regs, hw, chip, good, i, doublebuf);
            out.ok ==> if 0 in out.sent then !Stale(out.chip)
                       else if i >= 0 then (Stale(out.chip) <==> Stale(chip)) else out.chip == chip
    decreases i + 1
  {
    if i < 0 {
    } else if !Needed(regs, hw, i, doublebuf) {
      SyncEffect(regs, hw, chip, good, i - 1, doublebuf);
    } else if good[i] {
      var hw', chip' := hw[i := regs[i]], Receive(chip, Frame(regs[i], i));
      FrameAddress(regs[i], i);
      SyncEffect(regs, hw', chip', good, i - 1, doublebuf || Buffered(i));
      var rest := SyncFrom(regs, hw', chip', good, i - 1, doublebuf || Buffered(i));
      if rest.ok { SentExactly(regs, hw', chip', good, i - 1, doublebuf || Buffered(i), 0); }
      assert 0 in [i] + rest.sent <==> i == 0 || 0 in rest.sent;
    }
  }

  // ---- runs ----

  datatype Call = Call(request: Request, good: Transfers)

  predicate Initial(s: State) {
    && AllAligned(s.regs) && s.hw == seq(COUNT, _ => Mask(BITS)) && s.chip.written == {}
    && Direct(s.chip) && !Stale(s.chip)
  }

  predicate AllProper(calls: seq<Call>) { forall k :: 0 <= k < |calls| ==> Proper(calls[k].request) }

  function Run(s: State, calls: seq<Call>): State
    decreases |calls|
  {
    if calls == [] then s else
    var last := calls[|calls| - 1];
    Next(Run(s, calls[..|calls| - 1]), last.request, last.good).0
  }

  predicate Inv(s: State) {
    AllAligned(s.regs) && Agrees(s.hw, s.chip) && Direct(s.chip) && Unwritten(s.hw, s.chip)
  }

  lemma NextKeeps(s: State, r: Request, good: Transfers)
    requires Proper(r) && Inv(s)
    ensures Inv(Next(s, r, good).0)
  {
    SyncAgrees(Apply(s.regs, r), s.hw, s.chip, good, COUNT - 1, false);
  }

  /** Over any run of calls with any transfers failing, every register ever written holds
      `regs_hw[i] | i`. */
  lemma {:induction false} RunAgrees(s: State, calls: seq<Call>)
    requires Initial(s) && AllProper(calls)
    ensures Inv(Run(s, calls))
    decreases |calls|
  {
    if calls != [] {
      var last := calls[|calls| - 1];
      RunAgrees(s, calls[..|calls| - 1]);
      NextKeeps(Run(s, calls[..|calls| - 1]), last.request, last.good);
    }
  }

  /** The synthesiser works with the cached values. */
  predicate InEffect(s: State) { forall i :: 0 <= i < COUNT ==> s.chip.active[i] == Frame(s.regs[i], i) }

  predicate TouchesBuffer(before: Six, after: Six) {
    before[0] != after[0] || before[1] != after[1] || before[4] != after[4]
  }

  /** A successful call leaves the cache up to date and the synthesiser with all six registers
      latched. */
  lemma SuccessLatches(s: State, r: Request, good: Transfers)
    requires Inv(s) && Proper(r) && Next(s, r, good).1
    ensures var s' := Next(s, r, good).0;
            && s'.hw == s'.regs == Apply(s.regs, r) && Direct(s'.chip)
            && forall i: nat :: i < COUNT ==> s'.chip.latched[i] == Frame(s'.regs[i], i)
  {
    var regs := Apply(s.regs, r);
    NextKeeps(s, r, good);
    SyncComplete(regs, s.hw, s.chip, good);
    var s' := Next(s, r, good).0;
    assert forall i :: 0 <= i < COUNT ==> s'.hw[i] == regs[i];
    forall i: nat | i < COUNT ensures i in s'.chip.written {
      assert Mask(BITS)[0] && !regs[i][0];
    }
  }

  /** It is then in effect if nothing was pending before or it had register 0, 1 or 4 to write. */
  lemma SuccessStale(s: State, r: Request, good: Transfers)
    requires Inv(s) && Proper(r) && Next(s, r, good).1
    ensures Stale(Next(s, r, good).0.chip) <==> Stale(s.chip) && !TouchesBuffer(s.hw, Apply(s.regs, r))
  {
    SyncComplete(Apply(s.regs, r), s.hw, s.chip, good);
    SyncEffect(Apply(s.regs, r), s.hw, s.chip, good, COUNT - 1, false);
  }

  /** The cached values of registers 1 and 4 when register 0 was last sent: by a call that succeeded
      and had register 0, 1 or 4 to write. */
  function AtLastZero(s: State, calls: seq<Call>): Option<(Word, Word)>
    decreases |calls|
  {
    if calls == [] then None else
    var front, last := calls[..|calls| - 1], calls[|calls| - 1];
    var regs := Apply(Run(s, front).regs, last.request);
    if Next(Run(s, front), last.request, last.good).1 && TouchesBuffer(Run(s, front).hw, regs) then
      Some((regs[1], regs[4]))
    else
      AtLastZero(s, front)
  }

  /** Registers 1 and 4 in effect are those values, and without them register 0 was never sent. */
  predicate Remembers(s: State, at: Option<(Word, Word)>) {
    match at
    case None => 0 !in s.chip.written
    case Some((one, four)) =>
      Aligned(one) && Aligned(four) && s.chip.active[1] == Frame(one, 1) && s.chip.active[4] == Frame(four, 4)
  }

  lemma {:induction false} NoZeroSent(regs: Six, hw: Six, chip: Pll, good: Transfers, i: int, doublebuf: bool)
    requires -1 <= i < COUNT && AllAligned(regs)
    ensures var out := SyncFrom(regs, hw, chip, good, i, doublebuf);
            !out.ok || 0 !in out.sent ==>
              && out.chip.active[1] == chip.active[1] && out.chip.active[4] == chip.active[4]
              && (0 !in chip.written ==> 0 !in out.chip.written)
    decreases i + 1
  {
    if i < 0 {
    } else if !Needed(regs, hw, i, doublebuf) {
      NoZeroSent(regs, hw, chip, good, i - 1, doublebuf);
    } else if good[i] {
      FrameAddress(regs[i], i);
      var hw', chip' := hw[i := regs[i]], Receive(chip, Frame(regs[i], i));
      NoZeroSent(regs, hw', chip', good, i - 1, doublebuf || Buffered(i));
      var rest := SyncFrom(regs, hw', chip', good, i - 1, doublebuf || Buffered(i));
      assert 0 in [i] + rest.sent <==> i == 0 || 0 in rest.sent;
    }
  }

  lemma NextRemembers(s: State, r: Request, good: Transfers, at: Option<(Word, Word)>)
    requires Inv(s) && Proper(r) && Remembers(s, at)
    ensures var regs := Apply(s.regs, r);
            Remembers(Next(s, r, good).0,
                      if Next(s, r, good).1 && TouchesBuffer(s.hw, regs) then Some((regs[1], regs[4])) else at)
  {
    var regs := Apply(s.regs, r);
    assert AllAligned(regs);
    if Next(s, r, good).1 && TouchesBuffer(s.hw, regs) {
      SuccessLatches(s, r, good);
      SuccessStale(s, r, good);
    } else {
      if Next(s, r, good).1 { SyncComplete(regs, s.hw, s.chip, good); }
      NoZeroSent(regs, s.hw, s.chip, good, COUNT - 1, false);
    }
  }

  lemma {:induction false} RunRemembers(s: State, calls: seq<Call>)
    requires Initial(s) && AllProper(calls)
    ensures Remembers(Run(s, calls), AtLastZero(s, calls))
    decreases |calls|
  {
    if calls != [] {
      var front, last := calls[..|calls| - 1], calls[|calls| - 1];
      RunRemembers(s, front);
      RunAgrees(s, front);
      NextRemembers(Run(s, front), last.request, last.good, AtLastZero(s, front));
    }
  }

  /** With registers 1 and 4 cached, something is pending exactly when their values are others than
      when register 0 was last sent. */
  lemma StaleIff(s: State, at: Option<(Word, Word)>)
    requires Inv(s) && Remembers(s, at) && at.Some? && 1 in s.chip.written && 4 in s.chip.written
    requires Aligned(s.hw[1]) && Aligned(s.hw[4])
    ensures Stale(s.chip) <==> at != Some((s.hw[1], s.hw[4]))
  {
    if s.chip.active[1] == s.chip.latched[1] { FrameInjective(at.value.0, s.hw[1], 1); }
    if s.chip.active[4] == s.chip.latched[4] { FrameInjective(at.value.1, s.hw[4], 4); }
  }

  /** After a successful call, in any run, the cache is up to date and the synthesiser has
      latched all six registers; it also works with them if and only if this call had register 0,
      1 or 4 to write, or registers 1 and 4 were cached with the values they had when register 0
      was last sent. */
  lemma SuccessInEffectIff(s0: State, calls: seq<Call>, r: Request, good: Transfers)
    requires Initial(s0) && AllProper(calls) && Proper(r)
    requires Next(Run(s0, calls), r, good).1
    ensures var s := Run(s0, calls);
            var s' := Next(s, r, good).0;
            && s'.hw == s'.regs == Apply(s.regs, r)
            && (forall i: nat :: i < COUNT ==> s'.chip.latched[i] == Frame(s'.regs[i], i))
            && (InEffect(s') <==> TouchesBuffer(s.hw, s'.regs) || AtLastZero(s0, calls) == Some((s.hw[1], s.hw[4])))
  {
    var s := Run(s0, calls);
    RunAgrees(s0, calls);
    RunRemembers(s0, calls);
    SuccessLatches(s, r, good);
    SuccessStale(s, r, good);
    EffectIffNotStale(Next(s, r, good).0);
    if !TouchesBuffer(s.hw, Apply(s.regs, r)) {
      UntouchedIsWritten(s, r);
      StaleIff(s, AtLastZero(s0, calls));
    }
  }

  lemma UntouchedIsWritten(s: State, r: Request)
    requires Inv(s) && Proper(r) && !TouchesBuffer(s.hw, Apply(s.regs, r))
    ensures 0 in s.chip.written && 1 in s.chip.written && 4 in s.chip.written && Aligned(s.hw[1]) && Aligned(s.hw[4])
  {
    assert AllAligned(Apply(s.regs, r)) && Mask(BITS)[0];
  }

  lemma EffectIffNotStale(s: State)
    requires Direct(s.chip) && forall i: nat :: i < COUNT ==> s.chip.latched[i] == Frame(s.regs[i], i)
    ensures InEffect(s) <==> !Stale(s.chip)
  {
    assert Buffered(1) && Buffered(4);
  }

  /** As long as no call fails, what is cached is in effect. */
  lemma {:induction false} NoFailureInEffect(s0: State, calls: seq<Call>)
    requires Initial(s0) && AllProper(calls)
    requires forall k :: 0 <= k < |calls| ==> Next(Run(s0, calls[..k]), calls[k].request, calls[k].good).1
    ensures !Stale(Run(s0, calls).chip) && (calls != [] ==> InEffect(Run(s0, calls)))
    decreases |calls|
  {
    if calls != [] {
      var front, last := calls[..|calls| - 1], calls[|calls| - 1];
      assert forall k :: 0 <= k < |front| ==> front[..k] == calls[..k];
      NoFailureInEffect(s0, front);
      RunAgrees(s0, front);
      SuccessLatches(Run(s0, front), last.request, last.good);
      SuccessStale(Run(s0, front), last.request, last.good);
      EffectIffNotStale(Run(s0, calls));
    }
  }

  lemma {:induction false} NothingToSend(regs: Six, chip: Pll, good: Transfers, i: int)
    requires -1 <= i < COUNT
    ensures SyncFrom(regs, regs, chip, good, i, false) == Outcome(regs, chip, true, [])
    decreases i + 1
  {
    if i >= 0 { NothingToSend(regs, chip, good, i - 1); }
  }

  /** Registers above `i` up to date: the descent reaches `i` with nothing done. */
  lemma {:induction false} Descend(regs: Six, hw: Six, chip: Pll, good: Transfers, from: int, i: int)
    requires 0 <= i <= from < COUNT && forall j :: i < j <= from ==> hw[j] == regs[j]
    ensures SyncFrom(regs, hw, chip, good, from, false) == SyncFrom(regs, hw, chip, good, i, false)
    decreases from
  {
    if i < from { Descend(regs, hw, chip, good, from - 1, i); }
  }

  /** But retrying after a failure can report success without effect: change register 1 of an
      up-to-date synthesiser, let only the transfer of register 0 fail, and repeat the call. */
  lemma RetryLeavesStale(s: State, value: Word, bad: Transfers, good: Transfers)
    requires Inv(s) && s.hw == s.regs && !Stale(s.chip) && (forall i: nat :: i < COUNT ==> i in s.chip.written)
    requires And(value, Not(Mask(3))) != s.regs[1] && !bad[0] && bad[1] && good == seq(COUNT, _ => true)
    ensures var failed := Next(s, Change(1, value), bad);
            var retried := Next(failed.0, Change(1, value), good);
            !failed.1 && retried.1 && retried.0.hw == retried.0.regs && !InEffect(retried.0)
  {
    var v := And(value, Not(Mask(3)));
    var regs := s.regs[1 := v];
    Descend(regs, s.hw, s.chip, bad, COUNT - 1, 1);
    assert s.hw[1 := v] == regs;
    var chip := Receive(s.chip, Frame(v, 1));
    assert Next(s, Change(1, value), bad) == (State(regs, regs, chip), false);
    assert regs[1 := v] == regs;
    NothingToSend(regs, chip, good, COUNT - 1);
    FrameAddress(v, 1);
    assert Agrees(s.hw, s.chip) && s.chip.latched[1] == Frame(s.hw[1], 1);
    if Frame(v, 1) == Frame(s.hw[1], 1) { FrameInjective(v, s.hw[1], 1); }
    assert chip.active[1] == s.chip.active[1] == Frame(s.hw[1], 1);
  }
}
