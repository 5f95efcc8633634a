/** `cdev_read` (sw/langford_driver/langford.c:448-489) as the method it is, preempted before
    every access to the ring, and proved to take only steps of `RxStream`. */
module RxCall {
  import opened Options
  import opened Ring
  import opened RxStream

  class ReadCall {
    const c: Config
    /** What the kernel thread and the device do at each preemption. */
    const others: nat -> seq<Action>
    var tick: nat
    var s: Rx
    ghost const origin: Rx
    ghost var trace: seq<Action>

    /** How many tests the wait loop has made. */
    ghost function Tests(): nat
      reads this
    {
      Checks(trace)
    }

    /** Everything done so far is a run of the step system that ends in the present state. */
    ghost predicate Running()
      reads this
    {
      Init(c, origin) && Leads(c, origin, trace, s)
    }

    lemma ShapeNow()
      requires Running()
      ensures Shape(c, s)
    {
    }

    constructor (c: Config, s: Rx, others: nat -> seq<Action>)
      requires Init(c, s)
      ensures Running() && this.c == c && this.s == s && trace == []
    {
      this.c, this.s, this.others, tick := c, s, others, 0;
      origin, trace := s, [];
    }

    /** One step of another party, if it can be taken; the user is this call. */
    method OtherStep(a: Action)
      requires Running()
      modifies `s, `trace
      ensures Running() && SameUser(old(s.sh), s.sh) && Tests() == old(Tests())
      ensures Shape(c, old(s)) && s == AfterParty(c, old(s), a)
    {
      ShapeNow();
      if OfUser(a) { return; }
      var r := Step(c, s, a);
      if r.Some? {
        StepSameUser(c, s, a);
        Extend(c, origin, trace, s, a, r.value);
        s := r.value;
        CountSnoc(trace, a);
        trace := trace + [a];
      }
    }

    /** The other parties run. */
    method Yield()
      requires Running()
      modifies `s, `trace, `tick
      ensures Running() && SameUser(old(s.sh), s.sh) && Tests() == old(Tests())
      ensures Shape(c, old(s)) && s == WithoutUserRun(c, old(s), others(old(tick))) && tick == old(tick) + 1
    {
      ShapeNow();
      var acts := others(tick);
      tick := tick + 1;
      for i := 0 to |acts|
        invariant Running() && SameUser(old(s.sh), s.sh) && Tests() == old(Tests())
        invariant tick == old(tick) + 1 && s == WithoutUserRun(c, old(s), acts[..i])
      {
        WithoutUserRunNext(c, old(s), acts, i);
        OtherStep(acts[i]);
      }
      assert acts[..|acts|] == acts;
    }

    /** Records the call's own step from `before` to the present state. */
    ghost method Record(before: Rx, a: Action)
      requires Init(c, origin) && Leads(c, origin, trace, before)
      requires Shape(c, before) && OfUser(a) && UserStep(c, before.sh, a) == Some(s.sh) && s.th == before.th
      modifies `trace
      ensures Running() && Tests() == old(Tests()) + (if a == UserCheck then 1 else 0)
    {
      CountSnoc(trace, a);
      Extend(c, origin, trace, before, a, s);
      trace := trace + [a];
    }

    /** One byte fetched outside the mutex. */
    method FetchByte(at: nat)
      requires Running() && s.sh.user.Copying? && |s.sh.user.got| < s.sh.user.len
      requires Shape(c, s) && at < |s.sh.buf| && at == Wrap(s.sh.start + |s.sh.user.got|, |s.sh.buf|)
      modifies `s, `trace
      ensures Running() && Shape(c, s)
      ensures s.sh == old(s.sh).(user := s.sh.user) && s.sh.user.Copying?
      ensures s.sh.user.len == old(s.sh.user.len) && |s.sh.user.got| == old(|s.sh.user.got|) + 1
    {
      ghost var before := s;
      var len, got := s.sh.user.len, s.sh.user.got;
      s := s.(sh := s.sh.(user := Copying(len, got + [s.sh.buf[at]])));
      Record(before, UserCopy);
    }

    /** One copy_to_user: `n` bytes from ring index `from`, not going past the end of the ring. */
    method CopyToUser(n: nat, from: nat)
      requires Running() && Shape(c, s) && s.sh.user.Copying?
      requires |s.sh.user.got| + n <= s.sh.user.len && from + n <= |s.sh.buf|
      requires from < |s.sh.buf| ==> from == Wrap(s.sh.start + |s.sh.user.got|, |s.sh.buf|)
      modifies `s, `trace, `tick
      ensures Running() && Shape(c, s) && SameUser(old(s.sh), s.sh.(user := old(s.sh.user)))
      ensures s.sh.user.Copying? && s.sh.user.len == old(s.sh.user.len)
      ensures |s.sh.user.got| == old(|s.sh.user.got|) + n
    {
      for k := 0 to n
        invariant Running() && Shape(c, s) && SameUser(old(s.sh), s.sh.(user := old(s.sh.user)))
        invariant s.sh.user.Copying? && s.sh.user.len == old(s.sh.user.len)
        invariant |s.sh.user.got| == old(|s.sh.user.got|) + k
      {
        Yield();
        ShapeNow();
        FetchByte(from + k);
      }
    }

    /** The test made under the mutex: lines 460-466. */
    method CheckFill() returns (enough: bool)
      requires Running() && s.sh.user.Waiting?
      modifies `s, `trace
      ensures Running() && Shape(c, s)
      ensures s.sh == old(s.sh).(user := s.sh.user) && Tests() == old(Tests()) + 1
      ensures s.sh.user == if enough then Copying(old(s.sh.user.len), []) else old(s.sh.user)
    {
      ShapeNow();
      ghost var before := s;
      var len := s.sh.user.len;
      enough := Filled(s.sh.start, s.sh.end, |s.sh.buf|) >= len;
      if enough {
        s := s.(sh := s.sh.(user := Copying(len, [])));
      }
      Record(before, UserCheck);
    }

    /** Lines 479-480. */
    method PublishStart()
      requires Running() && Shape(c, s) && s.sh.user.Copying? && |s.sh.user.got| == s.sh.user.len
      modifies `s, `trace
      ensures Running() && s.sh.user.Idle? && s.sh.delivered == old(s.sh.delivered) + old(s.sh.user.got)
    {
      ghost var before := s;
      var len, got := s.sh.user.len, s.sh.user.got;
      s := s.(sh := s.sh.(start := Wrap(s.sh.start + len, |s.sh.buf|), delivered := s.sh.delivered + got,
                          user := Idle));
      Record(before, UserPublish);
    }

    /** Enters the call. */
    method Begin(len: nat)
      requires Running() && s.sh.user.Idle?
      modifies `s, `trace
      ensures Running() && s.sh == old(s.sh).(user := Waiting(len)) && Tests() == old(Tests())
    {
      ShapeNow();
      ghost var before := s;
      s := s.(sh := s.sh.(user := Waiting(len)));
      Record(before, UserBegin(len));
    }

    /** The call, observed until its wait loop has failed `polls` tests. A call that returns has
        delivered that many bytes, the next ones received if the space check is the intended
        one; one that is then still waiting has delivered nothing. */
    method Read(len: nat, polls: nat) returns (rc: Option<seq<Byte>>)
      requires Running() && s.sh.user.Idle?
      modifies this
      ensures Running()
      ensures c.guard == TestsReadRing ==> s.sh.delivered <= Flatten(Received(trace))
      ensures rc.Some? ==> s.sh.user.Idle? && |rc.value| == len && s.sh.delivered == old(s.sh.delivered) + rc.value
      ensures rc.None? ==>
                && s.sh.user == Waiting(len) && s.sh.delivered == old(s.sh.delivered)
                && Tests() == old(Tests()) + polls
    {
      Begin(len);
      var enough, n := false, 0;
      while !enough && n < polls
        invariant Running() && s.sh.delivered == old(s.sh.delivered) && n <= polls && Tests() == old(Tests()) + n
        invariant s.sh.user == if enough then Copying(len, []) else Waiting(len)
        invariant enough ==> Shape(c, s)
      {
        Yield();
        enough := CheckFill();
        n := n + 1;
      }
      if enough {
        var got := CopyAndPublish();
        rc := Some(got);
      } else {
        rc := None;
      }
      if c.guard == TestsReadRing { ReadsFollowReception(c, origin, trace, s); }
    }

    /** The two copy_to_user calls and what follows them: lines 474-482. */
    method CopyAndPublish() returns (got: seq<Byte>)
      requires Running() && Shape(c, s) && s.sh.user.Copying? && s.sh.user.got == []
      modifies `s, `trace, `tick
      ensures Running() && s.sh.user.Idle? && |got| == old(s.sh.user.len) && s.sh.delivered == old(s.sh.delivered) + got
    {
      var len, cap, start := s.sh.user.len, |s.sh.buf|, s.sh.start;
      CopyToUser(if len < cap - start then len else cap - start, start);
      if start + len > cap {
        CopyToUser(len - cap + start, 0);
      }
      Yield();
      ShapeNow();
      got := s.sh.user.got;
      PublishStart();
    }
  }
}
