/** `cdev_write` (sw/langford_driver/langford.c:494-533) as the method it is, preempted before
    every access to the ring, and proved to take only steps of `TxStream`. */
module TxCall {
  import opened Options
  import opened Ring
  import opened TxStream

  class WriteCall {
    const blk: nat
    /** What the kernel thread and the device do at each preemption. */
    const others: nat -> seq<Action>
    var tick: nat
    var s: Tx
    ghost const origin: Tx
    ghost var trace: seq<Action>

    /** How many tests the wait loop has made. */
    ghost function Tests(): nat
      reads this
    {
      Checks(trace)
    }

    /** Everything done so far is a run of the step system that ends in the present state. */
    ghost predicate Running()
      reads this
    {
      Init(blk, origin) && Leads(blk, origin, trace, s)
    }

    lemma ShapeNow()
      requires Running()
      ensures Shape(blk, s)
    {
    }

    constructor (blk: nat, s: Tx, others: nat -> seq<Action>)
      requires Init(blk, s)
      ensures Running() && this.blk == blk && this.s == s && trace == []
    {
      this.blk, this.s, this.others, tick := blk, s, others, 0;
      origin, trace := s, [];
    }

    /** One step of another party, if it can be taken; the user is this call. */
    method OtherStep(a: Action)
      requires Running()
      modifies `s, `trace
      ensures Running() && SameUser(old(s.sh), s.sh) && Tests() == old(Tests())
      ensures Shape(blk, old(s)) && s == AfterParty(blk, old(s), a)
    {
      ShapeNow();
      if OfUser(a) { return; }
      var r := Step(blk, s, a);
      if r.Some? {
        StepSameUser(blk, s, a);
        Extend(blk, origin, trace, s, a, r.value);
        s := r.value;
        CountSnoc(trace, a);
        trace := trace + [a];
      }
    }

    /** The other parties run. */
    method Yield()
      requires Running()
      modifies `s, `trace, `tick
      ensures Running() && SameUser(old(s.sh), s.sh) && Tests() == old(Tests())
      ensures Shape(blk, old(s)) && s == WithoutUserRun(blk, old(s), others(old(tick))) && tick == old(tick) + 1
    {
      ShapeNow();
      var acts := others(tick);
      tick := tick + 1;
      for i := 0 to |acts|
        invariant Running() && SameUser(old(s.sh), s.sh) && Tests() == old(Tests())
        invariant tick == old(tick) + 1 && s == WithoutUserRun(blk, old(s), acts[..i])
      {
        WithoutUserRunNext(blk, old(s), acts, i);
        OtherStep(acts[i]);
      }
      assert acts[..|acts|] == acts;
    }

    /** Records the call's own step from `before` to the present state. */
    ghost method Record(before: Tx, a: Action)
      requires Init(blk, origin) && Leads(blk, origin, trace, before)
      requires Shape(blk, before) && OfUser(a) && UserStep(blk, before.sh, a) == Some(s.sh) && s.th == before.th
      modifies `trace
      ensures Running() && Tests() == old(Tests()) + (if a == UserCheck then 1 else 0)
    {
      CountSnoc(trace, a);
      Extend(blk, origin, trace, before, a, s);
      trace := trace + [a];
    }

    /** One byte stored outside the mutex. */
    method StoreByte(at: nat)
      requires Running() && s.sh.user.Copying? && s.sh.user.copied < |s.sh.user.data|
      requires Shape(blk, s) && at < |s.sh.buf| && at == Wrap(s.sh.end + s.sh.user.copied, |s.sh.buf|)
      modifies `s, `trace
      ensures Running() && Shape(blk, s)
      ensures s.sh == old(s.sh).(buf := s.sh.buf, user := Copying(old(s.sh.user.data), old(s.sh.user.copied) + 1))
      ensures |s.sh.buf| == old(|s.sh.buf|)
    {
      ghost var before := s;
      var data, k := s.sh.user.data, s.sh.user.copied;
      s := s.(sh := s.sh.(buf := s.sh.buf[at := data[k]], user := Copying(data, k + 1)));
      Record(before, UserCopy);
    }

    /** One copy_from_user: `n` bytes to ring index `from`, not going past the end of the ring. */
    method CopyFromUser(n: nat, from: nat)
      requires Running() && Shape(blk, s) && s.sh.user.Copying?
      requires s.sh.user.copied + n <= |s.sh.user.data| && from + n <= |s.sh.buf|
      requires from < |s.sh.buf| ==> from == Wrap(s.sh.end + s.sh.user.copied, |s.sh.buf|)
      modifies `s, `trace, `tick
      ensures Running() && Shape(blk, s)
      ensures SameUser(old(s.sh), s.sh.(user := old(s.sh.user)))
      ensures s.sh.user == Copying(old(s.sh.user.data), old(s.sh.user.copied) + n)
    {
      for k := 0 to n
        invariant Running() && Shape(blk, s)
        invariant SameUser(old(s.sh), s.sh.(user := old(s.sh.user)))
        invariant s.sh.user == Copying(old(s.sh.user.data), old(s.sh.user.copied) + k)
      {
        Yield();
        ShapeNow();
        StoreByte(from + k);
      }
    }

    /** The test made under the mutex: lines 507-513. */
    method CheckRoom() returns (room: bool)
      requires Running() && s.sh.user.Waiting?
      modifies `s, `trace
      ensures Running() && Shape(blk, s)
      ensures s.sh == old(s.sh).(user := s.sh.user) && Tests() == old(Tests()) + 1
      ensures s.sh.user == if room then Copying(old(s.sh.user.data), 0) else old(s.sh.user)
    {
      ShapeNow();
      ghost var before := s;
      var data := s.sh.user.data;
      room := Avail(s.sh.start, s.sh.end, |s.sh.buf|) >= |data|;
      if room {
        s := s.(sh := s.sh.(user := Copying(data, 0)));
      }
      Record(before, UserCheck);
    }

    /** Lines 524-525. */
    method PublishEnd()
      requires Running() && Shape(blk, s) && s.sh.user.Copying? && s.sh.user.copied == |s.sh.user.data|
      modifies `s, `trace
      ensures Running() && s.sh.user.Idle? && s.sh.written == old(s.sh.written) + old(s.sh.user.data)
    {
      ghost var before := s;
      var data := s.sh.user.data;
      s := s.(sh := s.sh.(end := Wrap(s.sh.end + |data|, |s.sh.buf|), written := s.sh.written + data, user := Idle));
      Record(before, UserPublish);
    }

    /** Enters the call. */
    method Begin(data: seq<Byte>)
      requires Running() && s.sh.user.Idle?
      modifies `s, `trace
      ensures Running() && s.sh == old(s.sh).(user := Waiting(data)) && Tests() == old(Tests())
    {
      ShapeNow();
      ghost var before := s;
      s := s.(sh := s.sh.(user := Waiting(data)));
      Record(before, UserBegin(data));
    }

    /** The call, observed until its wait loop has failed `polls` tests. A call that returns has
        added its data to the written stream, and the device still receives what was written;
        one that is then still waiting has added nothing. */
    method Write(data: seq<Byte>, polls: nat) returns (rc: Option<nat>)
      requires Running() && s.sh.user.Idle?
      modifies this
      ensures Running() && s.sh.sent <= s.sh.written <= Asked(trace)
      ensures rc.Some? ==> rc.value == |data| && s.sh.user.Idle? && s.sh.written == old(s.sh.written) + data
      ensures rc.None? ==>
                && s.sh.user == Waiting(data) && s.sh.written == old(s.sh.written)
                && Tests() == old(Tests()) + polls
    {
      Begin(data);
      var room, n := false, 0;
      while !room && n < polls
        invariant Running() && s.sh.written == old(s.sh.written) && n <= polls && Tests() == old(Tests()) + n
        invariant s.sh.user == if room then Copying(data, 0) else Waiting(data)
        invariant room ==> Shape(blk, s)
      {
        Yield();
        room := CheckRoom();
        n := n + 1;
      }
      if room {
        CopyAndPublish();
        rc := Some(|data|);
      } else {
        rc := None;
      }
      NothingLostOrReordered(blk, origin, trace, s);
    }

    /** The two copy_from_user calls and what follows them: lines 519-527. */
    method CopyAndPublish()
      requires Running() && Shape(blk, s) && s.sh.user.Copying? && s.sh.user.copied == 0
      modifies `s, `trace, `tick
      ensures Running() && s.sh.user.Idle? && s.sh.written == old(s.sh.written) + old(s.sh.user.data)
    {
      var len, cap, end := |s.sh.user.data|, |s.sh.buf|, s.sh.end;
      CopyFromUser(if len < cap - end then len else cap - end, end);
      if end + len > cap {
        CopyFromUser(len - cap + end, 0);
      }
      Yield();
      ShapeNow();
      PublishEnd();
    }
  }
}
