/** Writing a whole buffer by short writes (`AsyncTcpStream::write_all` in `src/net.rs`). */
module WriteAll {
  import opened Sequences

  /** How one `write` ends; `Wrote` carries the count the kernel reports. */
  datatype Reply = Wrote(n: nat) | Interrupted | Failed(code: int)

  /** `OutOfBounds` is the panic of a slice past the end; `Waiting` is a write not answered yet. */
  datatype Outcome = Done | WriteZero | Error(code: int) | OutOfBounds | Waiting

  /** One call of `write`: the bytes offered, and those of them the kernel took. */
  datatype Call = Call(offered: seq<int>, taken: seq<int>)

  datatype Trace = Trace(out: Outcome, calls: seq<Call>)

  function Took(buf: seq<int>, reply: Reply): (r: seq<int>) {
    if reply.Wrote? && reply.n <= |buf| then buf[..reply.n] else []
  }

  function Ending(buf: seq<int>, reply: Reply): (r: Outcome) {
    match reply
    case Wrote(n) => if n == 0 then WriteZero else if n > |buf| then OutOfBounds else Done
    case Interrupted => Done
    case Failed(code) => Error(code)
  }

  function Written(buf: seq<int>, replies: seq<Reply>): (t: Trace)
    decreases replies
  {
    if buf == [] then Trace(Done, [])
    else if replies == [] then Trace(Waiting, [])
    else
      var call := Call(buf, Took(buf, replies[0]));
      var end := Ending(buf, replies[0]);
      if end != Done then Trace(end, [call])
      else
        var t := Written(buf[|call.taken|..], replies[1..]);
        Trace(t.out, [call] + t.calls)
  }

  /** The loop of `write_all`, given the replies to its writes. */
  method Write(buf: seq<int>, replies: seq<Reply>) returns (out: Outcome, calls: seq<Call>)
    ensures Trace(out, calls) == Written(buf, replies)
  {
    calls := [];
    var rest, left := buf, replies;
    while rest != []
      invariant Written(buf, replies) == Trace(Written(rest, left).out, calls + Written(rest, left).calls)
      decreases left
    {
      if left == [] {
        return Waiting, calls;
      }
      var reply := left[0];
      left := left[1..];
      calls := calls + [Call(rest, Took(rest, reply))];
      match reply {
        case Wrote(n) =>
          if n == 0 {
            return WriteZero, calls;
          } else if n > |rest| {
            return OutOfBounds, calls;
          }
          rest := rest[n..];
        case Interrupted =>
        case Failed(code) => return Error(code), calls;
      }
    }
    out := Done;
  }

  function Taken(calls: seq<Call>): (r: seq<int>) {
    if calls == [] then [] else calls[0].taken + Taken(calls[1..])
  }

  /** What the kernel took, in order, is a prefix of the input; it is all of it exactly if the loop
      returned Ok. */
  lemma {:induction false} OkIffAllTaken(buf: seq<int>, replies: seq<Reply>)
    ensures Taken(Written(buf, replies).calls) <= buf
    ensures Written(buf, replies).out.Done? <==> Taken(Written(buf, replies).calls) == buf
    decreases replies
  {
    if buf != [] && replies != [] {
      var took := Took(buf, replies[0]);
      var t := Written(buf[|took|..], replies[1..]);
      if Ending(buf, replies[0]) == Done {
        OkIffAllTaken(buf[|took|..], replies[1..]);
        FirstTaken(Call(buf, took), t.calls);
        assert buf == took + buf[|took|..];
      } else {
        FirstTaken(Call(buf, took), []);
      }
    }
  }

  lemma TookFirst(buf: seq<int>, reply: Reply)
    ensures Took(buf, reply) + buf[|Took(buf, reply)|..] == buf
  {
  }

  lemma FirstTaken(c: Call, calls: seq<Call>)
    ensures Taken([c] + calls) == c.taken + Taken(calls)
  {
    assert ([c] + calls)[1..] == calls;
  }

  /** Every call offers exactly what was not taken before it: nothing is sent twice or skipped. */
  lemma {:induction false} OffersTheRest(buf: seq<int>, replies: seq<Reply>, i: nat)
    requires i < |Written(buf, replies).calls|
    ensures var calls := Written(buf, replies).calls;
            Taken(calls[..i]) + calls[i].offered == buf && calls[i].offered != []
    decreases replies
  {
    var calls := Written(buf, replies).calls;
    if i > 0 {
      var took := Took(buf, replies[0]);
      OffersTheRest(buf[|took|..], replies[1..], i - 1);
      var later := Written(buf[|took|..], replies[1..]).calls;
      assert calls[..i] == [calls[0]] + later[..i - 1];
      FirstTaken(calls[0], later[..i - 1]);
      Associate(took, Taken(later[..i - 1]), later[i - 1].offered);
      TookFirst(buf, replies[0]);
    }
  }

  function Answered(replies: seq<Reply>): (k: nat) {
    if replies == [] then 0 else (if replies[0].Interrupted? then 0 else 1) + Answered(replies[1..])
  }

  /** However often it is interrupted, the loop has ended once there were as many answers as bytes. */
  lemma {:induction false} EndsWithinAnswers(buf: seq<int>, replies: seq<Reply>)
    requires Answered(replies) >= |buf|
    ensures !Written(buf, replies).out.Waiting?
    decreases replies
  {
    if buf != [] && replies != [] && Ending(buf, replies[0]) == Done {
      EndsWithinAnswers(buf[|Took(buf, replies[0])|..], replies[1..]);
    }
  }

  /** Fewer answers may leave it waiting: one byte at a time, every byte needs its own. */
  lemma {:induction false} ByteByByteWaits(buf: seq<int>, replies: seq<Reply>)
    requires |replies| < |buf| && forall i :: 0 <= i < |replies| ==> replies[i] == Wrote(1)
    ensures Written(buf, replies).out.Waiting?
    decreases replies
  {
    if replies != [] {
      ByteByByteWaits(buf[1..], replies[1..]);
    }
  }

  /** The kernel was interrupted, or took some of what it was offered. */
  predicate GoesOn(offered: seq<int>, reply: Reply) {
    reply.Interrupted? || (reply.Wrote? && 0 < reply.n <= |offered|)
  }

  /** The reply that ends the loop with this outcome: an error is the one reported, a count of 0 is the error
      for it, and a count above what was offered is the panic. */
  predicate EndsWith(offered: seq<int>, reply: Reply, out: Outcome) {
    match out
    case Error(code) => reply == Failed(code)
    case WriteZero => reply == Wrote(0)
    case OutOfBounds => reply.Wrote? && reply.n > |offered|
    case _ => false
  }

  /** Every reply but the last was an interruption or took something; so was the last one if the loop ended
      with Ok or waits, and otherwise it decides the error. */
  lemma {:induction false} LastReplyDecides(buf: seq<int>, replies: seq<Reply>)
    ensures var t := Written(buf, replies);
            && |t.calls| <= |replies|
            && (t.out.Waiting? ==> |t.calls| == |replies|)
            && (forall i :: 0 <= i < |t.calls| - 1 ==> GoesOn(t.calls[i].offered, replies[i]))
            && (t.out !in {Done, Waiting} ==> t.calls != [])
            && (t.calls != [] ==>
                  var k := |t.calls| - 1;
                  if t.out in {Done, Waiting} then GoesOn(t.calls[k].offered, replies[k])
                  else EndsWith(t.calls[k].offered, replies[k], t.out))
    decreases replies
  {
    if buf != [] && replies != [] && Ending(buf, replies[0]) == Done {
      LastReplyDecides(buf[|Took(buf, replies[0])|..], replies[1..]);
    }
  }

  /** The kernel is taken at its word: a call took as many of the bytes offered as its reply says, and none if
      it failed or said too many. */
  lemma {:induction false} TakenAsReported(buf: seq<int>, replies: seq<Reply>, i: nat)
    requires i < |Written(buf, replies).calls|
    ensures i < |replies|
    ensures var c := Written(buf, replies).calls[i];
            match replies[i]
            case Wrote(n) => c.taken == if n <= |c.offered| then c.offered[..n] else []
            case _ => c.taken == []
    decreases replies
  {
    if i > 0 { TakenAsReported(buf[|Took(buf, replies[0])|..], replies[1..], i - 1); }
  }

  /** A kernel that never takes more than it is offered. */
  ghost predicate Honest(buf: seq<int>, replies: seq<Reply>) {
    forall i :: 0 <= i < |Written(buf, replies).calls| && i < |replies| && replies[i].Wrote? ==>
      replies[i].n <= |Written(buf, replies).calls[i].offered|
  }

  /** The panic is exactly the kernel's fault. */
  lemma {:induction false} PanicsIffDishonest(buf: seq<int>, replies: seq<Reply>)
    ensures Written(buf, replies).out.OutOfBounds? <==> !Honest(buf, replies)
    decreases replies
  {
    if buf != [] && replies != [] {
      var calls := Written(buf, replies).calls;
      if Ending(buf, replies[0]) == Done {
        var rest := buf[|Took(buf, replies[0])|..];
        PanicsIffDishonest(rest, replies[1..]);
        var later := Written(rest, replies[1..]).calls;
        assert forall i :: 0 <= i < |later| ==> later[i] == calls[i + 1];
        assert forall i :: 0 < i < |calls| ==> calls[i] == later[i - 1];
        assert forall i :: 0 < i < |replies| ==> replies[i] == replies[1..][i - 1];
        assert forall i :: 0 <= i < |replies| - 1 ==> replies[1..][i] == replies[i + 1];
      } else {
        assert calls == [Call(buf, Took(buf, replies[0]))];
        assert calls[0].offered == buf;
      }
    }
  }
}
