/** The loops that move a whole buffer through a descriptor in spite of short counts
    and interrupting signals. The kernel's answers are a finite trace. */
module Transfer {
  /** One answer: up to n bytes are taken or given, the call is interrupted (EINTR), or
      it fails with another error. */
  datatype Answer = UpTo(n: nat) | Interrupted | Failure(errno: int)

  /** How the loop stands when it returns, or Waiting when the trace ends first. */
  datatype End = Finished | Error(errno: int) | Waiting

  function Min(a: nat, b: nat): nat {
    if a < b then a else b
  }

  /** What the answers offer in all. */
  function Offered(trace: seq<Answer>): nat {
    if trace == [] then 0
    else Offered(trace[..|trace| - 1])
         + match trace[|trace| - 1] case UpTo(n) => n case _ => 0
  }

  lemma OfferedNext(trace: seq<Answer>, i: nat)
    requires i < |trace|
    ensures Offered(trace[..i + 1]) ==
            Offered(trace[..i]) + match trace[i] case UpTo(n) => n case _ => 0
  {
    assert trace[..i + 1][..i] == trace[..i];
  }

  /** None of the first n answers has ended a loop that moves size bytes: each was asked
      for with something left to move, and none failed. */
  ghost predicate MovesOn(trace: seq<Answer>, size: nat, n: nat)
    requires n <= |trace|
  {
    forall i :: 0 <= i < n ==> !trace[i].Failure? && Offered(trace[..i]) < size
  }

  lemma NothingMoved(trace: seq<Answer>, size: nat)
    ensures MovesOn(trace, size, 0) && Offered(trace[..0]) == 0
  {
  }

  lemma {:induction false} MoveNext(trace: seq<Answer>, size: nat, n: nat)
    requires n < |trace| && MovesOn(trace, size, n) && Offered(trace[..n]) < size && !trace[n].Failure?
    ensures MovesOn(trace, size, n + 1)
  {
    hide Offered;
  }

  lemma {:induction false} MoveOneLess(trace: seq<Answer>, size: nat, n: nat)
    requires 0 < n <= |trace| && MovesOn(trace, size, n)
    ensures MovesOn(trace, size, n - 1) && Offered(trace[..n - 1]) < size && !trace[n - 1].Failure?
  {
    hide Offered;
  }

  lemma MinNext(size: nat, offered: nat, n: nat)
    requires offered < size
    ensures Min(size, offered) == offered
    ensures Min(size, offered + n) == offered + Min(n, size - offered) <= size
    ensures Min(size, offered + n) < size ==> Min(n, size - offered) == n
  {
  }

  /** Writes the buffer. What reached the descriptor is a prefix of it, exactly as long
      as the answers allowed, and the loop finishes exactly when that is all of it. It
      asks again exactly as long as something is left and nothing has failed. */
  method WriteBuffer(buffer: string, trace: seq<Answer>) returns (end: End, delivered: string, used: nat)
    ensures used <= |trace| && delivered <= buffer
    ensures |delivered| == Min(|buffer|, Offered(trace[..used]))
    ensures end.Finished? <==> delivered == buffer
    ensures end.Error? ==> used > 0 && trace[used - 1] == Failure(end.errno)
    ensures end.Waiting? ==> used == |trace|
    ensures used > 0 ==> MovesOn(trace, |buffer|, used - 1) && Offered(trace[..used - 1]) < |buffer|
    ensures used > 0 && trace[used - 1].Failure? ==> end.Error?
  {
    hide Offered, MovesOn, Min;
    var written := 0;
    used := 0;
    NothingMoved(trace, |buffer|);
    MinOf(|buffer|, 0);
    while written < |buffer|
      invariant used <= |trace| && written == Min(|buffer|, Offered(trace[..used])) <= |buffer|
      invariant MovesOn(trace, |buffer|, used)
      decreases |trace| - used
    {
      MinOf(|buffer|, Offered(trace[..used]));
      if used > 0 { MoveOneLess(trace, |buffer|, used); }
      if used == |trace| {
        return Waiting, buffer[..written], used;
      }
      OfferedNext(trace, used);
      if !trace[used].Failure? { MoveNext(trace, |buffer|, used); }
      var answer := trace[used];
      used := used + 1;
      match answer
      case Interrupted =>
        continue;
      case Failure(errno) =>
        return Error(errno), buffer[..written], used;
      case UpTo(n) =>
        MinNext(|buffer|, written, n);
        written := written + Min(n, |buffer| - written);
    }
    if used > 0 { MoveOneLess(trace, |buffer|, used); }
    end, delivered := Finished, buffer[..written];
    assert buffer[..written] == buffer;
  }

  lemma MinOf(size: nat, offered: nat)
    ensures Min(size, offered) <= size && (Min(size, offered) < size ==> Min(size, offered) == offered)
    ensures Min(size, offered) == size <==> offered >= size
    ensures Min(size, 0) == 0
  {
  }

  /** The read that finds the end of the stream: everything has been taken before. */
  predicate AtEnd(stream: string, trace: seq<Answer>, i: nat)
    requires i < |trace|
  {
    trace[i].UpTo? && Offered(trace[..i]) >= |stream|
  }

  /** None of the first n answers has found the end of the stream. */
  ghost predicate BeforeEnd(stream: string, trace: seq<Answer>, n: nat)
    requires n <= |trace|
  {
    forall i :: 0 <= i < n ==> !AtEnd(stream, trace, i)
  }

  /** How far a read loop has got: as far as buffer, stream and answers allow. */
  function Got(size: nat, stream: nat, offered: nat): nat {
    Min(Min(size, stream), offered)
  }

  lemma GotNext(size: nat, stream: nat, offered: nat, n: nat)
    ensures var got := Got(size, stream, offered);
            && got <= size && got <= stream && got <= offered && Got(size, stream, 0) == 0
            && (got < size ==> (offered >= stream <==> got == stream))
            && (got < size ==>
                  Got(size, stream, offered + n) == got + Min(Min(n, size - got), stream - got))
            && (got < size && n > 0 ==> (Min(Min(n, size - got), stream - got) == 0 <==> got == stream))
            && Min(Min(n, size - got), stream - got) <= stream - got
            && Min(Min(n, size - got), stream - got) <= size - got
  {
  }

  /** Reads into the buffer from a stream. A count n means that the buffer starts with
      the first n bytes of the stream and the rest of it is untouched, and n falls short
      of the buffer only at the end of the stream. The loop reads on exactly until the
      buffer is full, the end is found, or a read fails. */
  method ReadInBuffer(buffer: array<char>, stream: string, trace: seq<Answer>)
    returns (end: End, count: nat, used: nat)
    requires forall i :: 0 <= i < |trace| ==> trace[i] != UpTo(0)
    modifies buffer
    ensures used <= |trace| && count <= buffer.Length && count <= |stream|
    ensures buffer[..] == stream[..count] + old(buffer[count..])
    ensures count == Got(buffer.Length, |stream|, Offered(trace[..used]))
    ensures end.Finished? <==> count == buffer.Length || (used > 0 && AtEnd(stream, trace, used - 1))
    ensures used > 0 ==>
              && BeforeEnd(stream, trace, used - 1) && NoFailure(trace, used - 1)
              && Got(buffer.Length, |stream|, Offered(trace[..used - 1])) < buffer.Length
    ensures used > 0 && trace[used - 1].Failure? ==> end.Error?
    ensures end.Error? ==> used > 0 && trace[used - 1] == Failure(end.errno)
    ensures end.Waiting? ==> used == |trace|
  {
    hide Offered, Got, Min, AtEnd, BeforeEnd, NoFailure;
    count, used := 0, 0;
    NothingRead(stream, trace);
    GotNext(buffer.Length, |stream|, 0, 0);
    ghost var last, start := 0, buffer[..];
    while count < buffer.Length
      invariant used <= |trace| && count == Got(buffer.Length, |stream|, Offered(trace[..used]))
      invariant count <= buffer.Length && count <= |stream|
      invariant buffer[..] == stream[..count] + start[count..]
      invariant BeforeEnd(stream, trace, used) && NoFailure(trace, used)
      invariant used > 0 ==> last == Got(buffer.Length, |stream|, Offered(trace[..used - 1])) < buffer.Length
      decreases |trace| - used
    {
      ReadOneLess(stream, trace, used);
      if used == |trace| {
        return Waiting, count, used;
      }
      var answer := trace[used];
      ReadNext(stream, trace, used);
      OfferedNext(trace, used);
      EndFound(stream, trace, used);
      GotNext(buffer.Length, |stream|, Offered(trace[..used]), if answer.UpTo? then answer.n else 0);
      last := count;
      used := used + 1;
      var now;
      end, now := ReadOnce(buffer, stream, answer, count, start);
      if !end.Waiting? {
        return;
      }
      count := count + now;
    }
    ReadOneLess(stream, trace, used);
    end := Finished;
  }

  ghost predicate NoFailure(trace: seq<Answer>, n: nat)
    requires n <= |trace|
  {
    forall i :: 0 <= i < n ==> !trace[i].Failure?
  }

  /** One turn of the loop: Waiting means that it goes on, with so many more bytes. */
  method ReadOnce(buffer: array<char>, stream: string, answer: Answer, count: nat, ghost start: string)
    returns (end: End, now: nat)
    requires count <= |stream| && count < |start| == buffer.Length && answer != UpTo(0)
    requires buffer[..] == stream[..count] + start[count..]
    modifies buffer
    ensures now == if answer.UpTo? then Min(Min(answer.n, |start| - count), |stream| - count) else 0
    ensures count + now <= |stream| && count + now <= |start|
    ensures buffer[..] == stream[..count + now] + start[count + now..]
    ensures end == match answer
                   case Interrupted => Waiting
                   case Failure(errno) => Error(errno)
                   case UpTo(_) => if now == 0 then Finished else Waiting
  {
    end, now := Waiting, 0;
    match answer
    case Interrupted =>
    case Failure(errno) =>
      end := Error(errno);
    case UpTo(n) =>
      now := Min(Min(n, buffer.Length - count), |stream| - count);
      if now == 0 {
        end := Finished;
      } else {
        Store(buffer, count, stream[count..count + now]);
        Filled(stream, start, count, now);
      }
  }

  lemma NothingRead(stream: string, trace: seq<Answer>)
    ensures BeforeEnd(stream, trace, 0) && NoFailure(trace, 0) && Offered(trace[..0]) == 0
  {
  }

  lemma {:induction false} ReadNext(stream: string, trace: seq<Answer>, n: nat)
    requires n < |trace| && BeforeEnd(stream, trace, n) && NoFailure(trace, n)
    ensures !AtEnd(stream, trace, n) && !trace[n].Failure? ==>
              BeforeEnd(stream, trace, n + 1) && NoFailure(trace, n + 1)
  {
    hide AtEnd;
  }

  lemma {:induction false} ReadOneLess(stream: string, trace: seq<Answer>, n: nat)
    requires n <= |trace| && BeforeEnd(stream, trace, n) && NoFailure(trace, n)
    ensures n > 0 ==>
              && BeforeEnd(stream, trace, n - 1) && NoFailure(trace, n - 1)
              && !AtEnd(stream, trace, n - 1) && !trace[n - 1].Failure?
  {
    hide AtEnd;
  }

  lemma EndFound(stream: string, trace: seq<Answer>, i: nat)
    requires i < |trace|
    ensures AtEnd(stream, trace, i) <==> trace[i].UpTo? && Offered(trace[..i]) >= |stream|
  {
  }

  /** The kernel's copy into the buffer. */
  method Store(buffer: array<char>, at: nat, bytes: string)
    requires at + |bytes| <= buffer.Length
    modifies buffer
    ensures buffer[..] == old(buffer[..])[..at] + bytes + old(buffer[..])[at + |bytes|..]
  {
    forall k | 0 <= k < |bytes| {
      buffer[at + k] := bytes[k];
    }
  }

  lemma {:induction false} Filled(stream: string, start: string, count: nat, now: nat)
    requires count + now <= |stream| && count + now <= |start|
    ensures var b := stream[..count] + start[count..];
            b[..count] + stream[count..count + now] + b[count + now..] == stream[..count + now] + start[count + now..]
  {
    var b := stream[..count] + start[count..];
    assert b[..count] == stream[..count];
    assert b[count + now..] == start[count + now..];
    assert stream[..count + now] == stream[..count] + stream[count..count + now];
  }
}
