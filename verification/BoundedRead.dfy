/** Reading a response body in chunks, under a byte limit and an absolute deadline. */
module BoundedRead {
  import opened Wrappers

  datatype Error = LimitError | DurationError | UnboundedSource | ReadError

  const CHUNK_SIZE := 8192

  /** A response body as the network delivers it: read k hands out at most offer(k) bytes, and at least one
      unless the body is used up; it raises, on a socket timeout say, if fails(k). Without read1, read fills
      the request. */
  class Body {
    const hasRead1: bool
    const hasSocket: bool
    const offer: nat -> nat
    const fails: nat -> bool
    var rest: seq<bv8>
    var calls: nat

    constructor (bytes: seq<bv8>, offer: nat -> nat, fails: nat -> bool, hasRead1: bool, hasSocket: bool)
      ensures rest == bytes && calls == 0
      ensures this.offer == offer && this.fails == fails && this.hasRead1 == hasRead1 && this.hasSocket == hasSocket
    {
      this.offer, this.fails, this.hasRead1, this.hasSocket := offer, fails, hasRead1, hasSocket;
      rest, calls := bytes, 0;
    }

    method Read(amount: nat) returns (ok: bool, chunk: seq<bv8>)
      requires amount > 0
      modifies this
      ensures calls == old(calls) + 1 && ok == !fails(old(calls))
      ensures !ok ==> rest == old(rest)
      ensures ok ==> chunk + rest == old(rest) && |chunk| <= amount && (chunk == [] <==> old(rest) == [])
    {
      if fails(calls) {
        calls := calls + 1;
        return false, [];
      }
      ok := true;
      var size := if hasRead1 then Min(amount, Max(offer(calls), 1)) else amount;
      size := Min(size, |rest|);
      chunk, rest, calls := rest[..size], rest[size..], calls + 1;
    }
  }

  /** The i-th look at the clock happens at clock(i). */
  predicate InTime(deadline: Option<int>, clock: nat -> int, i: nat) {
    deadline.None? || clock(i) <= deadline.value
  }

  /** Whether a body of this many bytes is within the limit; an empty body always is, even under a negative one. */
  predicate Fits(size: nat, limit: int) { size <= limit || size == 0 }

  lemma Joined(data: seq<bv8>, chunk: seq<bv8>, rest: seq<bv8>)
    ensures data + (chunk + rest) == (data + chunk) + rest
  {
  }

  /** However the body is split: if the deadline does not pass while it is read, the whole body comes back when
      it is within the limit and an error when it is longer; and never more than limit + 1 bytes are taken. */
  method ReadLimited(body: Body, limit: int, deadline: Option<int>, clock: nat -> int)
    returns (result: Result<seq<bv8>, Error>)
    modifies body
    ensures body.calls >= old(body.calls)
    ensures result.Ok? ==> result.value == old(body.rest) && Fits(|result.value|, limit) && body.rest == []
    ensures result == Err(LimitError) ==> !Fits(|old(body.rest)|, limit)
    ensures result == Err(UnboundedSource) <==> !body.hasRead1 && !body.hasSocket && deadline.Some?
    ensures result == Err(DurationError) ==> !InTime(deadline, clock, body.calls - old(body.calls))
    ensures result == Err(ReadError) ==> body.calls > old(body.calls) && body.fails(body.calls - 1)
    ensures forall i: nat :: i < body.calls - old(body.calls) ==> InTime(deadline, clock, i)
    ensures (&& result != Err(UnboundedSource)
             && (forall i: nat :: i <= |old(body.rest)| ==> InTime(deadline, clock, i))
             && (forall k: nat :: old(body.calls) <= k < body.calls ==> !body.fails(k)))
            ==> result == if Fits(|old(body.rest)|, limit) then Ok(old(body.rest)) else Err(LimitError)
    ensures |old(body.rest)| - |body.rest| <= Max(limit, 0) + 1
  {
    if !body.hasRead1 && deadline.Some? && !body.hasSocket {
      return Err(UnboundedSource);
    }
    var data, total, round := [], 0, 0;
    while true
      invariant total == |data| && data + body.rest == old(body.rest)
      invariant Fits(total, limit)
      invariant forall i: nat :: i < round ==> InTime(deadline, clock, i)
      invariant round == body.calls - old(body.calls) && 0 <= round <= total
      decreases |body.rest|
    {
      if deadline.Some? && clock(round) > deadline.value {
        return Err(DurationError);
      }
      var remaining := limit - total + 1;
      var readSize := Min(CHUNK_SIZE, Max(remaining, 1));
      var ok, chunk := body.Read(readSize);
      if !ok {
        return Err(ReadError);
      }
      if chunk == [] {
        assert data + body.rest == data;
        break;
      }
      Joined(data, chunk, body.rest);
      total := total + |chunk|;
      if total > limit {
        return Err(LimitError);
      }
      data := data + chunk;
      round := round + 1;
    }
    return Ok(data);
  }
}
