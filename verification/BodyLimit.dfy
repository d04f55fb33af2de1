/** Reading a response body chunk by chunk under a ceiling on what is held in memory. */
module BodyLimit {
  import opened Common

  type U64 = n: int | 0 <= n < 0x1_0000_0000_0000_0000

  const U64_MAX: U64 := 0xFFFF_FFFF_FFFF_FFFF

  function SaturatingAdd(a: nat, b: nat): U64 {
    if a + b > U64_MAX then U64_MAX else a + b
  }

  datatype Chunk = Data(bytes: seq<Byte>) | TransportError

  datatype Result = Body(bytes: seq<Byte>) | TooLarge(declared: Option<U64>, limit: U64) | Transport

  predicate AllData(chunks: seq<Chunk>) {
    forall i :: 0 <= i < |chunks| ==> chunks[i].Data?
  }

  /** The bytes of a run of chunks none of which failed, in order. */
  function Joined(chunks: seq<Chunk>): seq<Byte>
    requires AllData(chunks)
  {
    if chunks == [] then [] else Joined(chunks[..|chunks| - 1]) + chunks[|chunks| - 1].bytes
  }

  predicate WithinLimit(n: nat, limit: U64) {
    n <= limit || limit == U64_MAX
  }

  /** Reads a body of the given declared length and chunks. `taken` is how many chunks were taken
      from the connection, `peak` the most bytes ever held. */
  method ReadUpTo(declared: Option<U64>, chunks: seq<Chunk>, limit: U64)
      returns (r: Result, taken: nat, ghost peak: nat)
    ensures taken <= |chunks| && WithinLimit(peak, limit)
    ensures r.Body? ==> taken == |chunks| && AllData(chunks) && r.bytes == Joined(chunks)
    ensures r.Body? <==> && (declared.None? || declared.value <= limit)
                         && AllData(chunks) && WithinLimit(|Joined(chunks)|, limit)
    ensures r.TooLarge? && r.declared.Some? ==> declared == r.declared && r.declared.value > limit && taken == 0
    ensures r.TooLarge? && r.declared.None? ==>
              && 1 <= taken && AllData(chunks[..taken])
              && |Joined(chunks[..taken])| > limit && WithinLimit(|Joined(chunks[..taken - 1])|, limit)
    ensures r.TooLarge? ==> r.limit == limit
    ensures r.Transport? ==> 1 <= taken && chunks[taken - 1].TransportError? && AllData(chunks[..taken - 1])
    ensures declared.Some? && declared.value > limit ==> r == TooLarge(declared, limit)
  {
    peak := 0;
    if declared.Some? && declared.value > limit {
      return TooLarge(declared, limit), 0, peak;
    }
    var body: seq<Byte> := [];
    taken := 0;
    while taken < |chunks|
      invariant taken <= |chunks| && AllData(chunks[..taken]) && body == Joined(chunks[..taken])
      invariant WithinLimit(|body|, limit) && peak == |body|
    {
      var chunk := chunks[taken];
      taken := taken + 1;
      assert chunks[..taken][..taken - 1] == chunks[..taken - 1];
      if chunk.TransportError? {
        return Transport, taken, peak;
      }
      if SaturatingAdd(|body|, |chunk.bytes|) > limit {
        if AllData(chunks) { PrefixIsShorter(chunks, taken); }
        return TooLarge(None, limit), taken, peak;
      }
      body := body + chunk.bytes;
      peak := |body|;
    }
    assert chunks[..taken] == chunks;
    return Body(body), taken, peak;
  }

  /** Joining is order-preserving concatenation: splitting the chunks anywhere splits the body. */
  lemma {:induction false} JoinedSplits(a: seq<Chunk>, b: seq<Chunk>)
    requires AllData(a) && AllData(b)
    ensures Joined(a + b) == Joined(a) + Joined(b)
    decreases |b|
  {
    if b == [] {
      assert a + b == a;
    } else {
      var n := |b| - 1;
      assert (a + b)[..|a| + n] == a + b[..n];
      assert (a + b)[|a| + n] == b[n];
      JoinedSplits(a, b[..n]);
    }
  }

  lemma PrefixIsShorter(chunks: seq<Chunk>, n: nat)
    requires AllData(chunks) && n <= |chunks|
    ensures |Joined(chunks[..n])| <= |Joined(chunks)|
  {
    assert chunks[..n] + chunks[n..] == chunks;
    JoinedSplits(chunks[..n], chunks[n..]);
  }
}
