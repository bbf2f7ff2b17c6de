/** Fetching a payload from a list of untrusted candidate URLs. */
module Acquire {
  import opened Text
  import opened Hashes

  /** One item of a response body stream. */
  datatype Chunk = Data(bytes: Bytes) | Broken

  /** How a request turns out: no response at all, a refusal, or a body with an optional declared
      length that need not be true. */
  datatype Response = Unreachable | Refusal(status: nat) | Stream(declared: Option<nat>, chunks: seq<Chunk>)

  datatype FetchError = NoResponse | HttpStatus(status: nat) | DeclaredTooLong(len: nat) | BrokenStream | TooLong

  datatype Fetched = Body(bytes: Bytes) | Failed(error: FetchError)

  datatype AcquireError = NoCandidates | Mismatch(candidate: nat) | Fetch(candidate: nat, error: FetchError)

  datatype Acquired = Verified(bytes: Bytes) | NotAcquired(last: AcquireError)

  function Concat(chunks: seq<Chunk>): Bytes {
    if chunks == [] then []
    else (if chunks[0].Data? then chunks[0].bytes else []) + Concat(chunks[1..])
  }

  ghost predicate Unbroken(chunks: seq<Chunk>) {
    forall k :: 0 <= k < |chunks| ==> chunks[k].Data?
  }

  lemma {:induction false} ConcatSnoc(chunks: seq<Chunk>, c: Chunk)
    ensures Concat(chunks + [c]) == Concat(chunks) + if c.Data? then c.bytes else []
  {
    if chunks == [] {
      assert [] + [c] == [c];
      assert Concat([c][1..]) == [];
    } else {
      assert (chunks + [c])[1..] == chunks[1..] + [c];
      ConcatSnoc(chunks[1..], c);
    }
  }

  lemma {:induction false} ConcatPrefix(chunks: seq<Chunk>, k: nat)
    requires k <= |chunks|
    ensures |Concat(chunks[..k])| <= |Concat(chunks)|
    decreases |chunks| - k
  {
    if k == |chunks| {
      assert chunks[..k] == chunks;
    } else {
      assert chunks[..k + 1] == chunks[..k] + [chunks[k]];
      ConcatSnoc(chunks[..k], chunks[k]);
      ConcatPrefix(chunks, k + 1);
    }
  }

  /** Stream a body under a cap. `peak` is the most that was ever buffered. */
  method FetchCapped(response: Response, maxBytes: nat) returns (r: Fetched, ghost peak: nat)
    ensures r == Capped(response, maxBytes)
    ensures peak <= maxBytes && (r.Body? ==> peak == |r.bytes|)
  {
    peak := 0;
    if response.Unreachable? {
      return Failed(NoResponse), 0;
    }
    if response.Refusal? {
      return Failed(HttpStatus(response.status)), 0;
    }
    if response.declared.Some? && response.declared.value > maxBytes {
      return Failed(DeclaredTooLong(response.declared.value)), 0;
    }
    var out: Bytes := [];
    var chunks := response.chunks;
    for i := 0 to |chunks|
      invariant out == Concat(chunks[..i]) && peak == |out| <= maxBytes && Unbroken(chunks[..i])
      invariant CappedFrom(chunks, i, out, maxBytes) == CappedFrom(chunks, 0, [], maxBytes)
    {
      assert chunks[..i + 1] == chunks[..i] + [chunks[i]];
      ConcatSnoc(chunks[..i], chunks[i]);
      if chunks[i].Broken? {
        return Failed(BrokenStream), peak;
      }
      if |out| + |chunks[i].bytes| > maxBytes {
        return Failed(TooLong), peak;
      }
      out := out + chunks[i].bytes;
      peak := |out|;
    }
    r := Body(out);
  }

  function CappedFrom(chunks: seq<Chunk>, i: nat, out: Bytes, maxBytes: nat): Fetched
    requires i <= |chunks|
    decreases |chunks| - i
  {
    if i == |chunks| then Body(out)
    else if chunks[i].Broken? then Failed(BrokenStream)
    else if |out| + |chunks[i].bytes| > maxBytes then Failed(TooLong)
    else CappedFrom(chunks, i + 1, out + chunks[i].bytes, maxBytes)
  }

  function Capped(response: Response, maxBytes: nat): Fetched {
    match response
    case Unreachable => Failed(NoResponse)
    case Refusal(status) => Failed(HttpStatus(status))
    case Stream(declared, chunks) =>
      if declared.Some? && declared.value > maxBytes then Failed(DeclaredTooLong(declared.value))
      else CappedFrom(chunks, 0, [], maxBytes)
  }

  lemma {:induction false} CappedFromWhole(chunks: seq<Chunk>, i: nat, out: Bytes, maxBytes: nat)
    requires i <= |chunks| && out == Concat(chunks[..i]) && |out| <= maxBytes && Unbroken(chunks[..i])
    ensures CappedFrom(chunks, i, out, maxBytes).Body? <==> Unbroken(chunks) && |Concat(chunks)| <= maxBytes
    ensures CappedFrom(chunks, i, out, maxBytes).Body? ==> CappedFrom(chunks, i, out, maxBytes).bytes == Concat(chunks)
    ensures Unbroken(chunks) && |Concat(chunks)| > maxBytes ==> CappedFrom(chunks, i, out, maxBytes) == Failed(TooLong)
    decreases |chunks| - i
  {
    if i == |chunks| {
      assert chunks[..i] == chunks;
    } else if chunks[i].Data? {
      assert chunks[..i + 1] == chunks[..i] + [chunks[i]];
      ConcatSnoc(chunks[..i], chunks[i]);
      if |out| + |chunks[i].bytes| > maxBytes {
        ConcatPrefix(chunks, i + 1);
      } else {
        CappedFromWhole(chunks, i + 1, out + chunks[i].bytes, maxBytes);
      }
    }
  }

  /** A fetch yields a body exactly when the server answers, declares no more than the cap, and
      streams no more than the cap without breaking; the body is then the whole stream. */
  lemma FetchedIff(response: Response, maxBytes: nat)
    ensures Capped(response, maxBytes).Body? <==>
              && response.Stream? && (response.declared.Some? ==> response.declared.value <= maxBytes)
              && Unbroken(response.chunks) && |Concat(response.chunks)| <= maxBytes
    ensures Capped(response, maxBytes).Body? ==> Capped(response, maxBytes).bytes == Concat(response.chunks)
  {
    if response.Stream? {
      CappedFromWhole(response.chunks, 0, [], maxBytes);
    }
  }

  /** Why a fetch fails: with the first thing that goes wrong, be it the request, the status, the
      declared length, a broken stream, or a chunk that does not fit any more. */
  lemma {:induction false} StreamFailsAt(chunks: seq<Chunk>, i: nat, out: Bytes, maxBytes: nat, k: nat)
    requires i <= k < |chunks| && out == Concat(chunks[..i])
    requires Unbroken(chunks[..k]) && |Concat(chunks[..k])| <= maxBytes
    requires chunks[k].Broken? || |Concat(chunks[..k])| + |chunks[k].bytes| > maxBytes
    ensures CappedFrom(chunks, i, out, maxBytes) == Failed(if chunks[k].Broken? then BrokenStream else TooLong)
    decreases k - i
  {
    if i < k {
      assert chunks[..k][i] == chunks[i];
      assert chunks[..i + 1] == chunks[..i] + [chunks[i]];
      ConcatSnoc(chunks[..i], chunks[i]);
      assert chunks[..k][..i + 1] == chunks[..i + 1];
      ConcatPrefix(chunks[..k], i + 1);
      StreamFailsAt(chunks, i + 1, out + chunks[i].bytes, maxBytes, k);
    }
  }

  lemma FailureReasons(response: Response, maxBytes: nat, k: nat)
    ensures response == Unreachable ==> Capped(response, maxBytes) == Failed(NoResponse)
    ensures response.Refusal? ==> Capped(response, maxBytes) == Failed(HttpStatus(response.status))
    ensures response.Stream? && response.declared.Some? && response.declared.value > maxBytes ==>
              Capped(response, maxBytes) == Failed(DeclaredTooLong(response.declared.value))
    ensures && response.Stream? && (response.declared.Some? ==> response.declared.value <= maxBytes)
            && k < |response.chunks| && Unbroken(response.chunks[..k]) && |Concat(response.chunks[..k])| <= maxBytes
            && (response.chunks[k].Broken? || |Concat(response.chunks[..k])| + |response.chunks[k].bytes| > maxBytes) ==>
              Capped(response, maxBytes) == Failed(if response.chunks[k].Broken? then BrokenStream else TooLong)
  {
    if && response.Stream? && k < |response.chunks| && Unbroken(response.chunks[..k])
       && |Concat(response.chunks[..k])| <= maxBytes
       && (response.chunks[k].Broken? || |Concat(response.chunks[..k])| + |response.chunks[k].bytes| > maxBytes) {
      StreamFailsAt(response.chunks, 0, [], maxBytes, k);
    }
  }

  /** How a body is cut into chunks makes no difference, to success or to the error reported. */
  lemma ChunkingDoesNotMatter(declared: Option<nat>, xs: seq<Chunk>, ys: seq<Chunk>, maxBytes: nat)
    requires Unbroken(xs) && Unbroken(ys) && Concat(xs) == Concat(ys)
    ensures Capped(Stream(declared, xs), maxBytes) == Capped(Stream(declared, ys), maxBytes)
  {
    CappedFromWhole(xs, 0, [], maxBytes);
    CappedFromWhole(ys, 0, [], maxBytes);
  }

  /** Candidate `i` delivers what is wanted. */
  ghost predicate Delivers(response: Response, hash: string, maxBytes: nat) {
    && response.Stream? && (response.declared.Some? ==> response.declared.value <= maxBytes)
    && Unbroken(response.chunks) && |Concat(response.chunks)| <= maxBytes
    && Sha256Hex(Concat(response.chunks)) == Norm(hash)
  }

  /** The body of the first candidate that delivers, if any does. */
  function FirstVerified(responses: seq<Response>, hash: string, maxBytes: nat): Option<Bytes> {
    if responses == [] then None
    else
      var fetched := Capped(responses[0], maxBytes);
      if fetched.Body? && Sha256Hex(fetched.bytes) == Norm(hash) then Some(fetched.bytes)
      else FirstVerified(responses[1..], hash, maxBytes)
  }

  lemma {:induction false} FirstVerifiedIsSound(responses: seq<Response>, hash: string, maxBytes: nat)
    ensures var r := FirstVerified(responses, hash, maxBytes);
            r.Some? ==> Sha256Hex(r.value) == Norm(hash) && |r.value| <= maxBytes
  {
    if responses != [] {
      FetchedIff(responses[0], maxBytes);
      FirstVerifiedIsSound(responses[1..], hash, maxBytes);
    }
  }

  lemma {:induction false} FirstVerifiedIff(responses: seq<Response>, hash: string, maxBytes: nat)
    ensures FirstVerified(responses, hash, maxBytes).Some?
            <==> exists i :: 0 <= i < |responses| && Delivers(responses[i], hash, maxBytes)
  {
    if responses != [] {
      FetchedIff(responses[0], maxBytes);
      FirstVerifiedIff(responses[1..], hash, maxBytes);
      assert forall i :: 0 < i < |responses| ==> responses[i] == responses[1..][i - 1];
      if i :| 0 <= i < |responses[1..]| && Delivers(responses[1..][i], hash, maxBytes) {
        assert Delivers(responses[i + 1], hash, maxBytes);
      }
    }
  }

  /** Try the candidates in order and return the first verified body. */
  method Acquire(hash: string, responses: seq<Response>, maxBytes: nat) returns (r: Acquired)
    ensures r.Verified? <==> exists i :: 0 <= i < |responses| && Delivers(responses[i], hash, maxBytes)
    ensures r.Verified? ==>
              exists i :: 0 <= i < |responses| && Delivers(responses[i], hash, maxBytes)
                          && r.bytes == Concat(responses[i].chunks)
                          && forall j :: 0 <= j < i ==> !Delivers(responses[j], hash, maxBytes)
    ensures FirstVerified(responses, hash, maxBytes) == if r.Verified? then Some(r.bytes) else None
    ensures r.Verified? ==> Sha256Hex(r.bytes) == Norm(hash) && |r.bytes| <= maxBytes && IsCanonical(Norm(hash))
    ensures r.NotAcquired? && responses == [] ==> r.last == NoCandidates
    ensures r.NotAcquired? && responses != [] ==>
              var n := |responses| - 1;
              r.last == match Capped(responses[n], maxBytes)
                        case Body(_) => Mismatch(n)
                        case Failed(e) => Fetch(n, e)
  {
    var want := Norm(hash);
    var last := NoCandidates;
    for i := 0 to |responses|
      invariant forall j :: 0 <= j < i ==> !Delivers(responses[j], hash, maxBytes)
      invariant FirstVerified(responses, hash, maxBytes) == FirstVerified(responses[i..], hash, maxBytes)
      invariant i == 0 ==> last == NoCandidates
      invariant i > 0 ==> last == match Capped(responses[i - 1], maxBytes)
                                  case Body(_) => Mismatch(i - 1)
                                  case Failed(e) => Fetch(i - 1, e)
    {
      var fetched, peak := FetchCapped(responses[i], maxBytes);
      FetchedIff(responses[i], maxBytes);
      if fetched.Body? {
        if Sha256Hex(fetched.bytes) == want {
          assert Delivers(responses[i], hash, maxBytes);
          return Verified(fetched.bytes);
        }
        last := Mismatch(i);
      } else {
        last := Fetch(i, fetched.error);
      }
    }
    r := NotAcquired(last);
  }
}
