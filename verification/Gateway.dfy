/** The HTTP gateway's answers for content, from the normalised hash to the range body. */
module Gateway {
  import opened Text
  import opened Hashes
  import opened Operations
  import opened Stores
  import opened Ranges

  datatype Response =
    | BadRequest | Gone | Busy | NotFound | SelfCheckFailed
    | Head(etag: string, contentLength: nat)
    | Content(etag: string, answer: Answer)

  /** GET. `permits` is the number of free read permits. */
  method GetContent(store: Store, raw: string, range: Option<string>, permits: nat, io: Io) returns (r: Response)
    requires store.Valid()
    ensures var h, held := Norm(raw), store.Held();
            && (r == BadRequest <==> !IsValidHash(h))
            && (r == Gone <==> IsValidHash(h) && h in store.denied)
            && (r == Busy <==> IsValidHash(h) && h !in store.denied && permits == 0)
            && (r == NotFound <==> IsValidHash(h) && h !in store.denied && permits > 0 && !(h in held && io.read))
            && (r == SelfCheckFailed <==> permits > 0 && h in held && io.read && Sha256Hex(held[h]) != h)
            && (r.Content? <==> permits > 0 && h in held && io.read && Sha256Hex(held[h]) == h)
            && (r.Content? ==>
                  && r.etag == "0x" + h && r.answer == Reply(held[h], range)
                  && (range.None? || !AsksRange(range.value) ==> r.answer == Whole(held[h]))
                  && (range.Some? && AsksRange(range.value) ==> !r.answer.Whole?))
            && !r.Head?
  {
    var h := Norm(raw);
    if !IsValidHash(h) {
      return BadRequest;
    }
    NormTwiceOnValid(raw);
    var denied := store.IsDenied(h);
    if denied {
      return Gone;
    }
    if permits == 0 {
      return Busy;
    }
    var bytes := store.Get(h, io);
    if bytes.None? {
      return NotFound;
    }
    if Sha256Hex(bytes.value) != h {
      return SelfCheckFailed;
    }
    WholeIff(bytes.value, range);
    r := Content("0x" + h, Reply(bytes.value, range));
  }

  /** HEAD. */
  method HeadContent(store: Store, raw: string) returns (r: Response)
    requires store.Valid()
    ensures r == if !IsValidHash(Norm(raw)) then BadRequest
                 else if Norm(raw) in store.denied then Gone
                 else if Norm(raw) in store.Held() then Head("0x" + Norm(raw), store.index[Norm(raw)])
                 else NotFound
    ensures store.Exact() && r.Head? ==> r.contentLength == |store.Held()[Norm(raw)]|
  {
    var h := Norm(raw);
    if !IsValidHash(h) {
      return BadRequest;
    }
    NormTwiceOnValid(raw);
    var denied := store.IsDenied(h);
    if denied {
      return Gone;
    }
    var len := store.Has(h);
    r := if len.Some? then Head("0x" + h, len.value) else NotFound;
  }

  lemma OrXorZero(d: bv8, x: bv8, y: bv8)
    ensures (d | (x ^ y)) == 0 <==> d == 0 && x == y
  {
  }

  /** Token comparison that looks at every byte: it agrees with equality. */
  method CtEq(a: seq<bv8>, b: seq<bv8>) returns (r: bool)
    ensures r <==> a == b
  {
    if |a| != |b| {
      return false;
    }
    var d: bv8 := 0;
    for i := 0 to |a|
      invariant d == 0 <==> a[..i] == b[..i]
    {
      OrXorZero(d, a[i], b[i]);
      assert a[..i + 1] == a[..i] + [a[i]] && b[..i + 1] == b[..i] + [b[i]];
      d := d | (a[i] ^ b[i]);
    }
    assert a[..|a|] == a && b[..|b|] == b;
    r := d == 0;
  }
}
