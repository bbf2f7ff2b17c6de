/** Range requests on a fully held object, and how they compare with section 14.1.2 of RFC 9110. */
module Ranges {
  import opened Text
  import opened Hashes
  import opened Totals

  predicate IsDigit(c: char) {
    '0' <= c <= '9'
  }

  predicate Digits(s: string) {
    s != "" && forall i :: 0 <= i < |s| ==> IsDigit(s[i])
  }

  function Value(s: string): nat
    requires forall i :: 0 <= i < |s| ==> IsDigit(s[i])
  {
    if s == "" then 0
    else
      assert IsDigit(s[|s| - 1]);
      10 * Value(s[..|s| - 1]) + (s[|s| - 1] as int - '0' as int)
  }

  /** `parse::<u64>().ok()`: an optional plus sign, digits, and a value that fits. */
  function ParseU64(s: string): Option<nat> {
    var t := if s != "" && s[0] == '+' then s[1..] else s;
    if Digits(t) && Value(t) <= U64_MAX then Some(Value(t)) else None
  }

  function FirstDash(s: string): (n: nat)
    ensures n <= |s|
    ensures n < |s| ==> s[n] == '-'
    ensures forall i :: 0 <= i < n ==> s[i] != '-'
  {
    if s == "" || s[0] == '-' then 0 else 1 + FirstDash(s[1..])
  }

  /** A parsed header: what stands before and after the first dash, where it is a number. */
  function ParseRange(s: string): Option<(Option<nat>, Option<nat>)> {
    if !("bytes=" <= s) then None
    else
      var t := s[6..];
      var n := FirstDash(t);
      if n == |t| then None else Some((ParseU64(t[..n]), ParseU64(t[n + 1..])))
  }

  function ClampRange(range: (Option<nat>, Option<nat>), total: nat): (nat, nat) {
    match range
    case (Some(s), Some(e)) => (s, Min(e, SatSub(total, 1)))
    case (Some(s), None) => (s, SatSub(total, 1))
    case (None, Some(n)) => (SatSub(total, n), SatSub(total, 1))
    case (None, None) => (0, SatSub(total, 1))
  }

  /** 200, 206 with its Content-Range and Content-Length, or 416. */
  datatype Answer =
    | Whole(body: Bytes)
    | Partial(start: nat, end: nat, total: nat, contentLength: nat, body: Bytes)
    | Unsatisfiable(total: nat)

  function Reply(bytes: Bytes, header: Option<string>): Answer {
    var range := if header.Some? then ParseRange(header.value) else None;
    if range.None? then Whole(bytes)
    else
      var total := |bytes|;
      var (start, end) := ClampRange(range.value, total);
      if start > end || start >= total then Unsatisfiable(total)
      else
        var slice := bytes[start..end + 1];
        Partial(start, end, total, |slice|, slice)
  }

  /** Whatever the header says: a partial body is the announced slice of the object, inside its
      bounds, with the length it announces; an empty object is never answered with one. */
  lemma PartialIsTheSlice(bytes: Bytes, header: Option<string>)
    ensures match Reply(bytes, header)
            case Whole(body) => body == bytes
            case Partial(start, end, total, contentLength, body) =>
              && start <= end < total == |bytes| && contentLength == |body| == end - start + 1
              && forall i :: 0 <= i < |body| ==> body[i] == bytes[start + i]
            case Unsatisfiable(total) => total == |bytes|
    ensures bytes == [] && header.Some? && ParseRange(header.value).Some? ==> Reply(bytes, header) == Unsatisfiable(0)
  {
  }

  /** The header asks for a range at all: it starts with the unit and has a dash after it. */
  predicate AsksRange(header: string) {
    "bytes=" <= header && '-' in header[6..]
  }

  /** The whole object comes back exactly when no range is asked for. */
  lemma WholeIff(bytes: Bytes, header: Option<string>)
    ensures Reply(bytes, header) == Whole(bytes) <==> header.None? || !AsksRange(header.value)
    ensures Reply(bytes, header).Whole? ==> Reply(bytes, header) == Whole(bytes)
  {
    if header.Some? && "bytes=" <= header.value {
      var t := header.value[6..];
      assert FirstDash(t) < |t| ==> t[FirstDash(t)] in t;
    }
  }

  /** What is read as a number: decimal digits, with a plus sign before them or not, that fit 64 bits. */
  lemma ParseU64Iff(s: string, v: nat)
    ensures ParseU64(s) == Some(v) <==>
              v <= 0xFFFF_FFFF_FFFF_FFFF && exists t :: Digits(t) && Value(t) == v && (s == t || s == "+" + t)
  {
    var t := if s != "" && s[0] == '+' then s[1..] else s;
    assert s == t || s == "+" + t;
    if u :| Digits(u) && Value(u) == v && (s == u || s == "+" + u) {
      assert IsDigit(u[0]);
      assert ("+" + u)[1..] == u;
    }
  }

  function Pow10(n: nat): nat {
    if n == 0 then 1 else 10 * Pow10(n - 1)
  }

  /** Decimal notation: a digit counts for itself, and what stands before `n` digits counts 10^n fold. */
  lemma {:induction false} ValueOfAppend(a: string, b: string)
    requires forall i :: 0 <= i < |a| ==> IsDigit(a[i])
    requires forall i :: 0 <= i < |b| ==> IsDigit(b[i])
    ensures forall i :: 0 <= i < |a + b| ==> IsDigit((a + b)[i])
    ensures Value(a + b) == Value(a) * Pow10(|b|) + Value(b)
    ensures Value("407") == 407
  {
    ThreeDigits();
    if b == "" {
      assert a + b == a;
    } else {
      var n := |b| - 1;
      assert (a + b)[..|a + b| - 1] == a + b[..n];
      ValueOfAppend(a, b[..n]);
      assert (a + b)[|a + b| - 1] == b[n];
      Shift(Value(a), Pow10(n), Value(b[..n]), b[n] as int - '0' as int);
    }
  }

  lemma Shift(a: nat, p: nat, b: nat, d: int)
    ensures 10 * (a * p + b) + d == a * (10 * p) + (10 * b + d)
  {
  }

  lemma ThreeDigits()
    ensures Value("407") == 407
  {
    assert "4"[..0] == "" && "40"[..1] == "4" && "407"[..2] == "40";
    assert Value("4") == 4;
    assert Value("40") == 40;
  }

  /** The positions asked for by a first and a last number, either of which may be missing. */
  predicate AskedBy(first: Option<nat>, last: Option<nat>, total: nat, p: nat) {
    && p < total
    && match (first, last)
       case (Some(s), Some(e)) => s <= p <= e
       case (Some(s), None) => s <= p
       case (None, Some(n)) => total <= p + n
       case (None, None) => true
  }

  ghost predicate Serves(answer: Answer, first: Option<nat>, last: Option<nat>, total: nat) {
    match answer
    case Whole(_) => false
    case Partial(start, end, _, _, _) => forall p: nat :: AskedBy(first, last, total, p) <==> start <= p <= end
    case Unsatisfiable(_) => forall p: nat :: !AskedBy(first, last, total, p)
  }

  /** Any range header, well-formed or not: what stands before the first dash and after it is read as a
      number or not at all, and exactly the positions those ask for are served. */
  lemma AnyRangeIsServed(bytes: Bytes, a: string, b: string)
    requires '-' !in a && |bytes| <= U64_MAX
    ensures Serves(Reply(bytes, Some("bytes=" + (a + "-" + b))), ParseU64(a), ParseU64(b), |bytes|)
  {
    ParseParts(a, b);
    ParsedIsServed(bytes, "bytes=" + (a + "-" + b), ParseU64(a), ParseU64(b));
    hide ParseU64, ParseRange, Reply, Serves;
  }

  lemma ParsedIsServed(bytes: Bytes, header: string, first: Option<nat>, last: Option<nat>)
    requires ParseRange(header) == Some((first, last))
    ensures Serves(Reply(bytes, Some(header)), first, last, |bytes|)
  {
    hide ParseRange;
  }

  lemma ParseParts(a: string, b: string)
    requires '-' !in a
    ensures ParseRange("bytes=" + (a + "-" + b)) == Some((ParseU64(a), ParseU64(b)))
  {
    hide ParseU64;
    DashAfter(a, b);
    assert ("bytes=" + (a + "-" + b))[6..] == a + "-" + b;
  }

  lemma {:induction false} DashAfter(a: string, b: string)
    requires '-' !in a
    ensures FirstDash(a + "-" + b) == |a|
    ensures (a + "-" + b)[..|a|] == a && (a + "-" + b)[|a| + 1..] == b
  {
    var s := a + "-" + b;
    if a != "" {
      assert a[0] in a && s[1..] == a[1..] + "-" + b;
      DashAfter(a[1..], b);
    }
  }

  // ---- well-formed single ranges

  /** int-range with and without a last position, and suffix-range; positions as decimal digits. */
  datatype Spec = FromTo(first: string, last: string) | From(first: string) | Suffix(length: string)

  predicate WellFormed(spec: Spec) {
    match spec
    case FromTo(first, last) => Digits(first) && Digits(last)
    case From(first) => Digits(first)
    case Suffix(length) => Digits(length)
  }

  function Render(spec: Spec): string {
    "bytes=" + match spec
               case FromTo(first, last) => first + "-" + last
               case From(first) => first + "-"
               case Suffix(length) => "-" + length
  }

  /** The positions of an object of `total` bytes that the range asks for. */
  predicate Asked(spec: Spec, total: nat, p: nat)
    requires WellFormed(spec)
  {
    && p < total
    && match spec
       case FromTo(first, last) => Value(first) <= p <= Value(last)
       case From(first) => Value(first) <= p
       case Suffix(length) => total <= p + Value(length)
  }

  /** The answer covers exactly the positions asked for; 416 says there are none. */
  ghost predicate Honours(answer: Answer, spec: Spec, total: nat)
    requires WellFormed(spec)
  {
    match answer
    case Whole(_) => false
    case Partial(start, end, _, _, _) => start <= end && forall p: nat :: Asked(spec, total, p) <==> start <= p <= end
    case Unsatisfiable(_) => forall p: nat :: !Asked(spec, total, p)
  }

  lemma NoDash(s: string)
    requires Digits(s)
    ensures '-' !in s
  {
  }

  lemma ParseOfRender(spec: Spec)
    requires WellFormed(spec)
    ensures ParseRange(Render(spec)) == match spec
                                        case FromTo(first, last) => Some((ParseU64(first), ParseU64(last)))
                                        case From(first) => Some((ParseU64(first), None))
                                        case Suffix(length) => Some((None, ParseU64(length)))
  {
    assert ParseU64("") == None;
    if !spec.Suffix? {
      NoDash(spec.first);
    }
    hide ParseU64, ParseRange, Value;
    match spec
    case FromTo(first, last) =>
      ParseParts(first, last);
    case From(first) =>
      ParseParts(first, "");
      assert first + "-" + "" == first + "-";
    case Suffix(length) =>
      ParseParts("", length);
      assert "" + "-" + length == "-" + length;
  }

  function ParsedBound(s: string): Option<nat>
    requires Digits(s)
  {
    if Value(s) <= U64_MAX then Some(Value(s)) else None
  }

  lemma ParseOfDigits(s: string)
    requires Digits(s)
    ensures ParseU64(s) == ParsedBound(s)
  {
    assert IsDigit(s[0]);
  }

  /** Range serving is exact on every well-formed single range except one family: a first position
      beyond 64 bits is read as if it were missing, which turns a range with a last position into a
      suffix, and one without into the whole object. */
  lemma RangesHonouredIff(spec: Spec, bytes: Bytes)
    requires WellFormed(spec) && |bytes| <= U64_MAX
    ensures Honours(Reply(bytes, Some(Render(spec))), spec, |bytes|)
            <==> (spec.Suffix? || Value(spec.first) <= U64_MAX || bytes == []
                  || (spec.FromTo? && Value(spec.last) == 0))
  {
    hide Reply, Honours, Render;
    match spec
    case Suffix(_) => SuffixHonoured(spec, bytes);
    case _ =>
      if Value(spec.first) <= U64_MAX {
        BoundedHonoured(spec, bytes);
      } else if bytes != [] {
        UnboundedIsSuffix(spec, bytes);
      } else {
        EmptyHonoured(spec);
      }
  }

  lemma SuffixHonoured(spec: Spec, bytes: Bytes)
    requires WellFormed(spec) && |bytes| <= U64_MAX && spec.Suffix?
    ensures Honours(Reply(bytes, Some(Render(spec))), spec, |bytes|)
  {
    ParseOfRender(spec);
    ParseOfDigits(spec.length);
    hide ParseRange, ParseU64, Render, Digits;
  }

  lemma EmptyHonoured(spec: Spec)
    requires WellFormed(spec)
    ensures Honours(Reply([], Some(Render(spec))), spec, 0)
  {
    ParseOfRender(spec);
    hide ParseRange, ParseU64, Render, Digits;
  }

  lemma UnboundedIsSuffix(spec: Spec, bytes: Bytes)
    requires WellFormed(spec) && 0 < |bytes| <= U64_MAX && !spec.Suffix? && Value(spec.first) > U64_MAX
    ensures Honours(Reply(bytes, Some(Render(spec))), spec, |bytes|) <==> spec.FromTo? && Value(spec.last) == 0
  {
    var answer := Reply(bytes, Some(Render(spec)));
    ParseOfRender(spec);
    ParseOfDigits(spec.first);
    if spec.FromTo? {
      ParseOfDigits(spec.last);
    }
    hide ParseRange, ParseU64, Render, Digits;
    if answer.Partial? {
      assert !Asked(spec, |bytes|, answer.end);
    }
  }

  lemma BoundedHonoured(spec: Spec, bytes: Bytes)
    requires WellFormed(spec) && |bytes| <= U64_MAX && !spec.Suffix? && Value(spec.first) <= U64_MAX
    ensures Honours(Reply(bytes, Some(Render(spec))), spec, |bytes|)
  {
    ParseOfRender(spec);
    ParseOfDigits(spec.first);
    if spec.FromTo? {
      ParseOfDigits(spec.last);
    }
  }

  // ---- fetching an object in pieces

  function Decimal(n: nat): (s: string)
    ensures Digits(s) && Value(s) == n
  {
    var d := (n % 10 + '0' as int) as char;
    if n < 10 then
      assert [d][..0] == "";
      [d]
    else
      var s := Decimal(n / 10) + [d];
      assert s[..|s| - 1] == Decimal(n / 10);
      s
  }

  /** The bodies of the ranges between consecutive cuts, one request each, joined. */
  function Pieces(bytes: Bytes, cuts: seq<nat>, k: nat): Bytes
    requires k < |cuts| && Rising(cuts)
    decreases |cuts| - k
  {
    if k == |cuts| - 1 then []
    else
      var answer := Reply(bytes, Some(Render(FromTo(Decimal(cuts[k]), Decimal(cuts[k + 1] - 1)))));
      (if answer.Partial? then answer.body else []) + Pieces(bytes, cuts, k + 1)
  }

  lemma BoundedReply(bytes: Bytes, header: string, start: nat, stop: nat)
    requires start < stop <= |bytes| && ParseRange(header) == Some((Some(start), Some(stop - 1)))
    ensures Reply(bytes, Some(header)) == Partial(start, stop - 1, |bytes|, stop - start, bytes[start..stop])
  {
    hide ParseRange;
  }

  lemma OnePiece(bytes: Bytes, start: nat, stop: nat)
    requires start < stop <= |bytes| <= U64_MAX
    ensures Reply(bytes, Some(Render(FromTo(Decimal(start), Decimal(stop - 1)))))
            == Partial(start, stop - 1, |bytes|, stop - start, bytes[start..stop])
  {
    hide Reply, Render, ParseRange, ParseU64;
    var first, last := Decimal(start), Decimal(stop - 1);
    ParseOfRender(FromTo(first, last));
    ParseOfDigits(first);
    ParseOfDigits(last);
    BoundedReply(bytes, Render(FromTo(first, last)), start, stop);
  }

  predicate Rising(cuts: seq<nat>) {
    forall i :: 0 <= i < |cuts| - 1 ==> cuts[i] < cuts[i + 1]
  }

  lemma PiecesNext(bytes: Bytes, cuts: seq<nat>, k: nat)
    requires k + 1 < |cuts| && Rising(cuts) && cuts[k + 1] <= |bytes| <= U64_MAX
    ensures Pieces(bytes, cuts, k) == bytes[cuts[k]..cuts[k + 1]] + Pieces(bytes, cuts, k + 1)
  {
    hide Reply, Render, Decimal;
    OnePiece(bytes, cuts[k], cuts[k + 1]);
  }

  lemma SliceJoins(bytes: Bytes, a: nat, b: nat)
    requires a <= b <= |bytes|
    ensures bytes[a..b] + bytes[b..] == bytes[a..]
  {
  }

  /** Any contiguous partition into ranges reassembles the object. */
  lemma {:induction false} PiecesReassemble(bytes: Bytes, cuts: seq<nat>, k: nat)
    requires k < |cuts| && Rising(cuts) && cuts[|cuts| - 1] == |bytes| <= U64_MAX
    ensures cuts[k] <= |bytes| && Pieces(bytes, cuts, k) == bytes[cuts[k]..]
    decreases |cuts| - k
  {
    if k == |cuts| - 1 {
      assert Pieces(bytes, cuts, k) == [];
    } else {
      assert cuts[k] < cuts[k + 1];
      hide Pieces, Rising;
      PiecesReassemble(bytes, cuts, k + 1);
      PiecesNext(bytes, cuts, k);
      SliceJoins(bytes, cuts[k], cuts[k + 1]);
    }
  }
}
