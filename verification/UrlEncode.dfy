/** Percent-encoding of a domain name into a path segment (sections 2.1 and 2.3 of RFC 3986). */
module UrlEncode {
  import opened Text
  import opened Hashes

  predicate Unreserved(c: char) {
    'A' <= c <= 'Z' || 'a' <= c <= 'z' || '0' <= c <= '9' || c == '-' || c == '_' || c == '.' || c == '~'
  }

  function UpperHex(n: nat): (c: char)
    requires n < 16
    ensures '0' <= c <= '9' || 'A' <= c <= 'F'
  {
    if n < 10 then (n + '0' as int) as char else (n - 10 + 'A' as int) as char
  }

  function HexValue(c: char): Option<nat> {
    if '0' <= c <= '9' then Some(c as int - '0' as int)
    else if 'A' <= c <= 'F' then Some(c as int - 'A' as int + 10)
    else if 'a' <= c <= 'f' then Some(c as int - 'a' as int + 10)
    else None
  }

  function EncodeByte(b: byte): string {
    if Unreserved(b as int as char) then [b as int as char]
    else ['%', UpperHex(b as int / 16), UpperHex(b as int % 16)]
  }

  function Encode(s: Bytes): string {
    if s == [] then "" else EncodeByte(s[0]) + Encode(s[1..])
  }

  /** The decoder of section 2.1: triplets back to bytes, everything else as itself. */
  function Decode(t: string): Option<Bytes>
    decreases |t|
  {
    if t == "" then Some([])
    else if t[0] == '%' then
      if |t| < 3 || HexValue(t[1]).None? || HexValue(t[2]).None? then None
      else
        var rest := Decode(t[3..]);
        if rest.None? then None
        else
          var v := 16 * HexValue(t[1]).value + HexValue(t[2]).value;
          Some([v as byte] + rest.value)
    else if t[0] as int >= 128 then None
    else
      var rest := Decode(t[1..]);
      if rest.None? then None else Some([t[0] as int as byte] + rest.value)
  }

  lemma {:induction false} DecodeOfEncode(s: Bytes)
    ensures Decode(Encode(s)) == Some(s)
  {
    if s != [] {
      var b := s[0];
      DecodeOfEncode(s[1..]);
      var rest := Encode(s[1..]);
      assert s == [b] + s[1..];
      if Unreserved(b as int as char) {
        assert ([b as int as char] + rest)[1..] == rest;
      } else {
        var t := ['%', UpperHex(b as int / 16), UpperHex(b as int % 16)] + rest;
        assert t[3..] == rest;
        assert HexValue(t[1]) == Some(b as int / 16) && HexValue(t[2]) == Some(b as int % 16);
      }
    }
  }

  /** Two domains never share a path. */
  lemma EncodeInjective(s: Bytes, t: Bytes)
    requires Encode(s) == Encode(t)
    ensures s == t
  {
    DecodeOfEncode(s);
    DecodeOfEncode(t);
  }

  /** Nothing is encoded without need: the length stays the same exactly when every byte is an
      unreserved character, and the text is then the domain itself. */
  lemma {:induction false} EncodeKeepsPlainIff(s: Bytes)
    ensures |Encode(s)| >= |s|
    ensures |Encode(s)| == |s| <==> forall i :: 0 <= i < |s| ==> Unreserved(s[i] as int as char)
    ensures |Encode(s)| == |s| ==> forall i :: 0 <= i < |s| ==> Encode(s)[i] == s[i] as int as char
  {
    if s != [] {
      EncodeKeepsPlainIff(s[1..]);
      assert forall i :: 0 < i < |s| ==> s[i] == s[1..][i - 1];
    }
  }

  /** `t` is a run of unreserved characters and triplets with upper-case digits. */
  predicate WellEncoded(t: string)
    decreases |t|
  {
    || t == ""
    || (Unreserved(t[0]) && WellEncoded(t[1..]))
    || (|t| >= 3 && t[0] == '%' && IsUpperHex(t[1]) && IsUpperHex(t[2]) && WellEncoded(t[3..]))
  }

  predicate IsUpperHex(c: char) {
    '0' <= c <= '9' || 'A' <= c <= 'F'
  }

  /** No slash, question mark or other delimiter comes out, so the encoded domain is one path segment. */
  lemma {:induction false} EncodeIsOneSegment(s: Bytes)
    ensures WellEncoded(Encode(s))
    ensures forall c :: c in Encode(s) ==> Unreserved(c) || c == '%'
  {
    if s != [] {
      EncodeIsOneSegment(s[1..]);
      var rest := Encode(s[1..]);
      if Unreserved(s[0] as int as char) {
        assert ([s[0] as int as char] + rest)[1..] == rest;
      } else {
        assert (EncodeByte(s[0]) + rest)[3..] == rest;
      }
    }
  }

  /** The slash and a byte beyond ASCII, written out, and the four marks that stay. */
  lemma EncodeForExample()
    ensures Encode([0x61, 0x2F, 0xE9]) == "a%2F%E9"
    ensures Encode([0x2D, 0x5F, 0x2E, 0x7E]) == "-_.~"
  {
    var s: Bytes := [0x61, 0x2F, 0xE9];
    assert s[1..] == [0x2F, 0xE9] && s[1..][1..] == [0xE9] && s[1..][1..][1..] == [];
    assert EncodeByte(0x61) == "a" && EncodeByte(0x2F) == "%2F" && EncodeByte(0xE9) == "%E9";
    var t: Bytes := [0x2D, 0x5F, 0x2E, 0x7E];
    assert t[1..] == [0x5F, 0x2E, 0x7E] && t[1..][1..] == [0x2E, 0x7E] && t[1..][1..][1..] == [0x7E];
    assert EncodeByte(0x2D) == "-" && EncodeByte(0x5F) == "_" && EncodeByte(0x2E) == "." && EncodeByte(0x7E) == "~";
  }

  /** A dot segment, which a client resolves away (section 5.2.4 of RFC 3986). */
  predicate IsDotSegment(t: string) {
    t == "." || t == ".."
  }

  lemma EncodePlain(s: Bytes)
    requires |s| <= 2 && forall i :: 0 <= i < |s| ==> s[i] == '.' as int as byte
    ensures |Encode(s)| == |s| && forall i :: 0 <= i < |s| ==> Encode(s)[i] == '.'
  {
    EncodeKeepsPlainIff(s);
  }

  /** That segment is resolved away, and another path requested, exactly for the domains `.` and `..`. */
  lemma EncodeIsDotSegmentIff(s: Bytes)
    ensures IsDotSegment(Encode(s))
            <==> 1 <= |s| <= 2 && forall i :: 0 <= i < |s| ==> s[i] == '.' as int as byte
  {
    if 1 <= |s| <= 2 && forall i :: 0 <= i < |s| ==> s[i] == '.' as int as byte {
      EncodePlain(s);
      assert Encode(s) == if |s| == 1 then "." else "..";
    }
    if IsDotSegment(Encode(s)) {
      var t: Bytes := if Encode(s) == "." then ['.' as int as byte] else ['.' as int as byte, '.' as int as byte];
      EncodePlain(t);
      assert Encode(t) == Encode(s);
      EncodeInjective(s, t);
    }
  }
}
