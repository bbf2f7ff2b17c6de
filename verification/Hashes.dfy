/** Content hashes and their normal form. Every component normalises the hashes it is handed with
    the same one-line function; the lemmas here say when doing so twice is harmless. */
module Hashes {
  import opened Text

  newtype byte = x: int | 0 <= x < 256
  type Bytes = seq<byte>

  predicate IsHexDigit(c: char) {
    '0' <= c <= '9' || 'a' <= c <= 'f' || 'A' <= c <= 'F'
  }

  /** 64 hex digits of either case: the test the store applies to a key and to a file stem. */
  predicate IsValidHash(h: string) {
    |h| == 64 && forall i :: 0 <= i < |h| ==> IsHexDigit(h[i])
  }

  /** 64 lower-case hex digits. */
  predicate IsCanonical(h: string) {
    IsValidHash(h) && forall i :: 0 <= i < |h| ==> !('A' <= h[i] <= 'F')
  }

  function Norm(hash: string): string {
    Lower(StripHexPrefix(hash))
  }

  function Zeros(): (z: string)
    ensures IsCanonical(z)
  {
    seq(64, _ => '0')
  }

  /** SHA-256 in lower-case hex. Nothing but the shape of its result is known. */
  type Hasher = f: Bytes -> string | forall b :: IsCanonical(f(b)) witness (b: Bytes) => Zeros()
  const Digest: Hasher

  function Sha256Hex(bytes: Bytes): (h: string)
    ensures IsCanonical(h)
  {
    Digest(bytes)
  }

  lemma LowerKeepsCanonical(h: string)
    requires IsCanonical(h)
    ensures Lower(h) == h
  {
    forall i | 0 <= i < |h| ensures Lower(h)[i] == h[i] {
      assert IsHexDigit(h[i]);
    }
  }

  /** A canonical hash is its own normal form, with or without the prefix. */
  lemma NormOfCanonical(h: string)
    requires IsCanonical(h)
    ensures Norm(h) == h && Norm("0x" + h) == h
  {
    LowerKeepsCanonical(h);
    assert IsHexDigit(h[1]);
    assert ("0x" + h)[2..] == h;
  }

  /** Whatever normalises to a valid hash normalises to a canonical one. */
  lemma ValidNormIsCanonical(s: string)
    requires IsValidHash(Norm(s))
    ensures IsCanonical(Norm(s))
  {
    var t := StripHexPrefix(s);
    forall i | 0 <= i < |Norm(s)| ensures !('A' <= Norm(s)[i] <= 'F') {
      assert Norm(s)[i] == LowerChar(t[i]);
    }
  }

  lemma ValidHashIff(h: string)
    ensures IsValidHash(h) <==> |h| == 64 && forall i :: 0 <= i < |h| ==> h[i] in "0123456789abcdefABCDEF"
  {
  }

  /** `d` is the letter or digit `c`, in upper or in lower case. */
  predicate SameDigit(c: char, d: char) {
    c == d || exists k :: 0 <= k < 6 && c == "ABCDEF"[k] && d == "abcdef"[k]
  }

  predicate SameDigits(s: string, h: string) {
    |s| == |h| && forall i :: 0 <= i < |h| ==> SameDigit(s[i], h[i])
  }

  /** `raw` is a way of writing the hash `h`: its 64 digits in either case, with `0x` before them or not. */
  predicate Writes(raw: string, h: string) {
    SameDigits(raw, h) || ("0x" <= raw && SameDigits(raw[2..], h))
  }

  lemma LowerOfDigit(c: char, d: char)
    requires IsHexDigit(d) && !('A' <= d <= 'F')
    ensures LowerChar(c) == d <==> SameDigit(c, d)
  {
    if LowerChar(c) == d && c != d {
      var k := c as int - 'A' as int;
      assert c == "ABCDEF"[k] && d == "abcdef"[k];
    }
  }

  lemma LowerOfDigits(s: string, h: string)
    requires IsCanonical(h)
    ensures Lower(s) == h <==> SameDigits(s, h)
  {
    hide SameDigit;
    forall i | 0 <= i < |h| && i < |s| ensures LowerChar(s[i]) == h[i] <==> SameDigit(s[i], h[i]) {
      LowerOfDigit(s[i], h[i]);
    }
  }

  /** Every way of writing a hash normalises to it, and nothing else does. */
  lemma NormIff(raw: string, h: string)
    requires IsCanonical(h)
    ensures Norm(raw) == h <==> Writes(raw, h)
  {
    LowerOfDigits(StripHexPrefix(raw), h);
    LowerOfDigits(raw, h);
    assert IsHexDigit(h[1]);
  }

  /** Normalising twice is the same as once exactly when what is left after the first prefix
      does not start like another one. */
  lemma NormIdempotentIff(s: string)
    ensures Norm(Norm(s)) == Norm(s) <==> !("0x" <= StripHexPrefix(s) || "0X" <= StripHexPrefix(s))
  {
    var t := StripHexPrefix(s);
    var n := Norm(s);
    assert Lower(n) == n;
    if "0x" <= t || "0X" <= t {
      assert n[0] == LowerChar('0') && n[1] == 'x';
      assert "0x" <= n;
      assert |Norm(n)| == |n| - 2;
    } else if "0x" <= n {
      assert n[0] == LowerChar(t[0]) && n[1] == LowerChar(t[1]);
      assert t[0] == '0' && (t[1] == 'x' || t[1] == 'X');
    }
  }

  lemma NormTwiceOnValid(s: string)
    requires IsValidHash(Norm(s))
    ensures Norm(Norm(s)) == Norm(s) && Norm("0x" + Norm(s)) == Norm(s)
  {
    ValidNormIsCanonical(s);
    NormOfCanonical(Norm(s));
  }

  lemma CanonicalIsPlain(h: string)
    requires IsCanonical(h)
    ensures Plain(h) && h != "" && Trim(h) == h && h[0] != '#'
  {
    forall c | c in h ensures IsHexDigit(c) {
      var i :| 0 <= i < |h| && h[i] == c;
    }
    assert h[0] in h && h[|h| - 1] in h;
    TrimKeeps(h);
  }
}
