/** The denylist file: one hash per line, comments and blank lines allowed on input. */
module Denylist {
  import opened Text
  import opened Hashes

  /** The hash a line of the file contributes, if any. */
  function LineHash(line: string): Option<string> {
    var l := Trim(line);
    if l == "" || l[0] == '#' || !IsValidHash(Norm(l)) then None else Some(Norm(l))
  }

  ghost function HashesOf(lines: seq<string>): set<string> {
    set line | line in lines && LineHash(line).Some? :: LineHash(line).value
  }

  ghost function Parse(body: string): set<string> {
    HashesOf(Lines(body))
  }

  /** An order in which iterating over the set may produce its members. */
  ghost predicate Enumerates(order: seq<string>, s: set<string>) {
    (forall x :: x in order <==> x in s) && forall i, j :: 0 <= i < j < |order| ==> order[i] != order[j]
  }

  lemma ParseIsCanonical(body: string)
    ensures forall h :: h in Parse(body) ==> IsCanonical(h)
  {
    forall h | h in Parse(body) ensures IsCanonical(h) {
      var line :| line in Lines(body) && LineHash(line).Some? && LineHash(line).value == h;
      ValidNormIsCanonical(Trim(line));
    }
  }

  lemma LineHashOfCanonical(h: string)
    requires IsCanonical(h)
    ensures LineHash(h) == Some(h)
  {
    CanonicalIsPlain(h);
    NormOfCanonical(h);
  }

  /** Whatever order the set is written in, reading the file back yields the set. */
  lemma ParseOfPrint(order: seq<string>, s: set<string>)
    requires Enumerates(order, s)
    requires forall h :: h in s ==> IsCanonical(h)
    ensures Parse(PrintLines(order)) == s
  {
    forall h | h in order ensures Plain(h) && LineHash(h) == Some(h) {
      CanonicalIsPlain(h);
      LineHashOfCanonical(h);
    }
    LinesOfPrint(order);
    forall h | h in s ensures h in Parse(PrintLines(order)) {
      assert h in Lines(PrintLines(order));
    }
  }

  // ---- what a text denies

  /** The line is a hash, however it is written, with nothing but white space around it. */
  ghost predicate NamesHash(line: string, h: string) {
    IsCanonical(h) && exists pre, raw, post :: Blank(pre) && Blank(post) && Writes(raw, h) && line == pre + raw + post
  }

  lemma WritingIsPlain(raw: string, h: string)
    requires IsCanonical(h) && Writes(raw, h)
    ensures raw != "" && raw[0] != '#' && !IsSpace(raw[0]) && !IsSpace(raw[|raw| - 1])
  {
    NormIff(raw, h);
    assert |h| == 64 && IsHexDigit(h[0]) && IsHexDigit(h[63]);
    assert Lower(StripHexPrefix(raw)) == h;
  }

  /** A line contributes a hash exactly when it names it; blank lines, comments and all others do not. */
  lemma LineHashIff(line: string, h: string)
    ensures LineHash(line) == Some(h) <==> NamesHash(line, h)
  {
    hide Writes;
    if LineHash(line) == Some(h) {
      ValidNormIsCanonical(Trim(line));
      var pre, post := TrimTakes(line);
      NormIff(Trim(line), h);
      assert Blank(pre) && Blank(post) && Writes(Trim(line), h) && line == pre + Trim(line) + post;
    }
    if NamesHash(line, h) {
      var pre, raw, post :| Blank(pre) && Blank(post) && Writes(raw, h) && line == pre + raw + post;
      WritingIsPlain(raw, h);
      TrimUncovers(pre, raw, post);
      NormIff(raw, h);
    }
  }

  /** Some line of the text names the hash. */
  ghost predicate TextDenies(body: string, h: string) {
    exists line :: HasLine(body, line) && NamesHash(line, h)
  }

  lemma CrIsBlank(line: string, h: string)
    ensures NamesHash(StripCr(line), h) <==> NamesHash(line, h)
  {
    if line != "" && line[|line| - 1] == '\r' {
      var short := StripCr(line);
      assert line == short + "\r";
      if NamesHash(short, h) {
        var pre, raw, post :| Blank(pre) && Blank(post) && Writes(raw, h) && short == pre + raw + post;
        assert line == pre + raw + (post + "\r") && Blank(post + "\r");
      }
      if NamesHash(line, h) {
        var pre, raw, post :| Blank(pre) && Blank(post) && Writes(raw, h) && line == pre + raw + post;
        WritingIsPlain(raw, h);
        JoinEnds(pre, raw, post);
        if post != "" {
          assert short == pre + raw + post[..|post| - 1];
        }
      }
    }
  }

  lemma JoinEnds(pre: string, raw: string, post: string)
    requires raw != ""
    ensures (pre + raw + post)[|pre + raw + post| - 1] == if post == "" then raw[|raw| - 1] else post[|post| - 1]
  {
  }

  lemma TextDeniesNext(body: string, h: string)
    ensures var n := FirstNewline(body);
            TextDenies(body, h) <==> NamesHash(body[..n], h) || (n < |body| && TextDenies(body[n + 1..], h))
  {
    hide NamesHash, HasLine;
    var n := FirstNewline(body);
    HasFirstLine(body);
    if TextDenies(body, h) {
      var line :| HasLine(body, line) && NamesHash(line, h);
      LineIsFirstOrLater(body, line);
    }
    if n < |body| && TextDenies(body[n + 1..], h) {
      var line :| HasLine(body[n + 1..], line) && NamesHash(line, h);
      assert body == body[..n + 1] + body[n + 1..];
      HasLaterLine(body[..n + 1], body[n + 1..], line);
    }
  }

  lemma EmptyNamesNothing(h: string)
    ensures !NamesHash("", h)
  {
    if NamesHash("", h) {
      var pre, raw, post :| Blank(pre) && Blank(post) && Writes(raw, h) && "" == pre + raw + post;
      WritingIsPlain(raw, h);
    }
  }

  lemma {:induction false} LinesDeny(body: string, h: string)
    ensures (exists line :: line in Lines(body) && NamesHash(line, h)) <==> TextDenies(body, h)
    decreases |body|
  {
    hide NamesHash, HasLine;
    var n := FirstNewline(body);
    TextDeniesNext(body, h);
    EmptyNamesNothing(h);
    if n < |body| {
      CrIsBlank(body[..n], h);
      LinesDeny(body[n + 1..], h);
      assert Lines(body) == [StripCr(body[..n])] + Lines(body[n + 1..]);
      assert StripCr(body[..n]) in Lines(body);
    } else {
      assert body[..n] == body;
    }
    hide TextDenies;
  }

  /** What the program reads from a denylist file, in terms of its text. */
  lemma ParseIff(body: string, h: string)
    ensures h in Parse(body) <==> TextDenies(body, h)
  {
    LinesDeny(body, h);
    if h in Parse(body) {
      var line :| line in Lines(body) && LineHash(line).Some? && LineHash(line).value == h;
      LineHashIff(line, h);
    }
    if line :| line in Lines(body) && NamesHash(line, h) {
      LineHashIff(line, h);
    }
  }

  lemma HashesOfNext(lines: seq<string>, i: nat)
    requires i < |lines|
    ensures HashesOf(lines[..i + 1])
            == HashesOf(lines[..i]) + (if LineHash(lines[i]).Some? then {LineHash(lines[i]).value} else {})
  {
    assert lines[..i + 1] == lines[..i] + [lines[i]];
    if LineHash(lines[i]).Some? {
      assert lines[i] in lines[..i + 1];
    }
  }

  method LoadDenylist(file: Option<string>) returns (denied: set<string>)
    ensures denied == if file.Some? then Parse(file.value) else {}
    ensures forall h :: h in denied <==> file.Some? && TextDenies(file.value, h)
  {
    denied := {};
    if file.Some? {
      var lines := Lines(file.value);
      for i := 0 to |lines|
        invariant denied == HashesOf(lines[..i])
      {
        HashesOfNext(lines, i);
        var l := Trim(lines[i]);
        if l == "" || l[0] == '#' {
          continue;
        }
        var h := Norm(l);
        if IsValidHash(h) {
          denied := denied + {h};
        }
      }
      assert lines[..|lines|] == lines;
    }
    forall h ensures h in denied <==> file.Some? && TextDenies(file.value, h) {
      if file.Some? {
        ParseIff(file.value, h);
      }
    }
  }
}
