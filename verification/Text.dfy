/** Text handling shared by the denylist file, the gossip body and the store keys.
    Strings are ASCII; lowercasing and whitespace are those of ASCII. */
module Text {

  datatype Option<+T> = None | Some(value: T)

  function LowerChar(c: char): (r: char)
    ensures !('A' <= r <= 'Z')
    ensures !('A' <= c <= 'Z') ==> r == c
  {
    if 'A' <= c <= 'Z' then (c as int + 32) as char else c
  }

  function Lower(s: string): (r: string)
    ensures |r| == |s|
    ensures forall i :: 0 <= i < |s| ==> r[i] == LowerChar(s[i])
  {
    seq(|s|, i requires 0 <= i < |s| => LowerChar(s[i]))
  }

  /** `strip_prefix("0x").unwrap_or(s)`: at most one prefix, and only in lower case. */
  function StripHexPrefix(s: string): string {
    if "0x" <= s then s[2..] else s
  }

  predicate IsSpace(c: char) {
    c == ' ' || '\t' <= c <= '\r'
  }

  function TrimStart(s: string): string {
    if s != "" && IsSpace(s[0]) then TrimStart(s[1..]) else s
  }

  function TrimEnd(s: string): string {
    if s != "" && IsSpace(s[|s| - 1]) then TrimEnd(s[..|s| - 1]) else s
  }

  function Trim(s: string): string {
    TrimEnd(TrimStart(s))
  }

  /** Position of the first newline, or the length when there is none. */
  function FirstNewline(s: string): (n: nat)
    ensures n <= |s|
    ensures n < |s| ==> s[n] == '\n'
    ensures '\n' !in s[..n]
  {
    if s == "" || s[0] == '\n' then 0
    else
      var n := FirstNewline(s[1..]);
      assert s[..n + 1] == [s[0]] + s[1..][..n];
      n + 1
  }

  function StripCr(s: string): string {
    if s != "" && s[|s| - 1] == '\r' then s[..|s| - 1] else s
  }

  /** `str::lines`: a final newline ends the last line and starts no new one; a carriage return
      is dropped only where a newline follows it. */
  function Lines(s: string): seq<string>
    decreases |s|
  {
    if s == "" then []
    else
      var n := FirstNewline(s);
      if n == |s| then [s] else [StripCr(s[..n])] + Lines(s[n + 1..])
  }

  /** A line that neither contains a line break nor ends in a carriage return. */
  predicate Plain(line: string) {
    '\n' !in line && (line != "" ==> line[|line| - 1] != '\r')
  }

  function PrintLines(lines: seq<string>): string {
    if lines == [] then "" else lines[0] + "\n" + PrintLines(lines[1..])
  }

  /** `join("\n")`. */
  function JoinLines(lines: seq<string>): string {
    if lines == [] then ""
    else if |lines| == 1 then lines[0]
    else lines[0] + "\n" + JoinLines(lines[1..])
  }

  lemma {:induction false} FirstNewlineAfter(line: string, rest: string)
    requires '\n' !in line
    ensures FirstNewline(line + "\n" + rest) == |line|
  {
    if line != "" {
      assert (line + "\n" + rest)[1..] == line[1..] + "\n" + rest;
      assert line[0] in line;
      FirstNewlineAfter(line[1..], rest);
    }
  }

  lemma LinesCons(line: string, rest: string)
    requires Plain(line)
    ensures Lines(line + "\n" + rest) == [line] + Lines(rest)
  {
    var s := line + "\n" + rest;
    FirstNewlineAfter(line, rest);
    assert s[..|line|] == line;
    assert s[|line| + 1..] == rest;
  }

  lemma {:induction false} PrintLinesSnoc(lines: seq<string>, line: string)
    ensures PrintLines(lines + [line]) == PrintLines(lines) + (line + "\n")
  {
    if lines == [] {
      assert [] + [line] == [line];
      assert PrintLines([line]) == line + "\n" + "";
    } else {
      assert (lines + [line])[1..] == lines[1..] + [line];
      PrintLinesSnoc(lines[1..], line);
    }
  }

  lemma {:induction false} LinesOfPrint(lines: seq<string>)
    requires forall l :: l in lines ==> Plain(l)
    ensures Lines(PrintLines(lines)) == lines
  {
    if lines != [] {
      LinesCons(lines[0], PrintLines(lines[1..]));
      LinesOfPrint(lines[1..]);
    }
  }

  lemma {:induction false} LinesOfJoin(lines: seq<string>)
    requires forall l :: l in lines ==> Plain(l) && l != ""
    ensures Lines(JoinLines(lines)) == lines
  {
    if |lines| == 1 {
      assert lines[0] in lines;
      assert FirstNewline(lines[0]) == |lines[0]|;
      assert lines == [lines[0]];
    } else if lines != [] {
      LinesCons(lines[0], JoinLines(lines[1..]));
      LinesOfJoin(lines[1..]);
    }
  }

  lemma TrimKeeps(s: string)
    requires forall c :: c in s ==> !IsSpace(c)
    ensures Trim(s) == s
  {
    if s != "" {
      assert s[0] in s && s[|s| - 1] in s;
    }
  }

  lemma LowerAlphabet()
    ensures Lower("ABCDEFGHIJKLMNOPQRSTUVWXYZ") == "abcdefghijklmnopqrstuvwxyz"
  {
  }

  lemma SpacesAre()
    ensures forall c: char :: IsSpace(c) <==> c as int in {0x20, 0x09, 0x0A, 0x0B, 0x0C, 0x0D}
  {
  }

  /** A line ended by carriage return and newline loses both. */
  lemma LinesCrLf(line: string, rest: string)
    requires '\n' !in line
    ensures Lines(line + "\r" + "\n" + rest) == [line] + Lines(rest)
  {
    var s := line + "\r" + "\n" + rest;
    FirstNewlineAfter(line + "\r", rest);
    assert s[..|line| + 1] == line + "\r";
    assert s[|line| + 2..] == rest;
  }

  predicate Blank(s: string) {
    forall c :: c in s ==> IsSpace(c)
  }

  lemma {:induction false} TrimStartSkips(pre: string, s: string)
    requires Blank(pre)
    ensures TrimStart(pre + s) == TrimStart(s)
  {
    if pre == "" {
      assert pre + s == s;
    } else {
      assert pre[0] in pre && (pre + s)[1..] == pre[1..] + s;
      TrimStartSkips(pre[1..], s);
    }
  }

  lemma {:induction false} TrimEndSkips(s: string, post: string)
    requires Blank(post)
    ensures TrimEnd(s + post) == TrimEnd(s)
  {
    if post == "" {
      assert s + post == s;
    } else {
      var n := |post| - 1;
      assert post[n] in post && (s + post)[..|s + post| - 1] == s + post[..n];
      TrimEndSkips(s, post[..n]);
    }
  }

  /** White space around a text comes off, whatever it is and however much. */
  lemma TrimUncovers(pre: string, raw: string, post: string)
    requires Blank(pre) && Blank(post)
    requires raw != "" && !IsSpace(raw[0]) && !IsSpace(raw[|raw| - 1])
    ensures Trim(pre + raw + post) == raw
  {
    assert pre + raw + post == pre + (raw + post);
    TrimStartSkips(pre, raw + post);
    TrimEndSkips(raw, post);
  }

  lemma {:induction false} TrimStartTakes(s: string) returns (pre: string)
    ensures Blank(pre) && s == pre + TrimStart(s)
    decreases |s|
  {
    pre := "";
    if s != "" && IsSpace(s[0]) {
      var rest := TrimStartTakes(s[1..]);
      pre := [s[0]] + rest;
    }
  }

  lemma {:induction false} TrimEndTakes(s: string) returns (post: string)
    ensures Blank(post) && s == TrimEnd(s) + post
    decreases |s|
  {
    post := "";
    if s != "" && IsSpace(s[|s| - 1]) {
      var rest := TrimEndTakes(s[..|s| - 1]);
      post := rest + [s[|s| - 1]];
    }
  }

  /** And nothing else does. */
  lemma TrimTakes(s: string) returns (pre: string, post: string)
    ensures Blank(pre) && Blank(post) && s == pre + Trim(s) + post
  {
    pre := TrimStartTakes(s);
    post := TrimEndTakes(TrimStart(s));
  }

  // ---- lines as stretches of the text

  predicate EndsLine(s: string) {
    s == "" || s[|s| - 1] == '\n'
  }

  predicate StartsLine(s: string) {
    s == "" || s[0] == '\n'
  }

  /** The text has this line: with a newline or an end of the text on either side. */
  ghost predicate HasLine(body: string, line: string) {
    '\n' !in line && exists pre, post :: EndsLine(pre) && StartsLine(post) && body == pre + line + post
  }

  lemma {:induction false} FirstNewlineIn(pre: string, rest: string)
    requires pre != "" && EndsLine(pre)
    ensures FirstNewline(pre + rest) < |pre|
  {
    if pre[0] != '\n' {
      assert (pre + rest)[1..] == pre[1..] + rest;
      FirstNewlineIn(pre[1..], rest);
    }
  }

  lemma {:induction false} FirstNewlineNone(line: string)
    requires '\n' !in line
    ensures FirstNewline(line) == |line|
  {
    if line != "" {
      assert line[0] in line;
      FirstNewlineNone(line[1..]);
    }
  }

  lemma {:induction false} FirstNewlineAt(line: string, post: string)
    requires '\n' !in line && post != "" && post[0] == '\n'
    ensures FirstNewline(line + post) == |line|
  {
    if line == "" {
      assert line + post == post;
    } else {
      assert line[0] in line && (line + post)[1..] == line[1..] + post;
      FirstNewlineAt(line[1..], post);
    }
  }

  lemma Regroup(a: string, b: string, c: string, d: string)
    ensures a + (b + c + d) == (a + b) + c + d
  {
  }

  lemma HasLineAt(pre: string, line: string, post: string)
    requires EndsLine(pre) && StartsLine(post) && '\n' !in line
    ensures HasLine(pre + line + post, line)
  {
  }

  lemma HasLineParts(body: string, line: string) returns (pre: string, post: string)
    requires HasLine(body, line)
    ensures '\n' !in line && EndsLine(pre) && StartsLine(post) && body == pre + line + post
  {
    pre, post :| EndsLine(pre) && StartsLine(post) && body == pre + line + post;
  }

  lemma HasFirstLine(body: string)
    ensures HasLine(body, body[..FirstNewline(body)])
  {
    var n := FirstNewline(body);
    HasLineAt("", body[..n], body[n..]);
    assert body == "" + body[..n] + body[n..];
  }

  lemma HasLaterLine(head: string, tail: string, line: string)
    requires head != "" && EndsLine(head) && HasLine(tail, line)
    ensures HasLine(head + tail, line)
  {
    hide HasLine;
    var pre, post := HasLineParts(tail, line);
    Regroup(head, pre, line, post);
    LineEndsLast(head, pre);
    HasLineAt(head + pre, line, post);
  }

  lemma LineEndsLast(head: string, pre: string)
    requires EndsLine(head) && EndsLine(pre)
    ensures EndsLine(head + pre)
  {
    if pre == "" {
      assert head + pre == head;
    }
  }

  lemma LaterPart(pre: string, line: string, post: string, n: nat)
    requires n < |pre|
    ensures (pre + line + post)[n + 1..] == pre[n + 1..] + line + post
  {
  }

  /** Every line of a text is its first, or one of what comes after the first newline. */
  lemma LineIsFirstOrLater(body: string, line: string)
    requires HasLine(body, line)
    ensures var n := FirstNewline(body); line == body[..n] || (n < |body| && HasLine(body[n + 1..], line))
  {
    hide HasLine, FirstNewline;
    var pre, post := HasLineParts(body, line);
    if pre != "" {
      LaterLine(pre, line, post);
    } else if post == "" {
      assert body == line;
      FirstNewlineNone(line);
    } else {
      assert body == line + post;
      FirstNewlineAt(line, post);
    }
  }

  lemma LaterLine(pre: string, line: string, post: string)
    requires pre != "" && EndsLine(pre) && StartsLine(post) && '\n' !in line
    ensures var n := FirstNewline(pre + line + post);
            n < |pre| && HasLine((pre + line + post)[n + 1..], line)
  {
    hide HasLine, FirstNewline;
    assert pre + line + post == pre + (line + post);
    FirstNewlineIn(pre, line + post);
    var n := FirstNewline(pre + line + post);
    LaterPart(pre, line, post, n);
    HasLineAt(pre[n + 1..], line, post);
  }
}
