/** String operations shared by every component. Case mapping and white space
    are those of the ASCII range. */
module Text {

  datatype Option<+T> = None | Some(value: T)

  function LowerChar(c: char): char {
    if 'A' <= c <= 'Z' then (c as int + 32) as char else c
  }

  function UpperChar(c: char): char {
    if 'a' <= c <= 'z' then (c as int - 32) as char else c
  }

  function ToLower(s: string): (r: string)
    ensures |r| == |s|
    ensures forall i :: 0 <= i < |s| ==> r[i] == LowerChar(s[i])
  {
    seq(|s|, i requires 0 <= i < |s| => LowerChar(s[i]))
  }

  function ToUpper(s: string): (r: string)
    ensures |r| == |s|
    ensures forall i :: 0 <= i < |s| ==> r[i] == UpperChar(s[i])
  {
    seq(|s|, i requires 0 <= i < |s| => UpperChar(s[i]))
  }

  predicate IsSpace(c: char) {
    c == ' ' || c == '\t' || c == '\n' || c == '\r' || c as int == 11 || c as int == 12
  }

  function TrimLeft(s: string): string {
    if s != [] && IsSpace(s[0]) then TrimLeft(s[1..]) else s
  }

  function TrimRight(s: string): string {
    if s != [] && IsSpace(s[|s| - 1]) then TrimRight(s[..|s| - 1]) else s
  }

  function TrimSpace(s: string): string {
    TrimRight(TrimLeft(s))
  }

  lemma {:induction false} TrimLeftFacts(s: string)
    ensures var r := TrimLeft(s);
            (r == [] || !IsSpace(r[0])) && |r| <= |s| && r == s[|s| - |r|..]
  {
    if s != [] && IsSpace(s[0]) {
      TrimLeftFacts(s[1..]);
    }
  }

  lemma {:induction false} TrimRightFacts(s: string)
    ensures var r := TrimRight(s);
            (r == [] || !IsSpace(r[|r| - 1])) && |r| <= |s| && r == s[..|r|]
  {
    if s != [] && IsSpace(s[|s| - 1]) {
      TrimRightFacts(s[..|s| - 1]);
    }
  }

  lemma TrimSpaceIdempotent(s: string)
    ensures TrimSpace(TrimSpace(s)) == TrimSpace(s)
  {
    var t := TrimLeft(s);
    var u := TrimRight(t);
    TrimLeftFacts(s);
    TrimRightFacts(t);
    assert u == [] || u[0] == t[0];
  }

  lemma TrimSpaceNoop(s: string)
    requires forall c :: c in s ==> !IsSpace(c)
    ensures TrimSpace(s) == s
  {
    assert s == [] || (s[0] in s && s[|s| - 1] in s);
  }

  lemma TrimSpaceChars(s: string, c: char)
    requires c in TrimSpace(s)
    ensures c in s
  {
    TrimLeftFacts(s);
    TrimRightFacts(TrimLeft(s));
    assert c in TrimLeft(s);
  }

  predicate AllSpace(s: string) {
    forall i :: 0 <= i < |s| ==> s[i] == ' ' || 9 <= s[i] as int <= 13
  }

  lemma {:induction false} TrimLeftDrops(a: string, s: string)
    requires AllSpace(a) && (s == "" || !IsSpace(s[0]))
    ensures TrimLeft(a + s) == s
  {
    if a == "" {
      assert a + s == s;
    } else {
      assert (a + s)[1..] == a[1..] + s;
      TrimLeftDrops(a[1..], s);
    }
  }

  lemma {:induction false} TrimRightDrops(s: string, b: string)
    requires AllSpace(b) && (s == "" || !IsSpace(s[|s| - 1]))
    ensures TrimRight(s + b) == s
  {
    if b == "" {
      assert s + b == s;
    } else {
      assert (s + b)[..|s + b| - 1] == s + b[..|b| - 1];
      TrimRightDrops(s, b[..|b| - 1]);
    }
  }

  /** Trimming takes away exactly the blanks, tabs and line ends around a text. */
  lemma TrimSpaceIs(a: string, s: string, b: string)
    requires AllSpace(a) && AllSpace(b)
    requires s == "" || !(AllSpace([s[0]]) || AllSpace([s[|s| - 1]]))
    ensures TrimSpace(a + s + b) == s
  {
    if s == "" {
      assert a + s + b == (a + b) + "";
      TrimLeftDrops(a + b, "");
    } else {
      assert a + s + b == a + (s + b);
      TrimLeftDrops(a, s + b);
      TrimRightDrops(s, b);
    }
  }

  /** Case is changed in letters only, and only there. */
  lemma CaseIs(s: string)
    ensures forall i :: 0 <= i < |s| ==> !('A' <= ToLower(s)[i] <= 'Z') && !('a' <= ToUpper(s)[i] <= 'z')
    ensures ToLower(ToUpper(s)) == ToLower(s) && ToUpper(ToLower(s)) == ToUpper(s)
    ensures forall i :: 0 <= i < |s| && !('a' <= s[i] <= 'z') ==> ToUpper(s)[i] == s[i]
    ensures forall i :: 0 <= i < |s| && !('A' <= s[i] <= 'Z') ==> ToLower(s)[i] == s[i]
  {
  }

  predicate HasPrefix(s: string, p: string) {
    |p| <= |s| && s[..|p|] == p
  }

  predicate HasSuffix(s: string, p: string) {
    |p| <= |s| && s[|s| - |p|..] == p
  }

  function TrimPrefix(s: string, p: string): string {
    if HasPrefix(s, p) then s[|p|..] else s
  }

  /** The pieces of `s` between occurrences of `c`; always at least one. */
  function Split(s: string, c: char): (r: seq<string>)
    ensures |r| >= 1
  {
    if s == [] then [""]
    else if s[0] == c then [""] + Split(s[1..], c)
    else
      var rest := Split(s[1..], c);
      [[s[0]] + rest[0]] + rest[1..]
  }

  /** Every character of `s` is the separator or belongs to a piece. */
  lemma {:induction false} SplitChars(s: string, c: char, x: char)
    requires x in s && x != c
    ensures exists i :: 0 <= i < |Split(s, c)| && x in Split(s, c)[i]
  {
    var r := Split(s, c);
    if s[0] == c {
      SplitChars(s[1..], c, x);
      var i :| 0 <= i < |Split(s[1..], c)| && x in Split(s[1..], c)[i];
      assert x in r[i + 1];
    } else if s[0] == x {
      assert r[0][0] == x;
    } else {
      SplitChars(s[1..], c, x);
      var rest := Split(s[1..], c);
      var i :| 0 <= i < |rest| && x in rest[i];
      assert x in r[i];
    }
  }

  /** A separator after a piece without one splits there. */
  lemma {:induction false} SplitPiece(piece: string, rest: string, c: char)
    requires c !in piece
    ensures Split(piece + [c] + rest, c) == [piece] + Split(rest, c)
    ensures Split(piece, c) == [piece]
  {
    var s := piece + [c] + rest;
    if piece == "" {
      assert s[1..] == rest;
    } else {
      SplitPiece(piece[1..], rest, c);
      assert s[1..] == piece[1..] + [c] + rest;
      assert [piece[0]] + piece[1..] == piece;
    }
  }

  // ----- lines

  /** Each line followed by a newline. */
  function Unlines(lines: seq<string>): string {
    if lines == [] then "" else lines[0] + "\n" + Unlines(lines[1..])
  }

  lemma {:induction false} UnlinesConcat(a: seq<string>, b: seq<string>)
    ensures Unlines(a + b) == Unlines(a) + Unlines(b)
  {
    if a == [] {
      assert a + b == b;
    } else {
      assert (a + b)[1..] == a[1..] + b;
      UnlinesConcat(a[1..], b);
    }
  }

  lemma UnlinesSnoc(a: seq<string>, line: string)
    ensures Unlines(a + [line]) == Unlines(a) + line + "\n"
  {
    UnlinesConcat(a, [line]);
    assert Unlines([line]) == line + "\n" + Unlines([]);
  }

  /** The lines of a text: the maximal newline-free stretches that end in a
      newline, then whatever non-empty text is left. */
  function Lines(s: string): seq<string> {
    LinesFrom("", s)
  }

  function LinesFrom(partial: string, s: string): seq<string>
    decreases |s|
  {
    if s == [] then (if partial == [] then [] else [partial])
    else if s[0] == '\n' then [partial] + LinesFrom("", s[1..])
    else LinesFrom(partial + [s[0]], s[1..])
  }

  lemma {:induction false} LinesFromLine(partial: string, line: string, rest: string)
    requires '\n' !in line
    ensures LinesFrom(partial, line + "\n" + rest) == [partial + line] + LinesFrom("", rest)
    decreases |line|
  {
    var s := line + "\n" + rest;
    if line == [] {
      assert s[1..] == rest && partial + line == partial;
    } else {
      assert s[0] == line[0] && s[1..] == line[1..] + "\n" + rest;
      LinesFromLine(partial + [line[0]], line[1..], rest);
      assert partial + [line[0]] + line[1..] == partial + line;
    }
  }

  /** Splitting undoes joining for newline-free lines. */
  lemma {:induction false} LinesOfUnlines(lines: seq<string>)
    requires forall l :: l in lines ==> '\n' !in l
    ensures Lines(Unlines(lines)) == lines
  {
    if lines != [] {
      LinesFromLine("", lines[0], Unlines(lines[1..]));
      LinesOfUnlines(lines[1..]);
      assert "" + lines[0] == lines[0];
    }
  }
}
