/** The audit log (internal/audit/audit.go): one encoded entry per line. */
module Audit {
  import opened Text

  type Time = nat

  datatype Entry = Entry(time: Time, actor: string, action: string, details: string)

  /** The entry encoding. */
  datatype Codec = Codec(encode: Entry -> string, decode: string -> Option<Entry>)

  /** Encoded entries are single non-empty lines that decode to the entry. */
  ghost predicate Lawful(c: Codec) {
    forall e :: c.encode(e) != "" && '\n' !in c.encode(e) && c.decode(c.encode(e)) == Some(e)
  }

  /** The line splitter. */
  method SplitLines(s: string) returns (out: seq<string>)
    ensures out == Lines(s)
  {
    out := [];
    var start := 0;
    for i := 0 to |s|
      invariant 0 <= start <= i
      invariant out + LinesFrom(s[start..i], s[i..]) == Lines(s)
    {
      assert s[i..][1..] == s[i + 1..];
      if s[i] == '\n' {
        out := out + [s[start..i]];
        start := i + 1;
        assert s[start..i + 1] == "";
      } else {
        assert s[start..i] + [s[i]] == s[start..i + 1];
      }
    }
    if start < |s| {
      out := out + [s[start..]];
      assert s[start..] == s[start..|s|];
    }
    assert LinesFrom(s[start..|s|], s[|s|..]) == if start < |s| then [s[start..]] else [];
  }

  /** The last `n` elements, or all of them when `n` is not positive or too large. */
  function Last<T>(xs: seq<T>, n: int): seq<T> {
    if 0 < n < |xs| then xs[|xs| - n..] else xs
  }

  function Decoded(c: Codec, lines: seq<string>): seq<Entry> {
    if lines == [] then []
    else
      var n := |lines| - 1;
      var r := c.decode(lines[n]);
      Decoded(c, lines[..n]) + (if lines[n] != "" && r.Some? then [r.value] else [])
  }

  function EncodedAll(c: Codec, es: seq<Entry>): (ls: seq<string>)
    ensures |ls| == |es| && forall i :: 0 <= i < |es| ==> ls[i] == c.encode(es[i])
  {
    seq(|es|, i requires 0 <= i < |es| => c.encode(es[i]))
  }

  lemma {:induction false} DecodedEncoded(c: Codec, es: seq<Entry>)
    requires Lawful(c)
    ensures Decoded(c, EncodedAll(c, es)) == es
  {
    if es != [] {
      var n := |es| - 1;
      assert EncodedAll(c, es)[..n] == EncodedAll(c, es[..n]);
      DecodedEncoded(c, es[..n]);
      assert es[..n] + [es[n]] == es;
    }
  }

  /** Through the splitter and the decoder, the tail of a log of entries is the tail
      of the entries. */
  lemma TailOfLog(c: Codec, es: seq<Entry>, n: int)
    requires Lawful(c)
    ensures Decoded(c, Last(Lines(Unlines(EncodedAll(c, es))), n)) == Last(es, n)
  {
    var ls := EncodedAll(c, es);
    forall l | l in ls ensures '\n' !in l {
      var i :| 0 <= i < |ls| && ls[i] == l;
    }
    LinesOfUnlines(ls);
    assert Last(ls, n) == EncodedAll(c, Last(es, n));
    DecodedEncoded(c, Last(es, n));
  }

  class Log {
    const codec: Codec
    /** The file; missing until the first write. */
    var data: Option<string>
    /** What has been written, in order. */
    ghost var entries: seq<Entry>

    ghost predicate Valid()
      reads this
    {
      Lawful(codec)
      && (data.None? ==> entries == [])
      && (data.Some? ==> data.value == Unlines(EncodedAll(codec, entries)))
    }

    constructor (c: Codec)
      requires Lawful(c)
      ensures Valid() && entries == [] && data == None
    {
      codec, data, entries := c, None, [];
    }

    /** Appends one line; an entry without a time gets the current one. */
    method Write(e: Entry, now: Time, opens: bool) returns (ok: bool)
      requires Valid()
      modifies this
      ensures Valid()
      ensures ok == opens
      ensures entries == if ok then old(entries) + [if e.time == 0 then e.(time := now) else e] else old(entries)
    {
      if !opens { return false; }
      var stamped := if e.time == 0 then e.(time := now) else e;
      var before := if data.None? then "" else data.value;
      var line := codec.encode(stamped);
      UnlinesSnoc(EncodedAll(codec, entries), line);
      assert EncodedAll(codec, entries + [stamped]) == EncodedAll(codec, entries) + [line];
      data := Some(before + (line + "\n"));
      assert before + (line + "\n") == before + line + "\n";
      entries := entries + [stamped];
      return true;
    }

    /** The last `n` entries in the order they were written. */
    method Tail(n: int, readable: bool) returns (out: Option<seq<Entry>>)
      requires Valid()
      ensures out.None? <==> data.Some? && !readable
      ensures out.Some? ==> out.value == Last(entries, n)
    {
      if data.None? { return Some([]); }
      if !readable { return None; }
      var lines := SplitLines(data.value);
      TailOfLog(codec, entries, n);
      if n > 0 && |lines| > n {
        lines := lines[|lines| - n..];
      }
      var es: seq<Entry> := [];
      for i := 0 to |lines|
        invariant es == Decoded(codec, lines[..i])
      {
        assert lines[..i + 1][..i] == lines[..i];
        if lines[i] == "" { continue; }
        var r := codec.decode(lines[i]);
        if r.Some? {
          es := es + [r.value];
        }
      }
      assert lines[..|lines|] == lines;
      return Some(es);
    }
  }

  /** The last `n` are a final stretch of that length, or everything. */
  lemma LastIsSuffix<T>(xs: seq<T>, n: int)
    ensures exists k :: 0 <= k <= |xs| && Last(xs, n) == xs[k..]
    ensures |Last(xs, n)| == if 0 < n < |xs| then n else |xs|
  {
    if 0 < n < |xs| {
      assert Last(xs, n) == xs[|xs| - n..];
    } else {
      assert xs[0..] == xs;
    }
  }

  /** Lines that are empty or do not decode are passed over, wherever they are. */
  lemma {:induction false} BadLinesSkipped(c: Codec, a: seq<string>, bad: string, b: seq<string>)
    requires bad == "" || c.decode(bad).None?
    ensures Decoded(c, a + [bad] + b) == Decoded(c, a) + Decoded(c, b)
  {
    var all := a + [bad] + b;
    if b == [] {
      assert all[..|all| - 1] == a;
    } else {
      assert all[..|all| - 1] == a + [bad] + b[..|b| - 1];
      BadLinesSkipped(c, a, bad, b[..|b| - 1]);
    }
  }

  /** And a line that decodes gives its entry. */
  lemma GoodLineRead(c: Codec, a: seq<string>, line: string)
    requires line != "" && c.decode(line).Some?
    ensures Decoded(c, a + [line]) == Decoded(c, a) + [c.decode(line).value]
  {
    assert (a + [line])[..|a|] == a;
  }
}
