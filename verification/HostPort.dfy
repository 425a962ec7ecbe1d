/** Host and port splitting (internal/unbound/generate.go). */
module HostPort {
  import opened Text
  import opened Decimal
  import opened Validation

  function FirstIndexOf(s: string, c: char): (i: int)
    ensures -1 <= i < |s|
    ensures i >= 0 ==> s[i] == c
  {
    if s == "" then -1
    else if s[0] == c then 0
    else
      var i := FirstIndexOf(s[1..], c);
      if i < 0 then -1 else i + 1
  }

  function LastIndexOf(s: string, c: char): (i: int)
    ensures -1 <= i < |s|
    ensures i >= 0 ==> s[i] == c
    ensures i < 0 ==> c !in s
    ensures c !in s[i + 1..]
  {
    if s == "" then -1
    else if s[|s| - 1] == c then |s| - 1
    else
      assert s[..|s| - 1] + [s[|s| - 1]] == s;
      var i := LastIndexOf(s[..|s| - 1], c);
      assert s[i + 1..] == s[..|s| - 1][i + 1..] + [s[|s| - 1]];
      i
  }

  function LeadingDigits(s: string): (r: string)
    ensures forall c :: c in r ==> IsDigit(c)
  {
    if s != "" && IsDigit(s[0]) then [s[0]] + LeadingDigits(s[1..]) else ""
  }

  /** What scanning a decimal integer leaves in the variable: 0 when there is none
      or it does not fit. */
  function ScanInt(s: string): int {
    var t := TrimLeft(s);
    var signed := t != "" && (t[0] == '-' || t[0] == '+');
    var d := LeadingDigits(if signed then t[1..] else t);
    var v := if signed && t[0] == '-' then -Value(d) else Value(d);
    if d != "" && IsInt64(v) then v else 0
  }

  function PortOr(rest: string, def: int): int {
    if ScanInt(rest) == 0 then def else ScanInt(rest)
  }

  /** `[host]:port`, `host:port` or a bare host; anything with a colon is split at
      the last one. */
  function SplitHostPort(text: string, def: int): (string, int) {
    var s := TrimSpace(text);
    if ':' !in s then (s, def)
    else if HasPrefix(s, "[") then
      var end := FirstIndexOf(s, ']');
      if end < 0 then (s, def)
      else
        var rest := s[end + 1..];
        (s[..end + 1], PortOr(if HasPrefix(rest, ":") then rest[1..] else rest, def))
    else
      var i := LastIndexOf(s, ':');
      (s[..i], PortOr(s[i + 1..], def))
  }

  /** The host part is made of the text's own characters. */
  lemma HostChars(text: string, def: int, c: char)
    requires c in SplitHostPort(text, def).0
    ensures c in text
  {
    TrimSpaceChars(text, c);
  }

  lemma UpstreamChars(u: string, c: char)
    requires MatchesUpstream(u) && c in u
    ensures IsAlnum(c) || c == '-' || c == '.' || c == ':'
  {
    if MatchesIPv4(u) {
      if c != '.' { SplitChars(u, '.', c); }
    } else if MatchesHostname(u) {
      LabelsChars(u, c);
    }
  }

  /** An accepted upstream comes out as it was written exactly when it has no colon:
      a bare IPv6 address loses its last group to the port. */
  lemma SplitKeepsUpstream(u: string)
    requires MatchesUpstream(u)
    ensures SplitHostPort(u, 53) == (u, 53) <==> ':' !in u
  {
    forall c | c in u ensures !IsSpace(c) && c != '[' {
      UpstreamChars(u, c);
    }
    TrimSpaceNoop(u);
    if ':' in u {
      assert u[0] in u;
    }
  }

  /** An accepted upstream that does not. */
  lemma BareIPv6Loses()
    ensures MatchesUpstream("::1") && SplitHostPort("::1", 53) != ("::1", 53)
  {
    var u := "::1";
    assert MatchesIPv6(u);
    assert u[0] == ':';
    SplitKeepsUpstream(u);
  }

  lemma {:induction false} LeadingDigitsAll(s: string)
    requires forall c :: c in s ==> IsDigit(c)
    ensures LeadingDigits(s) == s
  {
    if s != "" {
      assert s[0] in s;
      LeadingDigitsAll(s[1..]);
    }
  }

  lemma ScanDigits(n: int)
    requires 0 < n <= MAX_INT64
    ensures ScanInt(Digits(n)) == n
  {
    DigitsParse(n);
    var d := Digits(n);
    assert d[0] in d;
    LeadingDigitsAll(d);
  }

  /** A sign is read. */
  lemma ScanNegative(n: int)
    requires 0 < n <= MAX_INT64
    ensures ScanInt("-" + Digits(n)) == -n
  {
    DigitsParse(n);
    var s := "-" + Digits(n);
    assert s[0] == '-' && s[1..] == Digits(n);
    assert TrimLeft(s) == s;
    assert LeadingDigits(s[1..]) == Digits(n) by { LeadingDigitsAll(Digits(n)); }
  }

  lemma LastColonAt(host: string, d: string)
    requires ':' !in d
    ensures LastIndexOf(host + ":" + d, ':') == |host|
  {
    var s := host + ":" + d;
    var i := LastIndexOf(s, ':');
    assert s[|host|] == ':';
    assert i == |host|;
  }

  /** A plain host and a port come apart again. */
  lemma HostPortSplits(host: string, d: string, def: int)
    requires forall c :: c in host + d ==> !IsSpace(c) && c != ':' && c != '['
    requires ScanInt(d) != 0
    ensures SplitHostPort(host + ":" + d, def) == (host, ScanInt(d))
  {
    var s := host + ":" + d;
    forall c | c in s ensures !IsSpace(c) && c != '[' {
      assert c in host + d || c == ':';
    }
    assert forall c :: c in d ==> c in host + d;
    TrimSpaceNoop(s);
    LastColonAt(host, d);
    assert s[|host|] == ':' && s[0] in s;
    assert s[..|host|] == host && s[|host| + 1..] == d;
  }

  /** A text without blanks and colons is a host, with the port that goes without saying. */
  lemma BareHost(host: string, def: int)
    requires forall c :: c in host ==> !IsSpace(c) && c != ':'
    ensures SplitHostPort(host, def) == (host, def)
  {
    TrimSpaceNoop(host);
  }

  /** A bracketed host keeps its brackets, and its port comes after the colon. */
  lemma BracketedSplits(host: string, d: string, def: int)
    requires forall c :: c in host + d ==> !IsSpace(c) && c != ']'
    ensures SplitHostPort("[" + host + "]:" + d, def)
         == ("[" + host + "]", if ScanInt(d) == 0 then def else ScanInt(d))
  {
    var front := "[" + host;
    var s := front + "]:" + d;
    forall c | c in s ensures !IsSpace(c) {
      assert c in host + d || c == '[' || c == ']' || c == ':';
    }
    TrimSpaceNoop(s);
    assert forall c :: c in host ==> c in host + d;
    FirstBracket(front, ":" + d);
    assert s == front + "]" + (":" + d);
    assert s[|front| + 1] == ':' && s[0] == '[';
    assert s[..1] == "[" && s[..|front| + 1] == front + "]" && s[|front| + 1..] == ":" + d;
    assert (":" + d)[..1] == ":" && (":" + d)[1..] == d;
  }

  lemma {:induction false} FirstBracket(a: string, b: string)
    requires ']' !in a
    ensures FirstIndexOf(a + "]" + b, ']') == |a|
  {
    var s := a + "]" + b;
    if a != "" {
      assert s[0] == a[0] && s[1..] == a[1..] + "]" + b;
      FirstBracket(a[1..], b);
    }
  }
}
