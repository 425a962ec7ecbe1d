/** Decimal printing and the key under which upstream defaults are matched
    (internal/sync/sync.go). */
module Decimal {
  import opened Text

  const MIN_INT64: int := -0x8000_0000_0000_0000
  const MAX_INT64: int := 0x7fff_ffff_ffff_ffff

  predicate IsInt64(n: int) {
    MIN_INT64 <= n <= MAX_INT64
  }

  /** Negation in 64-bit two's complement. */
  function Neg64(n: int): int {
    if n == MIN_INT64 then MIN_INT64 else -n
  }

  function DigitChar(d: int): char
    requires 0 <= d < 10
  {
    ('0' as int + d) as char
  }

  predicate IsDigit(c: char) {
    '0' <= c <= '9'
  }

  /** Decimal digits, most significant first; nothing for zero. */
  function Digits(n: nat): string {
    if n == 0 then "" else Digits(n / 10) + [DigitChar(n % 10)]
  }

  /** The value read by a decimal reader. */
  function Value(s: string): int
    requires forall c :: c in s ==> IsDigit(c)
  {
    if s == "" then 0 else 10 * Value(s[..|s| - 1]) + (s[|s| - 1] as int - '0' as int)
  }

  /** A signed decimal reader, defined without reference to the printer. */
  function ParseInt(s: string): Option<int> {
    if s != "" && forall c :: c in s ==> IsDigit(c) then Some(Value(s))
    else if |s| > 1 && s[0] == '-' && forall c :: c in s[1..] ==> IsDigit(c) then Some(-Value(s[1..]))
    else None
  }

  lemma {:induction false} DigitsParse(n: nat)
    ensures forall c :: c in Digits(n) ==> IsDigit(c)
    ensures Value(Digits(n)) == n
    ensures n > 0 ==> Digits(n) != ""
  {
    if n > 0 {
      DigitsParse(n / 10);
      var s := Digits(n);
      assert s[..|s| - 1] == Digits(n / 10);
      assert s[|s| - 1] == DigitChar(n % 10);
    }
  }

  /** What the printer prints: the minimum negates to itself, so its digit loop
      never runs and only the sign comes out. */
  function Printed(n: int): string {
    if n == 0 then "0"
    else if n > 0 then Digits(n)
    else if n == MIN_INT64 then "-"
    else "-" + Digits(-n)
  }

  function Pow10(k: nat): nat {
    if k == 0 then 1 else 10 * Pow10(k - 1)
  }

  lemma Pow10Nineteen()
    ensures Pow10(19) == 10_000_000_000_000_000_000
  {
    assert Pow10(8) == 100_000_000;
    assert Pow10(16) == 10_000_000_000_000_000;
  }

  lemma Room(n: nat, i: nat)
    requires n > 0 && i > 1 && n < Pow10(i - 1)
    ensures n / 10 < Pow10(i - 2)
  {
  }

  /** One digit more in front. */
  lemma DigitsStep(n: nat, tail: string)
    requires n > 0
    ensures Digits(n) + tail == Digits(n / 10) + ([DigitChar(n % 10)] + tail)
  {
  }

  /** The digit loop, filling the buffer from the back. */
  method FillDigits(b: array<char>, n0: nat) returns (i: nat)
    requires b.Length == 20 && n0 < Pow10(19)
    modifies b
    ensures 1 <= i <= 20 && b[i..] == Digits(n0)
  {
    var n: nat := n0;
    i := b.Length;
    while n > 0
      invariant 1 <= i <= 20
      invariant n < Pow10(i - 1)
      invariant Digits(n0) == Digits(n) + b[i..]
    {
      ghost var before := b[i..];
      assert i > 1;
      Room(n, i);
      DigitsStep(n, before);
      i := i - 1;
      b[i] := DigitChar(n % 10);
      assert b[i..] == [DigitChar(n % 10)] + before;
      n := n / 10;
    }
  }

  /** Prints into a 20-byte buffer from the back, as the source does. Every
      store is inside the buffer. */
  method Itoa(n0: int) returns (s: string)
    requires IsInt64(n0)
    ensures s == Printed(n0)
  {
    if n0 == 0 {
      return "0";
    }
    var n := n0;
    var neg := n < 0;
    if neg {
      n := Neg64(n);
    }
    var b := new char[20];
    Pow10Nineteen();
    var i := FillDigits(b, if n > 0 then n else 0);
    if neg {
      ghost var before := b[i..];
      i := i - 1;
      b[i] := '-';
      assert b[i..] == ['-'] + before;
    }
    s := b[i..];
  }

  /** The printed form reads back exactly for every 64-bit integer but the minimum. */
  lemma PrintedParses(n: int)
    requires IsInt64(n)
    ensures ParseInt(Printed(n)) == Some(n) <==> n != MIN_INT64
  {
    if n == 0 {
      assert "0"[..0] == "" && Value("0") == 0;
    } else if n > 0 {
      DigitsParse(n);
    } else if n == MIN_INT64 {
      assert '-' in "-";
    } else {
      DigitsParse(-n);
      assert Printed(n)[1..] == Digits(-n);
      assert '-' in Printed(n);
    }
  }

  /** Distinct integers print differently, the minimum included. */
  lemma PrintedInjective(m: int, n: int)
    requires IsInt64(m) && IsInt64(n) && Printed(m) == Printed(n)
    ensures m == n
  {
    PrintedParses(m);
    PrintedParses(n);
  }

  lemma PrintedNoColon(n: int)
    ensures forall c :: c in Printed(n) ==> IsDigit(c) || c == '-'
    ensures ':' !in Printed(n)
  {
    if n > 0 {
      DigitsParse(n);
    } else if n < 0 {
      DigitsParse(-n);
    }
  }

  function UpstreamKey(addr: string, port: int): string {
    ToLower(addr) + ":" + Printed(port)
  }

  lemma SplitAtLastColon(a: string, p: string, b: string, q: string)
    requires ':' !in p && ':' !in q
    requires a + ":" + p == b + ":" + q
    ensures a == b && p == q
  {
    var s := a + ":" + p;
    var t := b + ":" + q;
    assert s[|a|] == ':' && t[|b|] == ':';
    assert |a| == |b|;
    assert a == s[..|a|] && b == t[..|b|];
    assert p == s[|a| + 1..] && q == t[|b| + 1..];
  }

  /** Two upstreams share a key exactly when address (up to case) and port agree,
      whatever colons the addresses hold. */
  lemma UpstreamKeyInjective(a: string, p: int, b: string, q: int)
    requires IsInt64(p) && IsInt64(q)
    ensures UpstreamKey(a, p) == UpstreamKey(b, q) <==> ToLower(a) == ToLower(b) && p == q
  {
    if UpstreamKey(a, p) == UpstreamKey(b, q) {
      PrintedNoColon(p);
      PrintedNoColon(q);
      SplitAtLastColon(ToLower(a), Printed(p), ToLower(b), Printed(q));
      PrintedInjective(p, q);
    }
  }
}
