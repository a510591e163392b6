/** The string operations the program relies on: trimming, ordering, decimal numbers and splitting at a separator. */
module Text {

  /** Unicode white space. */
  predicate IsSpace(c: char) {
    || c in "\t\n\U{0B}\U{0C}\r \U{85}\U{A0}\U{1680}\U{2028}\U{2029}\U{202F}\U{205F}\U{3000}"
    || '\U{2000}' <= c <= '\U{200A}'
  }

  function TrimLeft(s: string): string {
    if s != "" && IsSpace(s[0]) then TrimLeft(s[1..]) else s
  }

  function TrimRight(s: string): string {
    if s != "" && IsSpace(s[|s| - 1]) then TrimRight(s[..|s| - 1]) else s
  }

  function Trim(s: string): string {
    TrimRight(TrimLeft(s))
  }

  lemma NothingToTrim(s: string)
    requires s != "" && !IsSpace(s[0]) && !IsSpace(s[|s| - 1])
    ensures Trim(s) == s
  {
    hide IsSpace;
  }

  /** Lexicographic order by code point. */
  predicate Less(a: string, b: string) {
    b != "" && (a == "" || a[0] < b[0] || (a[0] == b[0] && Less(a[1..], b[1..])))
  }

  /** Strings are totally ordered. */
  lemma {:induction false} LessIsTotal(a: string, b: string, c: string)
    ensures Less(a, b) ==> !Less(b, a)
    ensures Less(a, c) ==> Less(a, b) || Less(b, c)
    ensures !Less(a, b) && !Less(b, a) ==> a == b
    decreases |a| + |b| + |c|
  {
    if a != "" && b != "" {
      LessIsTotal(a[1..], b[1..], if c == "" then "" else c[1..]);
      assert a == [a[0]] + a[1..] && b == [b[0]] + b[1..];
    }
  }

  /** A natural number in decimal. */
  function Decimal(n: nat): string {
    if n < 10 then ["0123456789"[n]] else Decimal(n / 10) + ["0123456789"[n % 10]]
  }

  // ----- reading numbers back

  predicate Digits(s: string) {
    forall i :: 0 <= i < |s| ==> '0' <= s[i] <= '9'
  }

  function Value(s: string): int {
    if s == "" then 0 else 10 * Value(s[..|s| - 1]) + (s[|s| - 1] as int - '0' as int)
  }

  lemma ValueAppend(s: string, c: char)
    ensures Value(s + [c]) == 10 * Value(s) + (c as int - '0' as int)
  {
    assert (s + [c])[..|s|] == s;
  }

  lemma {:induction false} DecimalValue(n: nat)
    ensures Value(Decimal(n)) == n && Digits(Decimal(n))
  {
    hide Value;
    DigitValue(n % 10);
    if n < 10 {
      ValueAppend("", "0123456789"[n]);
      NoValue();
      assert "" + ["0123456789"[n]] == ["0123456789"[n]];
    } else {
      DecimalValue(n / 10);
      ValueAppend(Decimal(n / 10), "0123456789"[n % 10]);
    }
  }

  lemma DigitValue(n: nat)
    requires n < 10
    ensures '0' <= "0123456789"[n] <= '9' && "0123456789"[n] as int - '0' as int == n
  {}

  lemma NoValue()
    ensures Value("") == 0
  {}

  /** A decimal tells the number. */
  lemma DecimalIsInjective(m: nat, n: nat)
    requires Decimal(m) == Decimal(n)
    ensures m == n
  {
    hide Decimal, Value;
    DecimalValue(m);
    DecimalValue(n);
  }

  /** Text is split in only one way at the last separator. */
  lemma SplitIsUnique(a: string, b: string, c: string, d: string, separator: char)
    requires a + [separator] + b == c + [separator] + d && separator !in b && separator !in d
    ensures a == c && b == d
  {
    if |b| <= |d| {
      SameTail(a, b, c, d, separator);
    } else {
      SameTail(c, d, a, b, separator);
    }
    assert a == (a + [separator] + b)[..|a|] && c == (c + [separator] + d)[..|c|];
  }

  lemma SameTail(a: string, b: string, c: string, d: string, separator: char)
    requires a + [separator] + b == c + [separator] + d && separator !in d && |b| <= |d|
    ensures b == d
  {
    var s := a + [separator] + b;
    assert s[|a|] == separator && |s| == |c| + 1 + |d|;
    assert forall i :: |c| < i < |s| ==> s[i] == d[i - |c| - 1];
    assert |b| == |d|;
    assert s[|a| + 1..] == b && (c + [separator] + d)[|c| + 1..] == d;
  }
}
