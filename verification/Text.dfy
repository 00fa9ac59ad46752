/** The text operations behind the master's command line: decimal numbers, comma lists, blanks. */
module Text {

  // ---------- decimal numbers ----------

  function Digit(d: nat): (c: char)
    requires d < 10
  {
    "0123456789"[d]
  }

  function DigitValue(c: char): int {
    c as int - '0' as int
  }

  function Digits(n: nat): (s: string)
    ensures s != ""
  {
    if n < 10 then [Digit(n)] else Digits(n / 10) + [Digit(n % 10)]
  }

  function Decimal(i: int): string {
    if i < 0 then "-" + Digits(-i) else Digits(i)
  }

  function DigitsValue(s: string): int {
    if s == "" then 0 else DigitsValue(s[..|s| - 1]) * 10 + DigitValue(s[|s| - 1])
  }

  function ParseDecimal(s: string): int {
    if s != "" && s[0] == '-' then -DigitsValue(s[1..]) else DigitsValue(s)
  }

  lemma {:induction false} DigitsRoundTrip(n: nat)
    ensures DigitsValue(Digits(n)) == n && '0' <= Digits(n)[0] <= '9'
  {
    if n < 10 {
      assert Digits(n)[..0] == "";
    } else {
      DigitsRoundTrip(n / 10);
      var s := Digits(n);
      assert s[..|s| - 1] == Digits(n / 10);
      assert s[0] == Digits(n / 10)[0];
    }
  }

  lemma SignReads(digits: string)
    requires digits != "" && digits[0] != '-'
    ensures ParseDecimal("-" + digits) == -DigitsValue(digits)
    ensures ParseDecimal(digits) == DigitsValue(digits)
  {
    assert ("-" + digits)[1..] == digits;
  }

  lemma DecimalRoundTrip(i: int)
    ensures ParseDecimal(Decimal(i)) == i
  {
    var n: nat := if i < 0 then -i else i;
    DigitsRoundTrip(n);
    SignReads(Digits(n));
  }

  // ---------- comma lists ----------

  predicate CommaFree(s: string) {
    ',' !in s
  }

  predicate AllCommaFree(parts: seq<string>) {
    forall i :: 0 <= i < |parts| ==> CommaFree(parts[i])
  }

  function Join(parts: seq<string>): string {
    if |parts| == 0 then ""
    else if |parts| == 1 then parts[0]
    else parts[0] + "," + Join(parts[1..])
  }

  function Split(s: string): (parts: seq<string>)
    ensures |parts| > 0 && AllCommaFree(parts)
  {
    if s == "" then [""]
    else
      var rest := Split(s[1..]);
      if s[0] == ',' then [""] + rest else [[s[0]] + rest[0]] + rest[1..]
  }

  lemma {:induction false} SplitWhole(p: string)
    requires CommaFree(p)
    ensures Split(p) == [p]
  {
    if p != "" {
      SplitWhole(p[1..]);
      assert [p[0]] + p[1..] == p;
    }
  }

  lemma {:induction false} SplitFirst(p: string, rest: string)
    requires CommaFree(p)
    ensures Split(p + "," + rest) == [p] + Split(rest)
  {
    var s := p + "," + rest;
    if p == "" {
      assert s[1..] == rest;
    } else {
      SplitFirst(p[1..], rest);
      assert s[1..] == p[1..] + "," + rest;
      assert [p[0]] + p[1..] == p;
    }
  }

  lemma {:induction false} SplitJoin(parts: seq<string>)
    requires parts != [] && AllCommaFree(parts)
    ensures Split(Join(parts)) == parts
  {
    if |parts| == 1 {
      SplitWhole(parts[0]);
    } else {
      SplitJoin(parts[1..]);
      SplitFirst(parts[0], Join(parts[1..]));
    }
  }

  // ---------- blanks ----------

  /** The characters that `strings.TrimSpace` strips: those with Unicode's White_Space property. */
  predicate IsSpace(c: char) {
    c in "\t\n\U{0B}\U{0C}\r \U{85}\U{A0}\U{1680}\U{2028}\U{2029}\U{202F}\U{205F}\U{3000}"
    || '\U{2000}' <= c <= '\U{200A}'
  }

  predicate IsBlank(s: string) {
    forall c :: c in s ==> IsSpace(c)
  }

  /** A character that is not white space, told by its code; letters and digits are visible. */
  predicate Visible(c: char) {
    var n := c as int;
    !(9 <= n <= 13 || n == 32 || n == 0x85 || n == 0xA0 || n == 0x1680 || 0x2000 <= n <= 0x200A
      || n == 0x2028 || n == 0x2029 || n == 0x202F || n == 0x205F || n == 0x3000)
  }

  lemma VisibleExactly(c: char)
    ensures IsSpace(c) <==> !Visible(c)
  {
  }

  lemma BlankExactly(s: string)
    ensures IsBlank(s) <==> !(exists i :: 0 <= i < |s| && Visible(s[i]))
    ensures forall c :: 'a' <= c <= 'z' || 'A' <= c <= 'Z' || '0' <= c <= '9' ==> !IsBlank([c])
  {
    forall c ensures IsSpace(c) <==> !Visible(c) { VisibleExactly(c); }
    if !IsBlank(s) {
      var c :| c in s && !IsSpace(c);
      var i :| 0 <= i < |s| && s[i] == c;
      assert Visible(s[i]);
    }
    forall c | 'a' <= c <= 'z' || 'A' <= c <= 'Z' || '0' <= c <= '9' ensures !IsBlank([c]) {
      assert c in [c] && Visible(c);
    }
  }
}
