/** The JavaScript numbers that reach the program's decisions: results of
    `Number.parseInt(text, 10)` and integer arguments. Only integers and NaN occur
    there, so a number is one or the other. */
module JsNumber {
  import opened JsString

  datatype Num = NaN | Int(value: int)

  /** JavaScript truthiness of a number: NaN and zero (also -0) are falsy. */
  predicate Truthy(n: Num) {
    n.Int? && n.value != 0
  }

  predicate IsDigit(c: char) {
    '0' <= c <= '9'
  }

  function DigitValue(c: char): (r: nat)
    requires IsDigit(c)
    ensures r < 10
  {
    c as int - '0' as int
  }

  /** The number of decimal digits `s` starts with. */
  function LeadingDigits(s: string): (n: nat)
    ensures n <= |s|
    ensures forall i :: 0 <= i < n ==> IsDigit(s[i])
    ensures n < |s| ==> !IsDigit(s[n])
  {
    if |s| == 0 || !IsDigit(s[0]) then 0 else 1 + LeadingDigits(s[1..])
  }

  /** The value of a string of decimal digits, most significant first. */
  function DigitsValue(s: string): nat
    requires forall i :: 0 <= i < |s| ==> IsDigit(s[i])
  {
    if |s| == 0 then 0 else DigitsValue(s[..|s| - 1]) * 10 + DigitValue(s[|s| - 1])
  }

  /** `Number.parseInt(s, 10)`: leading whitespace is skipped, one optional sign
      is read, then the longest run of decimal digits; no digit at all is NaN,
      and whatever follows the digits is ignored. */
  function ParseInt10(s: string): (r: Num)
    ensures r.NaN? <==> LeadingDigits(Unsigned(TrimStart(s))) == 0
  {
    var t := TrimStart(s);
    var u := Unsigned(t);
    var n := LeadingDigits(u);
    if n == 0 then NaN
    else
      var v: int := DigitsValue(u[..n]);
      Int(if |t| > 0 && t[0] == '-' then -v else v)
  }

  /** The text after one optional leading sign. */
  function Unsigned(t: string): (u: string)
    ensures u == t || (|t| > 0 && (t[0] == '+' || t[0] == '-') && u == t[1..])
  {
    if |t| > 0 && (t[0] == '+' || t[0] == '-') then t[1..] else t
  }

  /** The decimal text of a natural number, as `String(n)` writes it. */
  function ToDecimal(n: nat): (s: string)
    ensures |s| >= 1
    ensures forall i :: 0 <= i < |s| ==> IsDigit(s[i])
  {
    if n < 10 then [('0' as int + n) as char]
    else ToDecimal(n / 10) + [('0' as int + n % 10) as char]
  }

  lemma {:induction false} DigitsValueOfDecimal(n: nat)
    ensures DigitsValue(ToDecimal(n)) == n
  {
    if n >= 10 {
      var s := ToDecimal(n);
      assert s[..|s| - 1] == ToDecimal(n / 10);
      DigitsValueOfDecimal(n / 10);
    }
  }

  lemma {:induction false} LeadingDigitsOfPrefix(d: string, rest: string)
    requires forall i :: 0 <= i < |d| ==> IsDigit(d[i])
    requires rest == [] || !IsDigit(rest[0])
    ensures LeadingDigits(d + rest) == |d|
  {
    if |d| > 0 {
      assert (d + rest)[1..] == d[1..] + rest;
      LeadingDigitsOfPrefix(d[1..], rest);
    } else {
      assert d + rest == rest;
    }
  }

  lemma TrimStartKeeps(s: string)
    requires |s| > 0 && !IsJsWhitespace(s[0])
    ensures TrimStart(s) == s
  {
  }

  /** Parsing reads exactly the digits of an unsigned decimal text. */
  lemma {:induction false} ParseUnsigned(d: string, rest: string)
    requires |d| >= 1 && forall i :: 0 <= i < |d| ==> IsDigit(d[i])
    requires rest == [] || !IsDigit(rest[0])
    ensures LeadingDigits(d + rest) == |d|
    ensures (d + rest)[..|d|] == d
  {
    LeadingDigitsOfPrefix(d, rest);
    assert (d + rest)[..|d|] == d;
  }

  /** What `ParseInt10` reads from a text that begins with a digit or a sign. */
  lemma ParseIntOf(s: string, d: string)
    requires |s| > 0 && !IsJsWhitespace(s[0])
    requires |d| >= 1 && forall i :: 0 <= i < |d| ==> IsDigit(d[i])
    requires LeadingDigits(Unsigned(s)) == |d| && Unsigned(s)[..|d|] == d
    ensures ParseInt10(s) == Int(if s[0] == '-' then -(DigitsValue(d) as int) else DigitsValue(d))
  {
    TrimStartKeeps(s);
  }

  /** Round trip: parsing the decimal text of a natural number, however it is
      followed by non-digits, gives that number back. */
  lemma {:induction false} ParseDecimal(m: nat, rest: string)
    requires rest == [] || !IsDigit(rest[0])
    ensures ParseInt10(ToDecimal(m) + rest) == Int(m)
  {
    var d := ToDecimal(m);
    ParseUnsigned(d, rest);
    DigitsValueOfDecimal(m);
    assert IsDigit((d + rest)[0]);
    ParseIntOf(d + rest, d);
  }

  /** The same with a minus sign in front: the negated number. */
  lemma {:induction false} ParseNegativeDecimal(m: nat, rest: string)
    requires rest == [] || !IsDigit(rest[0])
    ensures ParseInt10("-" + ToDecimal(m) + rest) == Int(-(m as int))
  {
    var d := ToDecimal(m);
    ParseUnsigned(d, rest);
    DigitsValueOfDecimal(m);
    var s := "-" + d + rest;
    assert s == ['-'] + (d + rest);
    assert Unsigned(s) == d + rest;
    ParseIntOf(s, d);
  }

  /** `s.slice(0, end)`: NaN counts as 0, a negative end counts from the back,
      and an end past the length stops at the length. */
  function SlicePrefix<T>(s: seq<T>, end: Num): (r: seq<T>)
    ensures |r| <= |s| && r == s[..|r|]
    ensures end.NaN? ==> r == []
    ensures end.Int? && end.value >= 0 ==> |r| == if end.value < |s| then end.value else |s|
    ensures end.Int? && end.value < 0 ==> |r| == if |s| + end.value > 0 then |s| + end.value else 0
  {
    match end
    case NaN => []
    case Int(k) =>
      if k < 0 then (if |s| + k > 0 then s[..|s| + k] else [])
      else if k < |s| then s[..k] else s
  }
}
