/** The few ECMAScript string operations the program relies on, written out so that
    their edge cases (empty pieces of a split, whitespace-only entries, case of a
    key) are part of the model. */
module JsString {
  import opened Wrappers

  /** JavaScript truthiness of a string that may be `undefined`: set and non-empty. */
  predicate TruthyText(v: Option<string>) {
    v.Some? && v.value != ""
  }

  /** `s.startsWith(p)`. */
  predicate StartsWith(s: string, p: string) {
    |p| <= |s| && s[..|p|] == p
  }

  /** `s.endsWith(p)`. */
  predicate EndsWith(s: string, p: string) {
    |p| <= |s| && s[|s| - |p|..] == p
  }

  /** Lower-casing of one character; only the ASCII letters are mapped. */
  function LowerChar(c: char): (r: char)
    ensures 'A' <= c <= 'Z' ==> r as int == c as int + 32
    ensures !('A' <= c <= 'Z') ==> r == c
    ensures !('A' <= r <= 'Z')
  {
    if 'A' <= c <= 'Z' then (c as int + 32) as char else c
  }

  /** `s.toLowerCase()` on the ASCII letters. */
  function ToLower(s: string): (r: string)
    ensures |r| == |s|
    ensures forall i :: 0 <= i < |s| ==> r[i] == LowerChar(s[i])
  {
    seq(|s|, i requires 0 <= i < |s| => LowerChar(s[i]))
  }

  lemma ToLowerIdempotent(s: string)
    ensures ToLower(ToLower(s)) == ToLower(s)
  {
  }

  lemma ToLowerSuffix(s: string, p: string)
    requires EndsWith(s, p)
    ensures EndsWith(ToLower(s), ToLower(p))
  {
    assert ToLower(s)[|s| - |p|..] == ToLower(p);
  }

  /** The characters ECMAScript's `trim` removes: WhiteSpace (tab, vertical tab,
      form feed, space, no-break space, byte-order mark and the other Zs
      characters) and LineTerminator. */
  predicate IsJsWhitespace(c: char) {
    var n := c as int;
    || n == 0x09 || n == 0x0B || n == 0x0C || n == 0x20 || n == 0xA0 || n == 0xFEFF
    || n == 0x1680 || (0x2000 <= n <= 0x200A) || n == 0x202F || n == 0x205F || n == 0x3000
    || n == 0x0A || n == 0x0D || n == 0x2028 || n == 0x2029
  }

  /** `s.trimStart()`. */
  function TrimStart(s: string): (r: string)
    ensures |r| <= |s| && r == s[|s| - |r|..]
    ensures r == [] || !IsJsWhitespace(r[0])
  {
    if |s| > 0 && IsJsWhitespace(s[0]) then TrimStart(s[1..]) else s
  }

  /** `s.trimEnd()`. */
  function TrimEnd(s: string): (r: string)
    ensures |r| <= |s| && r == s[..|r|]
    ensures r == [] || !IsJsWhitespace(r[|r| - 1])
  {
    if |s| > 0 && IsJsWhitespace(s[|s| - 1]) then TrimEnd(s[..|s| - 1]) else s
  }

  /** `s.trim()`. */
  function Trim(s: string): (r: string)
    ensures |r| <= |s|
    ensures r == [] || (!IsJsWhitespace(r[0]) && !IsJsWhitespace(r[|r| - 1]))
    ensures (|s| == 0 || (!IsJsWhitespace(s[0]) && !IsJsWhitespace(s[|s| - 1]))) ==> r == s
  {
    TrimEnd(TrimStart(s))
  }

  /** A string made of whitespace only (the empty string included). */
  predicate IsBlank(s: string) {
    forall i :: 0 <= i < |s| ==> IsJsWhitespace(s[i])
  }

  /** `s.trim() === ""` holds exactly for the blank strings. */
  lemma {:induction false} TrimEmptyIffBlank(s: string)
    ensures Trim(s) == "" <==> IsBlank(s)
  {
    TrimStartBlank(s);
    TrimEndBlank(TrimStart(s));
  }

  /** Blankness, one character at the front. */
  lemma BlankCons(s: string)
    requires |s| > 0
    ensures IsBlank(s) <==> IsJsWhitespace(s[0]) && IsBlank(s[1..])
  {
    if IsJsWhitespace(s[0]) && IsBlank(s[1..]) {
      forall i | 1 <= i < |s| ensures IsJsWhitespace(s[i]) {
        assert s[i] == s[1..][i - 1];
      }
    }
  }

  /** Blankness, one character at the back. */
  lemma BlankSnoc(s: string)
    requires |s| > 0
    ensures IsBlank(s) <==> IsJsWhitespace(s[|s| - 1]) && IsBlank(s[..|s| - 1])
  {
    if IsJsWhitespace(s[|s| - 1]) && IsBlank(s[..|s| - 1]) {
      forall i | 0 <= i < |s| - 1 ensures IsJsWhitespace(s[i]) {
        assert s[i] == s[..|s| - 1][i];
      }
    }
  }

  lemma {:induction false} TrimStartBlank(s: string)
    ensures TrimStart(s) == "" <==> IsBlank(s)
  {
    if |s| > 0 {
      BlankCons(s);
      if IsJsWhitespace(s[0]) {
        TrimStartBlank(s[1..]);
      }
    }
  }

  lemma {:induction false} TrimEndBlank(s: string)
    ensures TrimEnd(s) == "" <==> IsBlank(s)
  {
    if |s| > 0 {
      BlankSnoc(s);
      if IsJsWhitespace(s[|s| - 1]) {
        TrimEndBlank(s[..|s| - 1]);
      }
    }
  }

  /** `s.split(sep)` for a one-character separator: the maximal separator-free
      pieces, empty ones included, so that even "" gives [""]. */
  function Split(s: string, sep: char): (r: seq<string>)
    ensures |r| >= 1
    decreases |s|
  {
    if |s| == 0 then [""]
    else
      var rest := Split(s[1..], sep);
      if s[0] == sep then [""] + rest
      else [[s[0]] + rest[0]] + rest[1..]
  }

  /** `parts.join(sep)`, the inverse of `Split`. */
  function Join(parts: seq<string>, sep: char): string
    requires |parts| >= 1
  {
    if |parts| == 1 then parts[0] else parts[0] + [sep] + Join(parts[1..], sep)
  }

  /** Joining the pieces with the separator gives back the original string. */
  lemma {:induction false} JoinSplit(s: string, sep: char)
    ensures Join(Split(s, sep), sep) == s
  {
    if |s| > 0 {
      var rest := Split(s[1..], sep);
      JoinSplit(s[1..], sep);
      if s[0] == sep {
        assert Split(s, sep) == [""] + rest;
        assert ([""] + rest)[1..] == rest;
        assert s == [sep] + s[1..];
      } else {
        var parts := Split(s, sep);
        assert parts[0] == [s[0]] + rest[0];
        if |rest| == 1 {
          assert s == [s[0]] + s[1..];
        } else {
          assert parts[1..] == rest[1..];
          assert Join(rest, sep) == rest[0] + [sep] + Join(rest[1..], sep);
          assert s == [s[0]] + s[1..];
        }
      }
    }
  }

  /** No piece contains the separator. */
  lemma {:induction false} SplitPiecesHaveNoSeparator(s: string, sep: char)
    ensures forall k :: 0 <= k < |Split(s, sep)| ==> sep !in Split(s, sep)[k]
  {
    if |s| > 0 {
      SplitPiecesHaveNoSeparator(s[1..], sep);
    }
  }

  /** A string without the separator splits into itself alone. */
  lemma {:induction false} SplitNoSeparator(s: string, sep: char)
    requires sep !in s
    ensures Split(s, sep) == [s]
  {
    if |s| > 0 {
      SplitNoSeparator(s[1..], sep);
      assert [s[0]] + s[1..] == s;
    }
  }

  /** Splitting distributes over a separator between two strings. */
  lemma {:induction false} SplitAppend(a: string, b: string, sep: char)
    ensures Split(a + [sep] + b, sep) == Split(a, sep) + Split(b, sep)
  {
    if |a| == 0 {
      assert a + [sep] + b == [sep] + b;
      assert ([sep] + b)[1..] == b;
    } else {
      var s := a + [sep] + b;
      assert s[1..] == a[1..] + [sep] + b;
      assert s[0] == a[0];
      SplitAppend(a[1..], b, sep);
    }
  }
}
