/** The JavaScript string and array built-ins the application relies on,
    stated over `seq`: `slice` with a negative start, `split`/`join` on a
    one-character separator, `filter(Boolean)` on strings, `trim`, and the
    decimal rendering of an integer in a template literal. `FirstIndex` and
    `LastIndex` are search helpers for the model of a regular-expression
    match. */
module Text {
  import opened Wrappers

  function Min(a: int, b: int): int {
    if a <= b then a else b
  }

  function Max(a: int, b: int): int {
    if a <= b then b else a
  }

  // ---------------------------------------------------------------------------
  // Array.prototype.slice(start) with JavaScript's negative-start rule
  // ---------------------------------------------------------------------------

  /** `s.slice(start)`: a negative start counts from the end and is clamped at
      0; a start past the end yields the empty sequence. Note `-0 == 0`, so
      `slice(-0)` is the whole sequence. */
  function Slice<T>(s: seq<T>, start: int): (r: seq<T>)
    ensures |r| == (if start < 0 then Min(-start, |s|) else |s| - Min(start, |s|))
    ensures r == s[|s| - |r|..]
  {
    var k := if start < 0 then Max(|s| + start, 0) else Min(start, |s|);
    s[k..]
  }

  /** `s.slice(-n)` for a positive `n`: the last `min(n, |s|)` elements, in
      their original order. */
  function TakeLast<T>(s: seq<T>, n: int): (r: seq<T>)
    requires n > 0
    ensures |r| == Min(n, |s|)
    ensures r == s[|s| - |r|..]
  {
    Slice(s, -n)
  }

  // ---------------------------------------------------------------------------
  // indexOf / lastIndexOf
  // ---------------------------------------------------------------------------

  function FirstIndex<T(==)>(s: seq<T>, x: T): (r: Option<nat>)
    ensures r.None? <==> x !in s
    ensures r.Some? ==> r.value < |s| && s[r.value] == x
    ensures r.Some? ==> forall k :: 0 <= k < r.value ==> s[k] != x
  {
    if |s| == 0 then None
    else if s[0] == x then Some(0)
    else
      match FirstIndex(s[1..], x)
      case None => None
      case Some(i) => Some(i + 1)
  }

  function LastIndex<T(==)>(s: seq<T>, x: T): (r: Option<nat>)
    ensures r.None? <==> x !in s
    ensures r.Some? ==> r.value < |s| && s[r.value] == x
    ensures r.Some? ==> forall k :: r.value < k < |s| ==> s[k] != x
  {
    if |s| == 0 then None
    else if s[|s| - 1] == x then Some(|s| - 1)
    else LastIndex(s[..|s| - 1], x)
  }

  // ---------------------------------------------------------------------------
  // String.prototype.split(sep) and Array.prototype.join(sep)
  // ---------------------------------------------------------------------------

  /** `s.split(sep)` for a one-character separator: the pieces between
      separators. There is always one more piece than separators, so the empty
      string splits into `[""]`. */
  function Split(s: string, sep: char): (pieces: seq<string>)
    ensures |pieces| >= 1
    ensures forall i :: 0 <= i < |pieces| ==> sep !in pieces[i]
    decreases |s|
  {
    if |s| == 0 then [""]
    else
      var rest := Split(s[1..], sep);
      if s[0] == sep then [""] + rest
      else [[s[0]] + rest[0]] + rest[1..]
  }

  /** `parts.join(sep)`. */
  function Join(parts: seq<string>, sep: string): string
    decreases |parts|
  {
    if |parts| == 0 then ""
    else if |parts| == 1 then parts[0]
    else parts[0] + sep + Join(parts[1..], sep)
  }

  /** A character in neither the parts nor the separator is not in the join. */
  lemma {:induction false} JoinAvoids(parts: seq<string>, sep: string, c: char)
    requires c !in sep
    requires forall i :: 0 <= i < |parts| ==> c !in parts[i]
    ensures c !in Join(parts, sep)
    decreases |parts|
  {
    if |parts| > 1 {
      JoinAvoids(parts[1..], sep, c);
    }
  }

  /** The join starts with the first part. */
  lemma JoinStartsWithFirst(parts: seq<string>, sep: string)
    requires |parts| >= 1
    ensures parts[0] <= Join(parts, sep)
  {
  }

  /** `filter(Boolean)` on strings: drops the empty (falsy) strings and keeps
      the others in order. */
  function NonEmpty(xs: seq<string>): (r: seq<string>)
    ensures |r| <= |xs|
    ensures forall i :: 0 <= i < |r| ==> r[i] != "" && r[i] in xs
  {
    if |xs| == 0 then []
    else if xs[0] == "" then NonEmpty(xs[1..])
    else [xs[0]] + NonEmpty(xs[1..])
  }

  /** A list without empty strings passes the filter unchanged. */
  lemma {:induction false} NonEmptyKeepsAll(xs: seq<string>)
    requires forall i :: 0 <= i < |xs| ==> xs[i] != ""
    ensures NonEmpty(xs) == xs
    decreases |xs|
  {
    if |xs| > 0 {
      NonEmptyKeepsAll(xs[1..]);
      assert xs == [xs[0]] + xs[1..];
    }
  }

  /** Filtering distributes over concatenation. */
  lemma {:induction false} NonEmptyAppend(xs: seq<string>, ys: seq<string>)
    ensures NonEmpty(xs + ys) == NonEmpty(xs) + NonEmpty(ys)
    decreases |xs|
  {
    if |xs| == 0 {
      assert xs + ys == ys;
    } else {
      assert (xs + ys)[1..] == xs[1..] + ys;
      NonEmptyAppend(xs[1..], ys);
      if xs[0] != "" {
        assert NonEmpty(xs + ys) == [xs[0]] + NonEmpty(xs[1..] + ys);
        assert NonEmpty(xs) == [xs[0]] + NonEmpty(xs[1..]);
      }
    }
  }

  lemma {:induction false} SplitPrefix(w: string, t: string, sep: char)
    requires sep !in w
    ensures Split(w + t, sep) == [w + Split(t, sep)[0]] + Split(t, sep)[1..]
    decreases |w|
  {
    if |w| > 0 {
      assert (w + t)[0] == w[0];
      assert (w + t)[1..] == w[1..] + t;
      SplitPrefix(w[1..], t, sep);
      assert [w[0]] + (w[1..] + Split(t, sep)[0]) == w + Split(t, sep)[0];
    } else {
      var st := Split(t, sep);
      assert w + t == t && w + st[0] == st[0];
      assert st == [st[0]] + st[1..];
    }
  }

  /** Splitting a joined list gives the list back when no part holds the
      separator: `join` and `split` are inverses on newline-free lines. */
  lemma {:induction false} SplitJoin(parts: seq<string>, sep: char)
    requires |parts| >= 1
    requires forall i :: 0 <= i < |parts| ==> sep !in parts[i]
    ensures Split(Join(parts, [sep]), sep) == parts
    decreases |parts|
  {
    if |parts| == 1 {
      SplitPrefix(parts[0], "", sep);
      assert parts[0] + "" == parts[0];
    } else {
      var tail := Join(parts[1..], [sep]);
      SplitJoin(parts[1..], sep);
      assert Join(parts, [sep]) == parts[0] + ([sep] + tail);
      SplitPrefix(parts[0], [sep] + tail, sep);
      assert ([sep] + tail)[0] == sep && ([sep] + tail)[1..] == tail;
      var st := Split([sep] + tail, sep);
      assert st == [""] + parts[1..];
      assert st[0] == "" && st[1..] == parts[1..];
      assert parts[0] + st[0] == parts[0];
      assert parts == [parts[0]] + parts[1..];
    }
  }

  /** Joining the pieces of a split gives the string back. */
  lemma {:induction false} JoinSplit(s: string, sep: char)
    ensures Join(Split(s, sep), [sep]) == s
    decreases |s|
  {
    if |s| > 0 {
      var rest := Split(s[1..], sep);
      JoinSplit(s[1..], sep);
      if s[0] == sep {
        assert Join([""] + rest, [sep]) == "" + [sep] + Join(rest, [sep]);
        assert s == [s[0]] + s[1..];
      } else {
        if |rest| == 1 {
          assert s == [s[0]] + s[1..];
        } else {
          var parts := [[s[0]] + rest[0]] + rest[1..];
          assert parts[1..] == rest[1..];
          assert Join(rest, [sep]) == rest[0] + [sep] + Join(rest[1..], [sep]);
          assert s == [s[0]] + s[1..];
        }
      }
    }
  }

  // ---------------------------------------------------------------------------
  // String.prototype.trim
  // ---------------------------------------------------------------------------

  /** ECMAScript WhiteSpace and LineTerminator code points, the set `trim`
      removes. */
  predicate IsJsWhitespace(c: char) {
    var n := c as int;
    n == 0x09 || n == 0x0A || n == 0x0B || n == 0x0C || n == 0x0D || n == 0x20
    || n == 0xA0 || n == 0x1680 || (0x2000 <= n <= 0x200A)
    || n == 0x2028 || n == 0x2029 || n == 0x202F || n == 0x205F
    || n == 0x3000 || n == 0xFEFF
  }

  predicate AllWhitespace(s: string) {
    forall i :: 0 <= i < |s| ==> IsJsWhitespace(s[i])
  }

  /** The end of the run of whitespace that starts at `i`. */
  function WhitespaceRunFrom(s: string, i: nat): (k: nat)
    requires i <= |s|
    ensures i <= k <= |s|
    ensures forall m :: i <= m < k ==> IsJsWhitespace(s[m])
    ensures k < |s| ==> !IsJsWhitespace(s[k])
    decreases |s| - i
  {
    if i < |s| && IsJsWhitespace(s[i]) then WhitespaceRunFrom(s, i + 1) else i
  }

  /** The start of the run of whitespace that ends at `j`, not reaching back
      past `lo`, where `s[lo]` is not whitespace. */
  function WhitespaceRunBefore(s: string, lo: nat, j: nat): (k: nat)
    requires lo < j <= |s| && !IsJsWhitespace(s[lo])
    ensures lo < k <= j
    ensures forall m :: k <= m < j ==> IsJsWhitespace(s[m])
    ensures !IsJsWhitespace(s[k - 1])
    decreases j
  {
    if IsJsWhitespace(s[j - 1]) then WhitespaceRunBefore(s, lo, j - 1) else j
  }

  /** The number of whitespace characters `s` starts with. */
  function LeadingWhitespace(s: string): (k: nat)
    ensures k <= |s|
    ensures forall m :: 0 <= m < k ==> IsJsWhitespace(s[m])
    ensures k < |s| ==> !IsJsWhitespace(s[k])
  {
    WhitespaceRunFrom(s, 0)
  }

  /** `s.trim()`: the infix of `s` left after removing leading and trailing
      whitespace; it starts and ends with a non-whitespace character, and it is
      empty exactly when `s` is all whitespace. */
  function Trim(s: string): (r: string)
    ensures LeadingWhitespace(s) + |r| <= |s|
    ensures r == s[LeadingWhitespace(s)..LeadingWhitespace(s) + |r|]
    ensures forall m :: LeadingWhitespace(s) + |r| <= m < |s| ==> IsJsWhitespace(s[m])
    ensures |r| > 0 ==> !IsJsWhitespace(r[0]) && !IsJsWhitespace(r[|r| - 1])
    ensures r == "" <==> AllWhitespace(s)
  {
    var k := LeadingWhitespace(s);
    if k == |s| then ""
    else
      var e := WhitespaceRunBefore(s, k, |s|);
      assert !AllWhitespace(s) by { assert !IsJsWhitespace(s[k]); }
      s[k..e]
  }

  // ---------------------------------------------------------------------------
  // Integer rendering in a template literal
  // ---------------------------------------------------------------------------

  function DigitChar(d: nat): (c: char)
    requires d < 10
    ensures '0' <= c <= '9'
    ensures (c as int) - ('0' as int) == d
  {
    (('0' as int) + d) as char
  }

  predicate IsDigits(s: string) {
    forall i :: 0 <= i < |s| ==> '0' <= s[i] <= '9'
  }

  /** Decimal digits of `n`, most significant first, without leading zeros. */
  function NatToDecimal(n: nat): (r: string)
    ensures |r| >= 1 && IsDigits(r)
    ensures |r| > 1 ==> r[0] != '0'
    decreases n
  {
    if n < 10 then [DigitChar(n)] else NatToDecimal(n / 10) + [DigitChar(n % 10)]
  }

  /** `${n}` for an integer-valued number: a minus sign for negatives. */
  function IntToDecimal(n: int): (r: string)
    ensures |r| >= 1 && '\n' !in r
    ensures n >= 0 <==> IsDigits(r)
  {
    if n < 0 then
      var r := "-" + NatToDecimal(-n);
      assert r[0] == '-';
      r
    else NatToDecimal(n)
  }

  /** The rendering denotes the number in canonical form: its digits read back
      as `n`, after a minus sign when `n` is negative, with no leading zero. */
  lemma IntToDecimalValue(n: int)
    ensures var r := IntToDecimal(n);
      && (n >= 0 ==> DecimalValue(r) == n)
      && (n < 0 ==> r[0] == '-' && IsDigits(r[1..]) && DecimalValue(r[1..]) == -n)
      && (n >= 0 && |r| > 1 ==> r[0] != '0')
      && (n < 0 && |r| > 2 ==> r[1] != '0')
  {
    var r := IntToDecimal(n);
    if n < 0 {
      var d := NatToDecimal(-n);
      NegativeRendering(n);
      DecimalRoundTrip(-n);
      assert r[1..] == d;
      assert |r| > 2 ==> r[1] == d[0];
    } else {
      assert r == NatToDecimal(n);
      DecimalRoundTrip(n);
    }
  }

  /** A negative number renders as a minus sign before the digits of its
      magnitude. */
  lemma NegativeRendering(n: int)
    requires n < 0
    ensures var r := IntToDecimal(n);
      r[0] == '-' && r[1..] == NatToDecimal(-n) && |r| == |NatToDecimal(-n)| + 1
  {
    var d := NatToDecimal(-n);
    assert IntToDecimal(n) == "-" + d;
    assert ("-" + d)[1..] == d;
  }

  /** The value a string of decimal digits denotes. */
  function DecimalValue(s: string): nat
    requires IsDigits(s)
    decreases |s|
  {
    if |s| == 0 then 0
    else DecimalValue(s[..|s| - 1]) * 10 + ((s[|s| - 1] as int) - ('0' as int))
  }

  /** Rendering a natural number and reading the digits back gives it again. */
  lemma {:induction false} DecimalRoundTrip(n: nat)
    ensures DecimalValue(NatToDecimal(n)) == n
    decreases n
  {
    if n >= 10 {
      DecimalRoundTrip(n / 10);
      var r := NatToDecimal(n);
      assert r[..|r| - 1] == NatToDecimal(n / 10);
    }
  }
}
