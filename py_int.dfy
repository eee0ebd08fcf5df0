/**
 * Python's `int(value)` on the JSON values a request body can carry, base ten:
 * an integer is itself, a boolean is 0 or 1, a string may hold surrounding
 * whitespace, one optional sign and at least one decimal digit; null, lists
 * and objects make int() raise TypeError instead of ValueError.
 */
module PyInt {
  import opened Wrappers

  /** A JSON value as the decoded request body holds it. */
  datatype Value =
    | Int(i: int)
    | Bool(b: bool)
    | Text(s: string)
    | Other // null, a list or an object

  /** The two exceptions int() raises. */
  datatype IntError = ValueError | TypeError

  /**
   * The ASCII characters int() of a unicode string skips as whitespace: tab,
   * LF, VT, FF, CR, the four separators U+001C to U+001F, and space.
   */
  predicate IsSpace(c: char) {
    c == ' ' || '\t' <= c <= '\r' || '\U{1C}' <= c <= '\U{1F}'
  }

  predicate IsDigit(c: char) {
    '0' <= c <= '9'
  }

  predicate AllDigits(s: string) {
    forall i :: 0 <= i < |s| ==> IsDigit(s[i])
  }

  /** The first index from `i` on that does not hold whitespace (or |s|). */
  function SpacesFrom(s: string, i: nat): (r: nat)
    requires i <= |s|
    ensures i <= r <= |s|
    decreases |s| - i
  {
    if i < |s| && IsSpace(s[i]) then SpacesFrom(s, i + 1) else i
  }

  /** The end of `s[..j]` once its trailing whitespace is gone. */
  function SpacesUntil(s: string, j: nat): (r: nat)
    requires j <= |s|
    ensures r <= j
  {
    if j > 0 && IsSpace(s[j - 1]) then SpacesUntil(s, j - 1) else j
  }

  /** `s.strip()`: `s` without leading and trailing whitespace. */
  function Trim(s: string): string {
    var lo := SpacesFrom(s, 0);
    var hi := SpacesUntil(s, |s|);
    if hi <= lo then [] else s[lo..hi]
  }

  /** The number a run of decimal digits denotes, leading zeros allowed. */
  function DigitsValue(d: string): nat
    requires AllDigits(d)
  {
    if d == [] then 0
    else DigitsValue(d[..|d| - 1]) * 10 + (d[|d| - 1] as int - '0' as int)
  }

  /** int(s) for a string: None where Python raises ValueError. */
  function ParseInt(s: string): Option<int> {
    ParseTrimmed(Trim(s))
  }

  /** One optional sign, then at least one digit. */
  function ParseTrimmed(t: string): Option<int> {
    var negative := t != [] && t[0] == '-';
    var digits := if t != [] && (t[0] == '-' || t[0] == '+') then t[1..] else t;
    if digits != [] && AllDigits(digits) then
      Some(if negative then 0 - DigitsValue(digits) else DigitsValue(digits))
    else None
  }

  function ToInt(v: Value): Result<int, IntError> {
    match v
    case Int(i) => Ok(i)
    case Bool(b) => Ok(if b then 1 else 0)
    case Text(s) => if ParseInt(s).Some? then Ok(ParseInt(s).value) else Err(ValueError)
    case Other => Err(TypeError)
  }

  function DigitChar(d: nat): char
    requires d < 10
  {
    ('0' as int + d) as char
  }

  /** str(n) for a natural number. */
  function ShowNat(n: nat): string {
    if n < 10 then [DigitChar(n)] else ShowNat(n / 10) + [DigitChar(n % 10)]
  }

  /** str(n): the decimal form Python prints, a minus sign before negatives. */
  function Show(n: int): string {
    if n < 0 then "-" + ShowNat(-n) else ShowNat(n)
  }

  /** The decimal digits of n read back as n. */
  lemma {:induction false} ShowNatDigits(n: nat)
    ensures var d := ShowNat(n);
      d != [] && AllDigits(d) && DigitsValue(d) == n
  {
    if n >= 10 {
      ShowNatDigits(n / 10);
      var d := ShowNat(n);
      assert d[..|d| - 1] == ShowNat(n / 10);
    }
  }

  /** int(str(n)) == n for every integer. */
  lemma ToIntShow(n: int)
    ensures ToInt(Text(Show(n))) == Ok(n)
  {
    var m := if n < 0 then -n else n;
    ShowNatDigits(m);
    ShowEdges(n);
    TrimNoEdges(Show(n));
    ParseDigits(ShowNat(m));
  }

  /** Digits alone, or after a minus sign, read as their value or its negation. */
  lemma ParseDigits(d: string)
    requires d != [] && AllDigits(d)
    ensures ParseTrimmed(d) == Some(DigitsValue(d))
    ensures ParseTrimmed("-" + d) == Some(0 - DigitsValue(d))
  {
    assert ("-" + d)[1..] == d;
  }

  lemma ShowEdges(n: int)
    ensures var s := Show(n);
      s != [] && !IsSpace(s[0]) && !IsSpace(s[|s| - 1])
  {
    var m := if n < 0 then -n else n;
    ShowNatDigits(m);
    var d := ShowNat(m);
    assert IsDigit(d[0]) && IsDigit(d[|d| - 1]);
  }

  /** A string that starts and ends with something other than whitespace is its own strip. */
  lemma TrimNoEdges(s: string)
    requires s != [] && !IsSpace(s[0]) && !IsSpace(s[|s| - 1])
    ensures Trim(s) == s
  {
    assert SpacesFrom(s, 0) == 0;
    assert SpacesUntil(s, |s|) == |s|;
  }

  /**
   * A character that is neither whitespace, a sign nor a digit anywhere in the
   * string makes int() raise ValueError.
   */
  lemma RefusesStray(s: string, i: nat)
    requires i < |s| && !IsSpace(s[i]) && !IsDigit(s[i]) && s[i] != '+' && s[i] != '-'
    ensures ToInt(Text(s)) == Err(ValueError)
  {
    var lo := SpacesFrom(s, 0);
    var hi := SpacesUntil(s, |s|);
    SpacesFromStops(s, 0);
    SpacesUntilStops(s, |s|);
    assert lo <= i < hi;
    var t := Trim(s);
    assert t[i - lo] == s[i];
    if t[0] == '-' || t[0] == '+' {
      assert i > lo && t[1..][i - lo - 1] == s[i];
    }
  }

  ghost predicate Blank(t: string) {
    forall i :: 0 <= i < |t| ==> IsSpace(t[i])
  }

  /** Whitespace before and after, as much of it on either side as there is, does not change what int() reads. */
  lemma ToIntPadded(pre: string, s: string, post: string)
    requires Blank(pre) && Blank(post)
    ensures ToInt(Text(pre + s + post)) == ToInt(Text(s))
  {
    PadTrim(pre, s, post);
    SameTrim(pre + s + post, s);
  }

  lemma SameTrim(x: string, y: string)
    requires Trim(x) == Trim(y)
    ensures ToInt(Text(x)) == ToInt(Text(y))
  {
  }

  lemma PadTrim(pre: string, s: string, post: string)
    requires Blank(pre) && Blank(post)
    ensures Trim(pre + s + post) == Trim(s)
  {
    var u := pre + s + post;
    assert Padded(pre, s, post, u);
    if SpacesUntil(s, |s|) <= SpacesFrom(s, 0) {
      PadBlank(pre, s, post, u);
    } else {
      PadInner(pre, s, post);
    }
  }

  /** `u` is `s` with `pre` before it and `post` after it, stated index by index. */
  ghost predicate Padded(pre: string, s: string, post: string, u: string) {
    && |u| == |pre| + |s| + |post|
    && (forall k :: 0 <= k < |pre| ==> u[k] == pre[k])
    && (forall k :: 0 <= k < |s| ==> u[|pre| + k] == s[k])
    && (forall k :: 0 <= k < |post| ==> u[|pre| + |s| + k] == post[k])
  }

  /** Whitespace around whitespace strips to nothing, as `s` alone does. */
  lemma PadBlank(pre: string, s: string, post: string, u: string)
    requires Blank(pre) && Blank(post)
    requires Padded(pre, s, post, u) && SpacesUntil(s, |s|) <= SpacesFrom(s, 0)
    ensures Trim(u) == [] && Trim(s) == []
  {
    var lo := SpacesFrom(s, 0);
    SpacesFromStops(s, 0);
    SpacesUntilStops(s, |s|);
    if lo < |s| {
      assert false;
    }
    forall k | 0 <= k < |u| ensures IsSpace(u[k]) {
      if k < |pre| {
        assert u[k] == pre[k];
      } else if k < |pre| + |s| {
        assert u[|pre| + (k - |pre|)] == s[k - |pre|];
      } else {
        assert u[|pre| + |s| + (k - |pre| - |s|)] == post[k - |pre| - |s|];
      }
    }
    SpacesFromUnique(u, 0, |u|);
  }

  /** Around a string with something to keep, the padding goes and the rest stays. */
  lemma PadInner(pre: string, s: string, post: string)
    requires Blank(pre) && Blank(post)
    requires SpacesFrom(s, 0) < SpacesUntil(s, |s|)
    ensures Trim(pre + s + post) == Trim(s)
  {
    var lo := SpacesFrom(s, 0);
    var hi := SpacesUntil(s, |s|);
    PaddedStart(pre, s, post);
    PaddedEnd(pre, s, post);
    PaddedTrim(pre, s, post, lo, hi);
  }

  lemma PaddedStart(pre: string, s: string, post: string)
    requires Blank(pre)
    requires SpacesFrom(s, 0) < |s|
    ensures SpacesFrom(pre + s + post, 0) == |pre| + SpacesFrom(s, 0)
  {
    var u := pre + s + post;
    assert Padded(pre, s, post, u);
    var lo := SpacesFrom(s, 0);
    SpacesFromStops(s, 0);
    assert u[|pre| + lo] == s[lo];
    forall j | 0 <= j < |pre| + lo ensures IsSpace(u[j]) {
      if j < |pre| {
        assert u[j] == pre[j];
      } else {
        assert u[|pre| + (j - |pre|)] == s[j - |pre|];
      }
    }
    SpacesFromUnique(u, 0, |pre| + lo);
  }

  lemma PaddedEnd(pre: string, s: string, post: string)
    requires Blank(post)
    requires 0 < SpacesUntil(s, |s|)
    ensures SpacesUntil(pre + s + post, |pre + s + post|) == |pre| + SpacesUntil(s, |s|)
  {
    var u := pre + s + post;
    assert Padded(pre, s, post, u);
    var hi := SpacesUntil(s, |s|);
    SpacesUntilStops(s, |s|);
    assert u[|pre| + (hi - 1)] == s[hi - 1];
    forall k | |pre| + hi <= k < |u| ensures IsSpace(u[k]) {
      if k < |pre| + |s| {
        assert u[|pre| + (k - |pre|)] == s[k - |pre|];
      } else {
        assert u[|pre| + |s| + (k - |pre| - |s|)] == post[k - |pre| - |s|];
      }
    }
    SpacesUntilUnique(u, |u|, |pre| + hi);
  }

  /** With the bounds of both strips known, the padded strip is the plain one. */
  lemma PaddedTrim(pre: string, s: string, post: string, lo: nat, hi: nat)
    requires lo < hi <= |s|
    requires SpacesFrom(s, 0) == lo && SpacesUntil(s, |s|) == hi
    requires SpacesFrom(pre + s + post, 0) == |pre| + lo
    requires SpacesUntil(pre + s + post, |pre + s + post|) == |pre| + hi
    ensures Trim(pre + s + post) == Trim(s)
  {
    TrimIs(pre + s + post, |pre| + lo, |pre| + hi);
    TrimIs(s, lo, hi);
    PaddedSlice(pre, s, post, lo, hi);
  }

  lemma TrimIs(u: string, lo: nat, hi: nat)
    requires lo < hi <= |u| && SpacesFrom(u, 0) == lo && SpacesUntil(u, |u|) == hi
    ensures Trim(u) == u[lo..hi]
  {
  }

  lemma PaddedSlice(pre: string, s: string, post: string, lo: nat, hi: nat)
    requires lo <= hi <= |s|
    ensures (pre + s + post)[|pre| + lo..|pre| + hi] == s[lo..hi]
  {
    var u := pre + s + post;
    assert Padded(pre, s, post, u);
    ShiftedSlice(u, s, |pre|, lo, hi);
  }

  lemma ShiftedSlice(u: string, s: string, off: nat, lo: nat, hi: nat)
    requires lo <= hi <= |s| && off + |s| <= |u|
    requires forall k :: 0 <= k < |s| ==> u[off + k] == s[k]
    ensures u[off + lo..off + hi] == s[lo..hi]
  {
    forall k | 0 <= k < hi - lo ensures u[off + lo..off + hi][k] == s[lo..hi][k] {
      assert u[off + (lo + k)] == s[lo + k];
    }
  }

  /** SpacesFrom skips whitespace only, and stops at the first other character. */
  lemma {:induction false} SpacesFromStops(s: string, i: nat)
    requires i <= |s|
    ensures var r := SpacesFrom(s, i);
      (r < |s| ==> !IsSpace(s[r])) && forall j :: i <= j < r ==> IsSpace(s[j])
    decreases |s| - i
  {
    if i < |s| && IsSpace(s[i]) {
      SpacesFromStops(s, i + 1);
    }
  }

  /** SpacesUntil drops whitespace only, and stops after the last other character. */
  lemma {:induction false} SpacesUntilStops(s: string, j: nat)
    requires j <= |s|
    ensures var r := SpacesUntil(s, j);
      (r > 0 ==> !IsSpace(s[r - 1])) && forall k :: r <= k < j ==> IsSpace(s[k])
  {
    if j > 0 && IsSpace(s[j - 1]) {
      SpacesUntilStops(s, j - 1);
    }
  }

  lemma {:induction false} SpacesFromUnique(s: string, i: nat, r: nat)
    requires i <= r <= |s| && (r < |s| ==> !IsSpace(s[r]))
    requires forall j :: i <= j < r ==> IsSpace(s[j])
    ensures SpacesFrom(s, i) == r
    decreases r - i
  {
    if i < r {
      assert IsSpace(s[i]);
      SpacesFromUnique(s, i + 1, r);
    }
  }

  lemma {:induction false} SpacesUntilUnique(s: string, j: nat, r: nat)
    requires r <= j <= |s| && (r > 0 ==> !IsSpace(s[r - 1]))
    requires forall k :: r <= k < j ==> IsSpace(s[k])
    ensures SpacesUntil(s, j) == r
  {
    if r < j {
      assert IsSpace(s[j - 1]);
      SpacesUntilUnique(s, j - 1, r);
    }
  }
}
