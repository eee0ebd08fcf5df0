/**
 * The `rbd://fsid/pool/image/snapshot` storage-location URL (RBDDriver.parse_url).
 *
 * The remainder after the scheme prefix is split on '/' first and each piece is
 * then percent-decoded, so an escaped slash ("%2F") stays inside its component.
 */
module RbdLocation {
  import opened Wrappers

  const Prefix: string := "rbd://"

  /** The four components of a parsed location, already percent-decoded. */
  datatype Location = Location(fsid: string, pool: string, image: string, snapshot: string)

  /** The three reasons ImageUnacceptable is raised with by parse_url. */
  datatype Rejection = NotStoredInRbd | BlankComponents | NotAnRbdSnapshot

  predicate HasPrefix(s: string, p: string) {
    |p| <= |s| && s[..|p|] == p
  }

  function Count(s: string, c: char): nat {
    if s == [] then 0 else (if s[0] == c then 1 else 0) + Count(s[1..], c)
  }

  /** Python's `s.split(sep)`: the pieces between separators, never an empty list. */
  function Split(s: string, sep: char): (parts: seq<string>)
    ensures |parts| >= 1
    ensures forall i :: 0 <= i < |parts| ==> sep !in parts[i]
  {
    if s == [] then [""]
    else if s[0] == sep then [""] + Split(s[1..], sep)
    else
      var rest := Split(s[1..], sep);
      [[s[0]] + rest[0]] + rest[1..]
  }

  /** `s.split(sep)` has one more piece than `s` has separators. */
  lemma {:induction false} SplitCount(s: string, sep: char)
    ensures |Split(s, sep)| == Count(s, sep) + 1
  {
    if s != [] {
      SplitCount(s[1..], sep);
    }
  }

  lemma {:induction false} SplitNoSeparator(x: string, sep: char)
    requires sep !in x
    ensures Split(x, sep) == [x]
  {
    if x != [] {
      SplitNoSeparator(x[1..], sep);
      assert [x[0]] + x[1..] == x;
    }
  }

  /** A separator-free head splits off as the first piece. */
  lemma {:induction false} SplitCons(x: string, sep: char, y: string)
    requires sep !in x
    ensures Split(x + [sep] + y, sep) == [x] + Split(y, sep)
  {
    if x == [] {
      assert x + [sep] + y == [sep] + y;
      assert ([sep] + y)[1..] == y;
    } else {
      var s := x + [sep] + y;
      assert s[0] == x[0];
      assert s[1..] == x[1..] + [sep] + y;
      SplitCons(x[1..], sep, y);
      assert [x[0]] + x[1..] == x;
    }
  }

  predicate IsHex(c: char) {
    '0' <= c <= '9' || 'a' <= c <= 'f' || 'A' <= c <= 'F'
  }

  function HexValue(c: char): (v: nat)
    requires IsHex(c)
    ensures v < 16
  {
    if '0' <= c <= '9' then (c as int) - ('0' as int)
    else if 'a' <= c <= 'f' then (c as int) - ('a' as int) + 10
    else (c as int) - ('A' as int) + 10
  }

  /**
   * Python 2's `urllib.unquote`: every "%XX" with two hex digits becomes the
   * character with that code; a '%' not followed by two hex digits is kept.
   */
  function Unquote(s: string): (r: string)
    ensures |r| <= |s|
    ensures |s| > 0 ==> |r| > 0
  {
    if |s| >= 3 && s[0] == '%' && IsHex(s[1]) && IsHex(s[2]) then
      [(HexValue(s[1]) * 16 + HexValue(s[2])) as char] + Unquote(s[3..])
    else if s == [] then ""
    else [s[0]] + Unquote(s[1..])
  }

  /** Each piece percent-decoded, in order. */
  function Decode(parts: seq<string>): (ps: seq<string>)
    ensures |ps| == |parts|
    ensures forall i :: 0 <= i < |parts| ==> ps[i] == Unquote(parts[i])
  {
    if parts == [] then [] else [Unquote(parts[0])] + Decode(parts[1..])
  }

  /** The pieces parse_url inspects: split first, then decode each piece. */
  function Pieces(url: string): (ps: seq<string>)
    requires HasPrefix(url, Prefix)
    ensures |ps| == |Split(url[|Prefix|..], '/')|
  {
    Decode(Split(url[|Prefix|..], '/'))
  }

  /**
   * RBDDriver.parse_url. The missing prefix is reported first, then a blank
   * component, then a component count other than four.
   */
  function ParseUrl(url: string): (r: Result<Location, Rejection>)
    ensures r == Err(NotStoredInRbd) <==> !HasPrefix(url, Prefix)
    ensures r == Err(BlankComponents) <==>
              HasPrefix(url, Prefix) && exists i :: 0 <= i < |Pieces(url)| && Pieces(url)[i] == ""
    ensures r.Ok? ==>
              && HasPrefix(url, Prefix)
              && Pieces(url) == [r.value.fsid, r.value.pool, r.value.image, r.value.snapshot]
              && r.value.fsid != "" && r.value.pool != "" && r.value.image != "" && r.value.snapshot != ""
  {
    if !HasPrefix(url, Prefix) then Err(NotStoredInRbd)
    else
      var ps := Pieces(url);
      if "" in ps then Err(BlankComponents)
      else if |ps| != 4 then Err(NotAnRbdSnapshot)
      else Ok(Location(ps[0], ps[1], ps[2], ps[3]))
  }

  /**
   * The component-count rule stated on the raw URL: with the prefix present and
   * no blank component, the location is accepted exactly when the remainder
   * holds three slashes.
   */
  lemma ParseUrlSlashCount(url: string)
    requires HasPrefix(url, Prefix)
    requires forall i :: 0 <= i < |Pieces(url)| ==> Pieces(url)[i] != ""
    ensures ParseUrl(url).Ok? <==> Count(url[|Prefix|..], '/') == 3
    ensures !ParseUrl(url).Ok? ==> ParseUrl(url) == Err(NotAnRbdSnapshot)
  {
    SplitCount(url[|Prefix|..], '/');
  }

  /** Percent-encodes the two characters that would disturb parsing. */
  function Quote(s: string): (r: string)
    ensures '/' !in r
    ensures |s| > 0 ==> |r| > 0
  {
    if s == [] then ""
    else if s[0] == '%' then "%25" + Quote(s[1..])
    else if s[0] == '/' then "%2F" + Quote(s[1..])
    else [s[0]] + Quote(s[1..])
  }

  lemma {:induction false} UnquoteQuote(s: string)
    ensures Unquote(Quote(s)) == s
  {
    if s != [] {
      UnquoteQuote(s[1..]);
      var q := Quote(s[1..]);
      if s[0] == '%' {
        assert ("%25" + q)[3..] == q;
      } else if s[0] == '/' {
        assert ("%2F" + q)[3..] == q;
      } else {
        assert ([s[0]] + q)[1..] == q;
      }
      assert [s[0]] + s[1..] == s;
    }
  }

  function FormatUrl(loc: Location): string {
    Prefix + Quote(loc.fsid) + "/" + Quote(loc.pool) + "/" + Quote(loc.image) + "/" + Quote(loc.snapshot)
  }

  lemma SplitFour(a: string, b: string, c: string, d: string)
    requires '/' !in a && '/' !in b && '/' !in c && '/' !in d
    ensures Split(a + "/" + b + "/" + c + "/" + d, '/') == [a, b, c, d]
  {
    SplitNoSeparator(d, '/');
    SplitPrepend(c, d, [d]);
    SplitPrepend(b, c + "/" + d, [c, d]);
    SplitPrepend(a, b + "/" + (c + "/" + d), [b, c, d]);
    JoinFour(a, b, c, d);
  }

  lemma JoinFour(a: string, b: string, c: string, d: string)
    ensures a + "/" + b + "/" + c + "/" + d == a + "/" + (b + "/" + (c + "/" + d))
  {
  }

  /** One more separator-free piece in front of a split string. */
  lemma SplitPrepend(x: string, rest: string, parts: seq<string>)
    requires '/' !in x && Split(rest, '/') == parts
    ensures Split(x + "/" + rest, '/') == [x] + parts
  {
    assert x + "/" + rest == x + ['/'] + rest;
    SplitCons(x, '/', rest);
  }

  /** A URL whose decoded pieces are four non-empty names is accepted with them. */
  lemma ParseUrlOfPieces(url: string, loc: Location)
    requires HasPrefix(url, Prefix)
    requires loc.fsid != "" && loc.pool != "" && loc.image != "" && loc.snapshot != ""
    requires Pieces(url) == [loc.fsid, loc.pool, loc.image, loc.snapshot]
    ensures ParseUrl(url) == Ok(loc)
  {
    assert "" !in Pieces(url);
  }

  lemma PiecesOfFour(url: string, a: string, b: string, c: string, d: string)
    requires HasPrefix(url, Prefix)
    requires Split(url[|Prefix|..], '/') == [a, b, c, d]
    ensures Pieces(url) == [Unquote(a), Unquote(b), Unquote(c), Unquote(d)]
  {
    DecodeFour(a, b, c, d);
  }

  lemma DecodeFour(a: string, b: string, c: string, d: string)
    ensures Decode([a, b, c, d]) == [Unquote(a), Unquote(b), Unquote(c), Unquote(d)]
  {
    var ps := Decode([a, b, c, d]);
    assert |ps| == 4;
    assert ps[0] == Unquote(a) && ps[1] == Unquote(b) && ps[2] == Unquote(c) && ps[3] == Unquote(d);
  }

  lemma FormatUrlParts(loc: Location)
    ensures HasPrefix(FormatUrl(loc), Prefix)
    ensures FormatUrl(loc)[|Prefix|..] ==
              Quote(loc.fsid) + "/" + Quote(loc.pool) + "/" + Quote(loc.image) + "/" + Quote(loc.snapshot)
  {
    var rest := Quote(loc.fsid) + "/" + Quote(loc.pool) + "/" + Quote(loc.image) + "/" + Quote(loc.snapshot);
    assert FormatUrl(loc) == Prefix + rest;
  }

  /**
   * Round trip: any location with four non-empty components, written with its
   * components percent-encoded, parses back to itself, slashes and percent
   * signs inside the names included.
   */
  lemma ParseFormatUrl(loc: Location)
    requires loc.fsid != "" && loc.pool != "" && loc.image != "" && loc.snapshot != ""
    ensures ParseUrl(FormatUrl(loc)) == Ok(loc)
  {
    var a, b, c, d := Quote(loc.fsid), Quote(loc.pool), Quote(loc.image), Quote(loc.snapshot);
    var url := FormatUrl(loc);
    FormatUrlParts(loc);
    SplitFour(a, b, c, d);
    PiecesOfFour(url, a, b, c, d);
    UnquoteQuote(loc.fsid);
    UnquoteQuote(loc.pool);
    UnquoteQuote(loc.image);
    UnquoteQuote(loc.snapshot);
    ParseUrlOfPieces(url, loc);
  }
}
