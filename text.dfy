/**
 * Character- and string-level helpers used by both the TypeScript service and
 * the Python conversion scripts: whitespace, trimming, splitting on a
 * separator, `indexOf`, and decimal conversion of integers (`String(i)`,
 * `str(i)` and `parseInt`).
 */
module Text {
  import opened Wrappers
  import opened Seqs

  /**
   * Whitespace: the characters that both JavaScript's `String.prototype.trim`
   * and Python's `str.strip()` / regex `\s` remove or match.
   */
  predicate IsSpace(c: char) {
    || c == ' ' || c == '\t' || c == '\n' || c == '\r' || c == '\U{000B}' || c == '\U{000C}'
    || c == '\U{00A0}' || c == '\U{1680}' || ('\U{2000}' <= c <= '\U{200A}')
    || c == '\U{2028}' || c == '\U{2029}' || c == '\U{202F}' || c == '\U{205F}' || c == '\U{3000}'
  }

  predicate AllSpace(s: string) {
    forall i :: 0 <= i < |s| ==> IsSpace(s[i])
  }

  predicate HasNoSpace(s: string) {
    forall i :: 0 <= i < |s| ==> !IsSpace(s[i])
  }

  /** Neither end of `s` is whitespace. */
  predicate IsTrimmed(s: string) {
    s == [] || (!IsSpace(s[0]) && !IsSpace(s[|s| - 1]))
  }

  /** The number of leading whitespace characters of `s`. */
  function LeadingSpace(s: string): (n: nat)
    ensures n <= |s|
    ensures forall j :: 0 <= j < n ==> IsSpace(s[j])
    ensures n == |s| || !IsSpace(s[n])
  {
    if s == [] || !IsSpace(s[0]) then 0 else 1 + LeadingSpace(s[1..])
  }

  /** The length of `s` without its trailing whitespace. */
  function TrailingSpaceStart(s: string): (m: nat)
    ensures m <= |s|
    ensures forall j :: m <= j < |s| ==> IsSpace(s[j])
    ensures m == 0 || !IsSpace(s[m - 1])
  {
    if s == [] || !IsSpace(s[|s| - 1]) then |s| else TrailingSpaceStart(s[..|s| - 1])
  }

  /** Leading whitespace removed. */
  function TrimStart(s: string): (r: string)
    ensures r == [] || !IsSpace(r[0])
  {
    s[LeadingSpace(s)..]
  }

  /** Trailing whitespace removed. */
  function TrimEnd(s: string): (r: string)
    ensures r == [] || !IsSpace(r[|r| - 1])
  {
    s[..TrailingSpaceStart(s)]
  }

  /** JavaScript `s.trim()`, equally Python `s.strip()`. */
  function Trim(s: string): (r: string)
    ensures IsTrimmed(r)
    ensures |r| <= |s|
  {
    TrimEnd(TrimStart(s))
  }

  /** `Trim(s)` is the slice of `s` between its leading and its trailing whitespace. */
  lemma TrimSlice(s: string) returns (a: nat)
    ensures a + |Trim(s)| <= |s|
    ensures Trim(s) == s[a..a + |Trim(s)|]
    ensures forall j :: 0 <= j < a ==> IsSpace(s[j])
    ensures forall j :: a + |Trim(s)| <= j < |s| ==> IsSpace(s[j])
  {
    a := LeadingSpace(s);
    var t := s[a..];
    var m := TrailingSpaceStart(t);
    assert Trim(s) == t[..m];
    assert forall j :: a + m <= j < |s| ==> s[j] == t[j - a];
  }

  /** Trimming only removes characters: a character absent from `s` is absent from `Trim(s)`. */
  lemma TrimKeepsAbsent(s: string, c: char)
    requires c !in s
    ensures c !in Trim(s)
  {
    var a := TrimSlice(s);
    var t := Trim(s);
    assert forall j :: 0 <= j < |t| ==> t[j] == s[a + j];
  }

  /** Whitespace-only text trims to the empty string, and only such text does. */
  lemma TrimEmpty(s: string)
    ensures Trim(s) == [] <==> AllSpace(s)
  {
    var a := TrimSlice(s);
    if Trim(s) != [] {
      assert !IsSpace(s[a]);
    }
  }

  lemma TrimmedIsFixed(s: string)
    requires IsTrimmed(s)
    ensures Trim(s) == s
  {
    assert LeadingSpace(s) == 0;
    assert TrailingSpaceStart(s) == |s|;
  }

  lemma {:induction false} LeadingSpaceAppend(a: string, b: string)
    requires !AllSpace(a)
    ensures LeadingSpace(a + b) == LeadingSpace(a)
    ensures TrimStart(a + b) == TrimStart(a) + b
    decreases |a|
  {
    if IsSpace(a[0]) {
      AppendTail(a, b);
      assert !AllSpace(a[1..]) by {
        var j :| 0 <= j < |a| && !IsSpace(a[j]);
        assert j > 0 && a[1..][j - 1] == a[j];
      }
      LeadingSpaceAppend(a[1..], b);
    }
  }

  lemma {:induction false} TrailingSpaceAppendSpace(a: string, b: string)
    requires AllSpace(b)
    ensures TrimEnd(a + b) == TrimEnd(a)
    decreases |b|
  {
    if b == [] {
      assert a + b == a;
    } else {
      AppendInit(a, b);
      TrailingSpaceAppendSpace(a, b[..|b| - 1]);
    }
  }

  lemma {:induction false} TrailingSpaceAppend(a: string, b: string)
    requires !AllSpace(b)
    ensures TrimEnd(a + b) == a + TrimEnd(b)
    decreases |b|
  {
    if IsSpace(b[|b| - 1]) {
      AppendInit(a, b);
      assert !AllSpace(b[..|b| - 1]) by {
        var j :| 0 <= j < |b| && !IsSpace(b[j]);
        assert j < |b| - 1 && b[..|b| - 1][j] == b[j];
      }
      TrailingSpaceAppend(a, b[..|b| - 1]);
    } else {
      assert TrailingSpaceStart(a + b) == |a + b|;
    }
  }

  /** A single trailing whitespace character after non-blank text is all that trimming the end removes. */
  lemma TrimEndLast(a: string, c: char)
    requires a != [] && !IsSpace(a[|a| - 1]) && IsSpace(c)
    ensures TrimEnd(a + [c]) == a
  {
    AppendInit(a, [c]);
    assert TrailingSpaceStart(a) == |a|;
  }

  /** Python `s.rstrip('\n\r')`: trailing line-feed and carriage-return characters removed. */
  function RStripNewlines(s: string): (r: string)
    ensures |r| <= |s| && r == s[..|r|]
    ensures forall i :: |r| <= i < |s| ==> s[i] == '\n' || s[i] == '\r'
    ensures r == [] || (r[|r| - 1] != '\n' && r[|r| - 1] != '\r')
  {
    if s != [] && (s[|s| - 1] == '\n' || s[|s| - 1] == '\r') then RStripNewlines(s[..|s| - 1]) else s
  }

  /** `s.indexOf(c)`: the first position of `c`, or -1 when it does not occur. */
  function IndexOf(s: string, c: char): (k: int)
    ensures -1 <= k < |s|
    ensures k == -1 <==> c !in s
    ensures 0 <= k ==> s[k] == c && forall j :: 0 <= j < k ==> s[j] != c
  {
    if s == [] then -1
    else if s[0] == c then 0
    else
      var k := IndexOf(s[1..], c);
      if k < 0 then -1 else k + 1
  }

  /** The first occurrence of `c` is at `k` exactly when `s[k]` is `c` and no earlier character is. */
  lemma IndexOfAt(s: string, c: char, k: nat)
    requires k < |s| && s[k] == c
    requires forall j :: 0 <= j < k ==> s[j] != c
    ensures IndexOf(s, c) == k
  {
  }

  /** A separator placed right after separator-free text is found right there. */
  lemma IndexOfAfter(a: string, c: char, b: string)
    requires c !in a
    ensures IndexOf(a + [c] + b, c) == |a|
  {
    var s := a + [c] + b;
    assert forall j :: 0 <= j < |a| ==> s[j] == a[j];
    IndexOfAt(s, c, |a|);
  }

  /** `parts.join(d)` with a one-character separator. */
  function Join(parts: seq<string>, d: char): string
    decreases |parts|
  {
    if |parts| == 0 then ""
    else if |parts| == 1 then parts[0]
    else parts[0] + [d] + Join(parts[1..], d)
  }

  lemma JoinCons(p: string, rest: seq<string>, d: char)
    requires rest != []
    ensures Join([p] + rest, d) == p + [d] + Join(rest, d)
  {
    AppendTail([p], rest);
  }

  /** JavaScript `s.split(d)` for a one-character separator `d`. */
  function Split(s: string, d: char): (r: seq<string>)
    ensures |r| >= 1
    decreases |s|
  {
    var k := IndexOf(s, d);
    if k < 0 then [s] else [s[..k]] + Split(s[k + 1..], d)
  }

  /** Text without the separator is a single piece. */
  lemma SplitNoSeparator(s: string, d: char)
    requires d !in s
    ensures Split(s, d) == [s]
  {
  }

  /** Splitting `a + d + b`, where `a` has no separator, gives `a` and then the pieces of `b`. */
  lemma SplitCons(a: string, d: char, b: string)
    requires d !in a
    ensures Split(a + [d] + b, d) == [a] + Split(b, d)
  {
    IndexOfAfter(a, d, b);
    AroundElement(a, d, b);
  }

  /** Joining the pieces of a split gives back the original text. */
  lemma {:induction false} JoinSplit(s: string, d: char)
    ensures Join(Split(s, d), d) == s
    decreases |s|
  {
    var k := IndexOf(s, d);
    if k >= 0 {
      JoinSplit(s[k + 1..], d);
      JoinCons(s[..k], Split(s[k + 1..], d), d);
      SplitAt(s, k);
    }
  }

  /** No piece of a split contains the separator. */
  lemma {:induction false} SplitPieces(s: string, d: char)
    ensures forall i :: 0 <= i < |Split(s, d)| ==> d !in Split(s, d)[i]
    decreases |s|
  {
    var k := IndexOf(s, d);
    if k >= 0 {
      SplitPieces(s[k + 1..], d);
      assert d !in s[..k];
    }
  }

  /** Splitting undoes joining whenever no part contains the separator. */
  lemma {:induction false} SplitJoin(parts: seq<string>, d: char)
    requires |parts| >= 1
    requires forall i :: 0 <= i < |parts| ==> d !in parts[i]
    ensures Split(Join(parts, d), d) == parts
    decreases |parts|
  {
    if |parts| > 1 {
      var rest := parts[1..];
      SplitCons(parts[0], d, Join(rest, d));
      SplitJoin(rest, d);
      SplitFirst(parts);
    } else {
      SplitNoSeparator(parts[0], d);
    }
  }

  /** Number of occurrences of `d` in `s`. */
  function Count(s: string, d: char): nat {
    if s == [] then 0 else (if s[0] == d then 1 else 0) + Count(s[1..], d)
  }

  lemma {:induction false} CountAppend(a: string, b: string, d: char)
    ensures Count(a + b, d) == Count(a, d) + Count(b, d)
    decreases |a|
  {
    if a != [] {
      AppendTail(a, b);
      CountAppend(a[1..], b, d);
    } else {
      assert a + b == b;
    }
  }

  /** `s.split(d)` has one more piece than `s` has separators. */
  lemma {:induction false} SplitLength(s: string, d: char)
    ensures |Split(s, d)| == Count(s, d) + 1
    decreases |s|
  {
    var k := IndexOf(s, d);
    if k < 0 {
      CountAbsent(s, d);
    } else {
      SplitAt(s, k);
      CountAppend(s[..k], [d] + s[k + 1..], d);
      CountAppend([d], s[k + 1..], d);
      CountAbsent(s[..k], d);
      SplitLength(s[k + 1..], d);
    }
  }

  lemma {:induction false} CountAbsent(s: string, d: char)
    requires d !in s
    ensures Count(s, d) == 0
    decreases |s|
  {
    if s != [] {
      assert d !in s[1..];
      CountAbsent(s[1..], d);
    }
  }

  /** A slice of `s` has no more separators than `s` itself. */
  lemma SliceCount(s: string, a: nat, b: nat, d: char)
    requires a <= b <= |s|
    ensures Count(s[a..b], d) <= Count(s, d)
  {
    SplitThree(s, a, b);
    CountAppend(s[..a], s[a..b] + s[b..], d);
    CountAppend(s[a..b], s[b..], d);
  }

  /** Trimming never adds separators. */
  lemma TrimCount(s: string, d: char)
    ensures Count(Trim(s), d) <= Count(s, d)
  {
    var a := TrimSlice(s);
    SliceCount(s, a, a + |Trim(s)|, d);
  }

  // ---- Decimal integers -------------------------------------------------

  predicate IsDigit(c: char) {
    '0' <= c <= '9'
  }

  function DigitChar(d: nat): (c: char)
    requires d < 10
    ensures IsDigit(c) && DigitValue(c) == d
  {
    "0123456789"[d]
  }

  function DigitValue(c: char): nat
    requires IsDigit(c)
  {
    (c as int - '0' as int) as nat
  }

  /** The decimal digits of `n`, most significant first, with no leading zeros. */
  function NatToString(n: nat): (s: string)
    ensures |s| >= 1
    ensures forall i :: 0 <= i < |s| ==> IsDigit(s[i])
  {
    if n < 10 then [DigitChar(n)] else NatToString(n / 10) + [DigitChar(n % 10)]
  }

  /** JavaScript `String(i)` and Python `str(i)` for an integer `i`. */
  function IntToString(i: int): (s: string)
    ensures s != [] && (s[0] == '-' || IsDigit(s[0]))
  {
    if i < 0 then "-" + NatToString(-i) else NatToString(i)
  }

  /** The value of a string of decimal digits. */
  function DigitsValue(s: string): nat
    requires forall i :: 0 <= i < |s| ==> IsDigit(s[i])
  {
    if s == [] then 0 else DigitsValue(s[..|s| - 1]) * 10 + DigitValue(s[|s| - 1])
  }

  lemma {:induction false} NatToStringValue(n: nat)
    ensures DigitsValue(NatToString(n)) == n
  {
    if n >= 10 {
      var s := NatToString(n);
      assert s[..|s| - 1] == NatToString(n / 10);
      NatToStringValue(n / 10);
    }
  }

  /** The longest prefix of `s` made of decimal digits. */
  function DigitPrefix(s: string): (r: string)
    ensures |r| <= |s| && r == s[..|r|]
    ensures forall i :: 0 <= i < |r| ==> IsDigit(r[i])
    ensures |r| == |s| || !IsDigit(s[|r|])
  {
    if s != [] && IsDigit(s[0]) then [s[0]] + DigitPrefix(s[1..]) else []
  }

  /**
   * JavaScript `parseInt(s)` without a radix, for decimal text: leading
   * whitespace is skipped, one sign is accepted, the longest run of digits is
   * read and the rest ignored; `None` stands for `NaN`.
   */
  function ParseInt(s: string): (r: Option<int>)
    ensures r.None? <==> DigitPrefix(SkipSign(TrimStart(s))) == []
  {
    var t := TrimStart(s);
    var ds := DigitPrefix(SkipSign(t));
    var v: int := if ds == [] then 0 else DigitsValue(ds);
    if ds == [] then None
    else if t[0] == '-' then Some(-v)
    else Some(v)
  }

  function SkipSign(t: string): string {
    if t != [] && (t[0] == '-' || t[0] == '+') then t[1..] else t
  }

  lemma AllDigitsPrefix(s: string)
    requires forall i :: 0 <= i < |s| ==> IsDigit(s[i])
    ensures DigitPrefix(s) == s
  {
  }

  /** `parseInt(String(i)) === i` for every integer `i`. */
  lemma ParseIntRoundTrip(i: int)
    ensures ParseInt(IntToString(i)) == Some(i)
  {
    var s := IntToString(i);
    var n: nat := if i < 0 then -i else i;
    var digits := NatToString(n);
    assert !IsSpace(s[0]);
    assert TrimStart(s) == s;
    assert SkipSign(s) == digits;
    AllDigitsPrefix(digits);
    NatToStringValue(n);
  }
}
