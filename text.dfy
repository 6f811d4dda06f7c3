/**
 * The string operations the package uses from Go's standard library:
 * strings.Split and strings.Join with a one-character separator, the
 * "last segment" idiom `lst[len(lst)-1]` built on them, and strconv.Itoa.
 * Go strings are modelled as `seq<char>`.
 */
module Text {
  import opened Wrappers

  /** `suffix` is a suffix of `s`. */
  predicate IsSuffix(suffix: string, s: string) {
    |suffix| <= |s| && s[|s| - |suffix|..] == suffix
  }

  /** The position of the first `c` in `s` at or after `from`, or -1 when there is none (strings.IndexByte). */
  function FindFrom(s: string, c: char, from: nat): (i: int)
    requires from <= |s|
    ensures i == -1 || from <= i < |s|
    ensures i >= 0 ==> s[i] == c
    ensures forall j :: from <= j < |s| && (i < 0 || j < i) ==> s[j] != c
    decreases |s| - from
  {
    if from == |s| then -1
    else if s[from] == c then from
    else FindFrom(s, c, from + 1)
  }

  /** A stretch of positions that all differ from `c` makes a slice free of `c`. */
  lemma SliceFree(s: string, c: char, lo: nat, hi: nat)
    requires lo <= hi <= |s|
    requires forall j :: lo <= j < hi ==> s[j] != c
    ensures c !in s[lo..hi]
  {
    assert forall j :: 0 <= j < hi - lo ==> s[lo..hi][j] == s[lo + j];
  }

  /** A tail of `s` is the stretch before position `i`, the character at `i`, and what follows. */
  lemma SliceAround(s: string, from: nat, i: nat)
    requires from <= i < |s|
    ensures s[from..] == s[from..i] + [s[i]] + s[i + 1..]
  {
  }

  /** Slicing past a prefix of `a + b` is slicing `b`. */
  lemma SliceAfterPrefix(a: string, b: string, lo: nat, hi: nat)
    requires lo <= hi <= |b|
    ensures (a + b)[|a| + lo..|a| + hi] == b[lo..hi]
    ensures (a + b)[|a| + lo..] == b[lo..]
  {
  }

  /** Searching the tail of `a + b` is searching `b`, shifted by `|a|`. */
  lemma FindFromShift(a: string, b: string, c: char, f: nat)
    requires f <= |b|
    ensures var i := FindFrom(b, c, f);
      FindFrom(a + b, c, |a| + f) == if i < 0 then -1 else |a| + i
  {
    var s := a + b;
    assert forall j :: 0 <= j < |b| ==> s[|a| + j] == b[j];
  }

  /**
   * The pieces of `s[from..]` between the occurrences of `sep`, as
   * strings.Split with a one-character separator: the text up to the next
   * separator is a piece and the split goes on just after that separator;
   * the text after the last separator is the final piece.
   */
  function SplitFrom(s: string, sep: char, from: nat): (r: seq<string>)
    requires from <= |s|
    ensures |r| >= 1
    decreases |s| - from
  {
    var i := FindFrom(s, sep, from);
    if i < 0 then [s[from..]]
    else [s[from..i]] + SplitFrom(s, sep, i + 1)
  }

  /** strings.Split with a one-character separator. */
  function Split(s: string, sep: char): (r: seq<string>)
    ensures |r| >= 1
  {
    SplitFrom(s, sep, 0)
  }

  /** `lst[len(lst)-1]`: the last element of a non-empty sequence. */
  function Last<T>(xs: seq<T>): T
    requires |xs| >= 1
  {
    xs[|xs| - 1]
  }

  lemma LastOfCons<T>(x: T, xs: seq<T>)
    requires |xs| >= 1
    ensures Last([x] + xs) == Last(xs)
  {
  }

  /** Joining just the last part gives that part. */
  lemma JoinLastOne(parts: seq<string>, sep: char)
    requires |parts| >= 1
    ensures Join(parts[|parts| - 1..], sep) == Last(parts)
  {
    assert parts[|parts| - 1..] == [Last(parts)];
  }

  /** The split with no separator left: one final piece. */
  lemma SplitFromLast(s: string, sep: char, from: nat)
    requires from <= |s| && FindFrom(s, sep, from) < 0
    ensures SplitFrom(s, sep, from) == [s[from..]]
  {
  }

  /** The split at the next separator: the piece before it, then the rest. */
  lemma SplitFromStep(s: string, sep: char, from: nat, i: nat)
    requires from <= |s| && FindFrom(s, sep, from) == i
    ensures SplitFrom(s, sep, from) == [s[from..i]] + SplitFrom(s, sep, i + 1)
  {
  }

  lemma PieceFreeLast(s: string, sep: char, from: nat)
    requires from <= |s| && FindFrom(s, sep, from) < 0
    ensures sep !in SplitFrom(s, sep, from)[0]
  {
    SplitFromLast(s, sep, from);
    SliceFree(s, sep, from, |s|);
    assert s[from..|s|] == s[from..];
  }

  lemma PieceFreeFirst(s: string, sep: char, from: nat, i: nat)
    requires from <= |s| && FindFrom(s, sep, from) == i
    ensures sep !in SplitFrom(s, sep, from)[0]
  {
    SplitFromStep(s, sep, from, i);
    SliceFree(s, sep, from, i);
  }

  lemma PieceFreeStep(s: string, sep: char, from: nat, i: nat, k: nat)
    requires from <= |s| && FindFrom(s, sep, from) == i
    requires 0 < k < |SplitFrom(s, sep, from)|
    requires k - 1 < |SplitFrom(s, sep, i + 1)| ==> sep !in SplitFrom(s, sep, i + 1)[k - 1]
    ensures sep !in SplitFrom(s, sep, from)[k]
  {
    SplitFromStep(s, sep, from, i);
  }

  lemma {:induction false} SplitFromPieceFree(s: string, sep: char, from: nat, k: nat)
    requires from <= |s| && k < |SplitFrom(s, sep, from)|
    ensures sep !in SplitFrom(s, sep, from)[k]
    decreases |s| - from
  {
    var i := FindFrom(s, sep, from);
    if i < 0 {
      SplitFromLast(s, sep, from);
      PieceFreeLast(s, sep, from);
    } else if k == 0 {
      PieceFreeFirst(s, sep, from, i);
    } else {
      SplitFromStep(s, sep, from, i);
      SplitFromPieceFree(s, sep, i + 1, k - 1);
      PieceFreeStep(s, sep, from, i, k);
    }
  }

  /** No piece holds the separator. */
  lemma SplitPieceFree(s: string, sep: char, k: nat)
    requires k < |Split(s, sep)|
    ensures sep !in Split(s, sep)[k]
  {
    SplitFromPieceFree(s, sep, 0, k);
  }

  /** One separator between two stretches, the first free of it, counts one more than the second. */
  lemma CountAroundSep(a: string, sep: char, t: string)
    requires sep !in a
    ensures multiset(a + [sep] + t)[sep] == multiset(t)[sep] + 1
  {
    assert multiset(a + [sep] + t) == multiset(a) + multiset{sep} + multiset(t);
    assert sep !in multiset(a);
  }

  lemma CountBase(s: string, sep: char, from: nat)
    requires from <= |s| && FindFrom(s, sep, from) < 0
    ensures |SplitFrom(s, sep, from)| == multiset(s[from..])[sep] + 1
  {
    SplitFromLast(s, sep, from);
    SliceFree(s, sep, from, |s|);
    assert s[from..|s|] == s[from..];
    assert sep !in multiset(s[from..]);
  }

  lemma CountStep(s: string, sep: char, from: nat, i: nat)
    requires from <= |s| && FindFrom(s, sep, from) == i
    requires |SplitFrom(s, sep, i + 1)| == multiset(s[i + 1..])[sep] + 1
    ensures |SplitFrom(s, sep, from)| == multiset(s[from..])[sep] + 1
  {
    SplitFromStep(s, sep, from, i);
    SliceFree(s, sep, from, i);
    SliceAround(s, from, i);
    CountAroundSep(s[from..i], sep, s[i + 1..]);
  }

  lemma {:induction false} SplitFromCount(s: string, sep: char, from: nat)
    requires from <= |s|
    ensures |SplitFrom(s, sep, from)| == multiset(s[from..])[sep] + 1
    decreases |s| - from
  {
    var i := FindFrom(s, sep, from);
    if i >= 0 {
      SplitFromCount(s, sep, i + 1);
      CountStep(s, sep, from, i);
    } else {
      CountBase(s, sep, from);
    }
  }

  /** There is one more piece than there are separators. */
  lemma SplitCount(s: string, sep: char)
    ensures |Split(s, sep)| == multiset(s)[sep] + 1
  {
    SplitFromCount(s, sep, 0);
    assert s[0..] == s;
  }

  /**
   * strings.Join: the parts with one separator between neighbours. It
   * starts with the first part, and of parts free of the separator it
   * puts exactly one separator between each two neighbours.
   */
  function Join(parts: seq<string>, sep: char): (r: string)
    ensures |parts| >= 1 ==> parts[0] <= r
    ensures (forall k :: 0 <= k < |parts| ==> sep !in parts[k]) ==>
      multiset(r)[sep] == (if |parts| == 0 then 0 else |parts| - 1)
  {
    if |parts| == 0 then ""
    else if |parts| == 1 then
      assert sep !in parts[0] ==> sep !in multiset(parts[0]);
      parts[0]
    else
      JoinCount(parts[0], sep, Join(parts[1..], sep));
      parts[0] + [sep] + Join(parts[1..], sep)
  }

  /** One separator between two stretches adds one to their separator counts. */
  lemma JoinCount(a: string, sep: char, t: string)
    ensures multiset(a + [sep] + t)[sep] == multiset(a)[sep] + 1 + multiset(t)[sep]
  {
    assert multiset(a + [sep] + t) == multiset(a) + multiset{sep} + multiset(t);
  }

  lemma JoinCons(x: string, xs: seq<string>, sep: char)
    requires |xs| >= 1
    ensures Join([x] + xs, sep) == x + [sep] + Join(xs, sep)
  {
    assert ([x] + xs)[1..] == xs;
  }

  lemma JoinSplitBase(s: string, sep: char, from: nat)
    requires from <= |s| && FindFrom(s, sep, from) < 0
    ensures Join(SplitFrom(s, sep, from), sep) == s[from..]
  {
    SplitFromLast(s, sep, from);
  }

  lemma JoinSplitStep(s: string, sep: char, from: nat, i: nat)
    requires from <= |s| && FindFrom(s, sep, from) == i
    requires Join(SplitFrom(s, sep, i + 1), sep) == s[i + 1..]
    ensures Join(SplitFrom(s, sep, from), sep) == s[from..]
  {
    SplitFromStep(s, sep, from, i);
    JoinCons(s[from..i], SplitFrom(s, sep, i + 1), sep);
    SliceAround(s, from, i);
  }

  lemma {:induction false} JoinSplitFrom(s: string, sep: char, from: nat)
    requires from <= |s|
    ensures Join(SplitFrom(s, sep, from), sep) == s[from..]
    decreases |s| - from
  {
    var i := FindFrom(s, sep, from);
    if i >= 0 {
      JoinSplitFrom(s, sep, i + 1);
      JoinSplitStep(s, sep, from, i);
    } else {
      JoinSplitBase(s, sep, from);
    }
  }

  /** Joining the pieces of a split gives back the original string. */
  lemma JoinSplit(s: string, sep: char)
    ensures Join(Split(s, sep), sep) == s
  {
    JoinSplitFrom(s, sep, 0);
    assert s[0..] == s;
  }

  lemma ShiftBase(a: string, b: string, sep: char, f: nat)
    requires f <= |b| && FindFrom(b, sep, f) < 0
    ensures SplitFrom(a + b, sep, |a| + f) == SplitFrom(b, sep, f)
  {
    FindFromShift(a, b, sep, f);
    SplitFromLast(b, sep, f);
    SplitFromLast(a + b, sep, |a| + f);
    SliceAfterPrefix(a, b, f, f);
  }

  lemma ShiftStep(a: string, b: string, sep: char, f: nat, i: nat)
    requires f <= |b| && FindFrom(b, sep, f) == i
    requires SplitFrom(a + b, sep, |a| + i + 1) == SplitFrom(b, sep, i + 1)
    ensures SplitFrom(a + b, sep, |a| + f) == SplitFrom(b, sep, f)
  {
    FindFromShift(a, b, sep, f);
    SplitFromStep(b, sep, f, i);
    SplitFromStep(a + b, sep, |a| + f, |a| + i);
    SliceAfterPrefix(a, b, f, i);
  }

  /** Splitting the tail of `a + b` is splitting `b`. */
  lemma {:induction false} SplitFromShift(a: string, b: string, sep: char, f: nat)
    requires f <= |b|
    ensures SplitFrom(a + b, sep, |a| + f) == SplitFrom(b, sep, f)
    decreases |b| - f
  {
    var i := FindFrom(b, sep, f);
    if i >= 0 {
      SplitFromShift(a, b, sep, i + 1);
      ShiftStep(a, b, sep, f, i);
    } else {
      ShiftBase(a, b, sep, f);
    }
  }

  /** A separator-free prefix followed by a separator becomes the first piece. */
  lemma SplitPrefix(p: string, sep: char, t: string)
    requires sep !in p
    ensures Split(p + [sep] + t, sep) == [p] + Split(t, sep)
  {
    var s := p + [sep] + t;
    assert forall j :: 0 <= j < |p| ==> s[j] == p[j];
    assert s[|p|] == sep;
    assert FindFrom(s, sep, 0) == |p|;
    assert s[..|p|] == p;
    assert s == (p + [sep]) + t;
    SplitFromShift(p + [sep], t, sep, 0);
  }

  /** Splitting a join of separator-free parts gives back the parts. */
  lemma {:induction false} SplitJoin(parts: seq<string>, sep: char)
    requires |parts| >= 1
    requires forall i :: 0 <= i < |parts| ==> sep !in parts[i]
    ensures Split(Join(parts, sep), sep) == parts
  {
    if |parts| == 1 {
      assert sep !in parts[0];
      assert FindFrom(parts[0], sep, 0) < 0;
      assert parts[0][0..] == parts[0];
    } else {
      SplitJoin(parts[1..], sep);
      SplitPrefix(parts[0], sep, Join(parts[1..], sep));
      assert [parts[0]] + parts[1..] == parts;
    }
  }

  /** The position of the last `c` among the first `n` characters of `s`, or -1 when there is none. */
  function LastIndex(s: string, c: char, n: nat): (k: int)
    requires n <= |s|
    ensures -1 <= k < n
    ensures k >= 0 ==> s[k] == c
    ensures forall j :: k < j < n ==> s[j] != c
    decreases n
  {
    if n == 0 then -1
    else if s[n - 1] == c then n - 1
    else LastIndex(s, c, n - 1)
  }

  /**
   * The text after the last separator. It holds no separator, ends the
   * string, and is either the whole string or preceded by a separator.
   */
  function LastSegment(s: string, sep: char): (r: string)
    ensures sep !in r
    ensures IsSuffix(r, s)
    ensures r == s || s[|s| - |r| - 1] == sep
  {
    var k := LastIndex(s, sep, |s|);
    assert s[k + 1..] == s[|s| - |s[k + 1..]|..];
    s[k + 1..]
  }

  /**
   * The last segment is the only suffix that holds no separator and is
   * either the whole string or preceded by a separator: it is exactly the
   * text after the last separator.
   */
  lemma LastSegmentUnique(s: string, sep: char, t: string)
    requires sep !in t && IsSuffix(t, s)
    requires t == s || s[|s| - |t| - 1] == sep
    ensures t == LastSegment(s, sep)
  {
    var k := LastIndex(s, sep, |s|);
    var m := |s| - |t| - 1;
    assert forall j :: m < j < |s| ==> s[j] == t[j - m - 1];
    if t != s {
      assert s[m] == sep;
    }
  }

  /** Where the final piece of the split from `from` starts: just after the last separator at or after `from`. */
  function LastPieceStart(s: string, sep: char, from: nat): (p: nat)
    requires from <= |s|
    ensures from <= p <= |s|
    decreases |s| - from
  {
    var i := FindFrom(s, sep, from);
    if i < 0 then from else LastPieceStart(s, sep, i + 1)
  }

  lemma LastPieceBase(s: string, sep: char, from: nat)
    requires from <= |s| && FindFrom(s, sep, from) < 0
    ensures Last(SplitFrom(s, sep, from)) == s[LastPieceStart(s, sep, from)..]
  {
    SplitFromLast(s, sep, from);
  }

  lemma LastPieceStep(s: string, sep: char, from: nat, i: nat)
    requires from <= |s| && FindFrom(s, sep, from) == i
    requires Last(SplitFrom(s, sep, i + 1)) == s[LastPieceStart(s, sep, i + 1)..]
    ensures Last(SplitFrom(s, sep, from)) == s[LastPieceStart(s, sep, from)..]
  {
    SplitFromStep(s, sep, from, i);
    LastOfCons(s[from..i], SplitFrom(s, sep, i + 1));
  }

  lemma {:induction false} LastPieceFrom(s: string, sep: char, from: nat)
    requires from <= |s|
    ensures Last(SplitFrom(s, sep, from)) == s[LastPieceStart(s, sep, from)..]
    decreases |s| - from
  {
    var i := FindFrom(s, sep, from);
    if i >= 0 {
      LastPieceFrom(s, sep, i + 1);
      LastPieceStep(s, sep, from, i);
    } else {
      LastPieceBase(s, sep, from);
    }
  }

  /** Starting just after a separator (or at the start), the final piece starts after the last separator. */
  lemma {:induction false} LastPieceStartIsAfterLastSep(s: string, sep: char, from: nat)
    requires from <= |s| && (from == 0 || s[from - 1] == sep)
    ensures LastPieceStart(s, sep, from) == LastIndex(s, sep, |s|) + 1
    decreases |s| - from
  {
    var i := FindFrom(s, sep, from);
    if i >= 0 {
      LastPieceStartIsAfterLastSep(s, sep, i + 1);
    }
  }

  /** `lst[len(lst)-1]` after strings.Split is the text after the last separator. */
  lemma LastPieceIsLastSegment(s: string, sep: char)
    ensures Last(Split(s, sep)) == LastSegment(s, sep)
  {
    LastPieceFrom(s, sep, 0);
    LastPieceStartIsAfterLastSep(s, sep, 0);
  }

  /** A string with no separator is its own last segment. */
  lemma LastSegmentWithoutSep(s: string, sep: char)
    requires sep !in s
    ensures LastSegment(s, sep) == s
  {
    LastSegmentUnique(s, sep, s);
  }

  /** Taking the last segment twice changes nothing. */
  lemma LastSegmentIdempotent(s: string, sep: char)
    ensures LastSegment(LastSegment(s, sep), sep) == LastSegment(s, sep)
  {
    LastSegmentWithoutSep(LastSegment(s, sep), sep);
  }

  /** Whatever follows the final separator is the last segment. */
  lemma LastSegmentAfterSep(a: string, sep: char, b: string)
    requires sep !in b
    ensures LastSegment(a + [sep] + b, sep) == b
  {
    var s := a + [sep] + b;
    assert s[|s| - |b|..] == b;
    assert s[|s| - |b| - 1] == sep;
    LastSegmentUnique(s, sep, b);
  }

  // Decimal text, as strconv.Itoa.

  predicate IsDigit(c: char) {
    '0' <= c <= '9'
  }

  predicate AllDigits(s: string) {
    forall i :: 0 <= i < |s| ==> IsDigit(s[i])
  }

  function DigitChar(d: nat): (c: char)
    requires d < 10
    ensures IsDigit(c) && c as int - '0' as int == d
  {
    (d + '0' as int) as char
  }

  /** The decimal digits of `n`, most significant first, without leading zeros. */
  function NatToDecimal(n: nat): (r: string)
    ensures |r| >= 1 && AllDigits(r)
    ensures |r| > 1 ==> r[0] != '0'
    decreases n
  {
    if n < 10 then [DigitChar(n)]
    else NatToDecimal(n / 10) + [DigitChar(n % 10)]
  }

  /** strconv.Itoa: a minus sign for negative numbers, then the digits. */
  function Itoa(n: int): (r: string)
    ensures |r| >= 1
    ensures n < 0 <==> r[0] == '-'
    ensures n >= 0 ==> AllDigits(r)
    ensures n < 0 ==> AllDigits(r[1..])
    ensures n >= 0 && |r| > 1 ==> r[0] != '0'
    ensures n < 0 ==> |r| >= 2 && r[1] != '0'
  {
    if n < 0 then "-" + NatToDecimal(-n) else NatToDecimal(n)
  }

  /** The number a string of decimal digits denotes. */
  function DigitsValue(s: string): nat
    requires AllDigits(s)
    decreases |s|
  {
    if |s| == 0 then 0
    else DigitsValue(s[..|s| - 1]) * 10 + (s[|s| - 1] as int - '0' as int)
  }

  /** Reads back an optionally signed decimal; the partner of Itoa. */
  function ParseInt(s: string): Option<int> {
    if |s| >= 2 && s[0] == '-' && AllDigits(s[1..]) then Some(0 - DigitsValue(s[1..]) as int)
    else if |s| >= 1 && AllDigits(s) then Some(DigitsValue(s))
    else None
  }

  lemma {:induction false} NatToDecimalValue(n: nat)
    ensures DigitsValue(NatToDecimal(n)) == n
    decreases n
  {
    if n >= 10 {
      NatToDecimalValue(n / 10);
      var r := NatToDecimal(n);
      assert r[..|r| - 1] == NatToDecimal(n / 10);
    }
  }

  /** A minus sign followed by digits reads back as the negated digit value. */
  lemma ParseNegative(d: string)
    requires |d| >= 1 && AllDigits(d)
    ensures ParseInt("-" + d) == Some(0 - DigitsValue(d) as int)
  {
    assert ("-" + d)[1..] == d;
  }

  lemma NegativeRoundTrip(m: nat)
    ensures ParseInt("-" + NatToDecimal(m)) == Some(0 - m)
  {
    NatToDecimalValue(m);
    ParseNegative(NatToDecimal(m));
  }

  lemma ItoaRoundTripNonNegative(n: int)
    requires n >= 0
    ensures ParseInt(Itoa(n)) == Some(n)
  {
    NatToDecimalValue(n);
  }

  /** Parsing the text strconv.Itoa produces gives back the number. */
  lemma ItoaRoundTrip(n: int)
    ensures ParseInt(Itoa(n)) == Some(n)
  {
    if n < 0 {
      NegativeRoundTrip(-n);
    } else {
      ItoaRoundTripNonNegative(n);
    }
  }
}
