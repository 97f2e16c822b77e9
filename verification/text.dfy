/** The few Python `str` operations the service relies on: `isspace`/`strip()`,
    `lower()` (ASCII letters only), and `join`/`split` on a one-character
    separator. */
module Text {

  /** Python's `str.isspace`: the code points with bidirectional class WS, B
      or S, or general category Zs. */
  predicate IsSpace(c: char) {
    || ('\t' <= c <= '\r')
    || ('\U{1C}' <= c <= '\U{1F}')
    || c == ' '
    || c == '\U{85}'
    || c == '\U{A0}'
    || c == '\U{1680}'
    || ('\U{2000}' <= c <= '\U{200A}')
    || c == '\U{2028}'
    || c == '\U{2029}'
    || c == '\U{202F}'
    || c == '\U{205F}'
    || c == '\U{3000}'
  }

  /** Every character of `s` is whitespace (true of the empty string). */
  predicate IsBlank(s: string) {
    forall i :: 0 <= i < |s| ==> IsSpace(s[i])
  }

  /** `s` neither starts nor ends with whitespace. */
  predicate IsTrimmed(s: string) {
    |s| == 0 || (!IsSpace(s[0]) && !IsSpace(s[|s| - 1]))
  }

  /** The index of the first non-whitespace character of `s` at or after
      `i`, or `|s|` when there is none. */
  function SkipSpaces(s: string, i: nat): (r: nat)
    requires i <= |s|
    ensures i <= r <= |s|
    ensures forall k :: i <= k < r ==> IsSpace(s[k])
    ensures r == |s| || !IsSpace(s[r])
    decreases |s| - i
  {
    if i < |s| && IsSpace(s[i]) then SkipSpaces(s, i + 1) else i
  }

  /** The end of `s[lo..j]` once its trailing whitespace is dropped. */
  function SkipSpacesBack(s: string, lo: nat, j: nat): (r: nat)
    requires lo <= j <= |s|
    ensures lo <= r <= j
    ensures forall k :: r <= k < j ==> IsSpace(s[k])
    ensures r == lo || !IsSpace(s[r - 1])
    decreases j
  {
    if lo < j && IsSpace(s[j - 1]) then SkipSpacesBack(s, lo, j - 1) else j
  }

  /** Python's `strip()`: the infix of `s` left after removing the leading and
      the trailing whitespace. */
  function Strip(s: string): (r: string)
    ensures IsTrimmed(r)
    ensures exists i :: 0 <= i <= |s| - |r| && r == s[i..i + |r|]
                        && IsBlank(s[..i]) && IsBlank(s[i + |r|..])
    ensures |r| == 0 <==> IsBlank(s)
  {
    var lo := SkipSpaces(s, 0);
    var hi := SkipSpacesBack(s, lo, |s|);
    assert IsBlank(s[..lo]) by {
      forall k | 0 <= k < lo ensures IsSpace(s[..lo][k]) {
        assert s[..lo][k] == s[k];
      }
    }
    assert IsBlank(s[hi..]) by {
      forall k | 0 <= k < |s| - hi ensures IsSpace(s[hi..][k]) {
        assert s[hi..][k] == s[hi + k];
      }
    }
    assert IsBlank(s) ==> lo == |s|;
    s[lo..hi]
  }

  /** Stripping removes exactly the whitespace padding around a trimmed core. */
  lemma StripPadded(a: string, s: string, b: string)
    requires IsBlank(a) && IsBlank(b) && IsTrimmed(s)
    ensures Strip(a + s + b) == s
  {
    var w := a + s + b;
    assert forall k :: 0 <= k < |a| ==> w[k] == a[k];
    assert forall k :: |a| + |s| <= k < |w| ==> w[k] == b[k - |a| - |s|];
    if |s| == 0 {
      assert IsBlank(w);
    } else {
      assert w[|a|] == s[0];
      assert w[|a| + |s| - 1] == s[|s| - 1];
      var lo := SkipSpaces(w, 0);
      var hi := SkipSpacesBack(w, lo, |w|);
      assert lo == |a|;
      assert hi == |a| + |s|;
      assert w[lo..hi] == s;
    }
  }

  /** Stripping a string that is already stripped changes nothing. */
  lemma StripTrimmed(s: string)
    requires IsTrimmed(s)
    ensures Strip(s) == s
  {
  }

  predicate IsUpper(c: char) {
    'A' <= c <= 'Z'
  }

  /** Python's `lower()`, restricted to the ASCII letters. */
  function LowerChar(c: char): char {
    if IsUpper(c) then (c as int + 32) as char else c
  }

  function Lower(s: string): (r: string)
    ensures |r| == |s|
    ensures forall i :: 0 <= i < |s| ==> !IsUpper(r[i])
    ensures forall i :: 0 <= i < |s| && !IsUpper(s[i]) ==> r[i] == s[i]
    ensures forall i :: 0 <= i < |s| && IsUpper(s[i]) ==> r[i] as int == s[i] as int + 32
  {
    seq(|s|, i requires 0 <= i < |s| => LowerChar(s[i]))
  }

  /** Lower-casing leaves a string unchanged exactly when it has no upper-case
      letter; in particular it is idempotent. */
  lemma LowerFixedPoint(s: string)
    ensures Lower(s) == s <==> forall i :: 0 <= i < |s| ==> !IsUpper(s[i])
    ensures Lower(Lower(s)) == Lower(s)
  {
  }

  /** Total number of characters in `parts`. */
  function TotalLength(parts: seq<string>): nat
    decreases |parts|
  {
    if |parts| == 0 then 0 else |parts[0]| + TotalLength(parts[1..])
  }

  /** Python's `sep.join(parts)` for a one-character separator: the pieces in
      order, one separator between each two of them. */
  function Join(sep: char, parts: seq<string>): (r: string)
    ensures |parts| == 0 ==> r == ""
    ensures |parts| > 0 ==> |r| == TotalLength(parts) + |parts| - 1
    ensures |parts| > 0 ==> |parts[0]| <= |r| && r[..|parts[0]|] == parts[0]
    ensures |parts| > 1 ==> r[|parts[0]|] == sep
    decreases |parts|
  {
    if |parts| == 0 then ""
    else if |parts| == 1 then parts[0]
    else parts[0] + [sep] + Join(sep, parts[1..])
  }

  /** A join ends with its last piece. */
  lemma {:induction false} JoinEndsWithLast(sep: char, parts: seq<string>)
    requires |parts| > 0
    ensures var r := Join(sep, parts);
            var last := parts[|parts| - 1];
            |last| <= |r| && r[|r| - |last|..] == last
    decreases |parts|
  {
    if |parts| > 1 {
      var rest := Join(sep, parts[1..]);
      var last := parts[|parts| - 1];
      JoinEndsWithLast(sep, parts[1..]);
      assert parts[1..][|parts| - 2] == last;
      var r := parts[0] + [sep] + rest;
      assert r[|r| - |last|..] == rest[|rest| - |last|..];
    }
  }

  /** Python's `s.split(sep)` for a one-character separator: the maximal
      separator-free pieces, at least one of them. */
  function Split(sep: char, s: string): (r: seq<string>)
    ensures |r| >= 1
    ensures forall k :: 0 <= k < |r| ==> sep !in r[k]
    decreases |s|
  {
    if |s| == 0 then [""]
    else
      var rest := Split(sep, s[1..]);
      if s[0] == sep then [""] + rest
      else [[s[0]] + rest[0]] + rest[1..]
  }

  /** One unfolding of `Join` on a list with a known head. */
  lemma JoinCons(sep: char, p: string, rest: seq<string>)
    ensures Join(sep, [p] + rest) == if |rest| == 0 then p else p + [sep] + Join(sep, rest)
  {
    assert ([p] + rest)[0] == p;
    assert ([p] + rest)[1..] == rest;
  }

  /** The join of the pieces `Split` builds from a first character `c` and
      the pieces of the rest. */
  lemma JoinSplitStep(sep: char, c: char, rest: seq<string>)
    requires |rest| >= 1
    ensures Join(sep, if c == sep then [""] + rest else [[c] + rest[0]] + rest[1..])
            == [c] + Join(sep, rest)
  {
    if c == sep {
      JoinCons(sep, "", rest);
    } else {
      var tail := rest[1..];
      assert rest == [rest[0]] + tail;
      JoinCons(sep, rest[0], tail);
      JoinCons(sep, [c] + rest[0], tail);
      if |tail| > 0 {
        assert [c] + rest[0] + [sep] + Join(sep, tail) == [c] + (rest[0] + [sep] + Join(sep, tail));
      }
    }
  }

  /** Joining the pieces of a split gives back the string. */
  lemma {:induction false} JoinSplit(sep: char, s: string)
    ensures Join(sep, Split(sep, s)) == s
    decreases |s|
  {
    if |s| > 0 {
      JoinSplit(sep, s[1..]);
      JoinSplitStep(sep, s[0], Split(sep, s[1..]));
      assert s == [s[0]] + s[1..];
    }
  }

  lemma {:induction false} SplitFree(sep: char, p: string)
    requires sep !in p
    ensures Split(sep, p) == [p]
    decreases |p|
  {
    if |p| > 0 {
      SplitFree(sep, p[1..]);
      assert p == [p[0]] + p[1..];
    }
  }

  lemma {:induction false} SplitAfterFree(sep: char, p: string, t: string)
    requires sep !in p
    ensures Split(sep, p + [sep] + t) == [p] + Split(sep, t)
    decreases |p|
  {
    if |p| == 0 {
      assert p + [sep] + t == [sep] + t;
      assert ([sep] + t)[1..] == t;
    } else {
      var s := p + [sep] + t;
      assert s[1..] == p[1..] + [sep] + t;
      SplitAfterFree(sep, p[1..], t);
      assert s[0] == p[0] && p[0] != sep;
      assert p == [p[0]] + p[1..];
    }
  }

  /** Splitting a join of separator-free pieces gives back the pieces; this
      holds for any non-empty list (Python splits `""` into `[""]`, never `[]`). */
  lemma {:induction false} SplitJoin(sep: char, parts: seq<string>)
    requires |parts| >= 1
    requires forall k :: 0 <= k < |parts| ==> sep !in parts[k]
    ensures Split(sep, Join(sep, parts)) == parts
    decreases |parts|
  {
    if |parts| == 1 {
      SplitFree(sep, parts[0]);
    } else {
      SplitJoin(sep, parts[1..]);
      SplitAfterFree(sep, parts[0], Join(sep, parts[1..]));
      assert parts == [parts[0]] + parts[1..];
    }
  }
}
