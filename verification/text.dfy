/** The handful of Python string operations the script relies on:
    `str.find`, `str.count`, `str.split(sep)`, `sep.join`, `str.replace`,
    and the decimal rendering of a non-negative integer. */
module Text {
  import opened Outcomes

  /** `pat` occurs in `s` starting at index `i`. */
  predicate OccursAt(s: string, pat: string, i: nat) {
    i + |pat| <= |s| && s[i..i + |pat|] == pat
  }

  predicate Contains(s: string, pat: string) {
    exists i: nat | i <= |s| :: OccursAt(s, pat, i)
  }

  lemma OccursShift(s: string, pat: string, j: nat)
    requires |s| > 0
    ensures OccursAt(s[1..], pat, j) <==> OccursAt(s, pat, j + 1)
  {
    if j + 1 + |pat| <= |s| {
      assert s[1..][j..j + |pat|] == s[j + 1..j + 1 + |pat|];
    }
  }

  lemma OccursInPrefix(s: string, pat: string, i: nat, j: nat)
    requires i <= |s|
    requires OccursAt(s[..i], pat, j)
    ensures OccursAt(s, pat, j)
  {
    assert s[..i][j..j + |pat|] == s[j..j + |pat|];
  }

  /** Index of the leftmost occurrence of `pat` in `s`, as `str.find` gives it. */
  function Find(s: string, pat: string): (r: Option<nat>)
    ensures r.Some? ==> OccursAt(s, pat, r.value)
    ensures r.Some? ==> forall j: nat :: j < r.value ==> !OccursAt(s, pat, j)
    ensures r.None? ==> !Contains(s, pat)
    decreases |s|
  {
    if |s| < |pat| then None
    else if s[..|pat|] == pat then Some(0)
    else
      var rest := Find(s[1..], pat);
      assert forall j: nat :: OccursAt(s[1..], pat, j) <==> OccursAt(s, pat, j + 1) by {
        forall j: nat ensures OccursAt(s[1..], pat, j) <==> OccursAt(s, pat, j + 1) {
          OccursShift(s, pat, j);
        }
      }
      assert !OccursAt(s, pat, 0);
      match rest
      case None =>
        assert forall j: nat :: !OccursAt(s, pat, j) by {
          forall j: nat ensures !OccursAt(s, pat, j) {
            if j > 0 {
              assert !OccursAt(s[1..], pat, j - 1);
            }
          }
        }
        None
      case Some(i) =>
        assert forall j: nat :: j < i + 1 ==> !OccursAt(s, pat, j) by {
          forall j: nat | j < i + 1 ensures !OccursAt(s, pat, j) {
            if j > 0 {
              assert !OccursAt(s[1..], pat, j - 1);
            }
          }
        }
        Some(i + 1)
  }

  /** Number of non-overlapping occurrences of `pat` found scanning left to
      right, as `str.count` gives it. */
  function Count(s: string, pat: string): nat
    requires |pat| > 0
    decreases |s|
  {
    if |s| < |pat| then 0
    else if s[..|pat|] == pat then 1 + Count(s[|pat|..], pat)
    else Count(s[1..], pat)
  }

  /** `sep.join(parts)`. */
  function Join(parts: seq<string>, sep: string): string {
    if |parts| == 0 then ""
    else if |parts| == 1 then parts[0]
    else parts[0] + sep + Join(parts[1..], sep)
  }

  lemma JoinCons(head: string, tail: seq<string>, sep: string)
    requires |tail| > 0
    ensures Join([head] + tail, sep) == head + sep + Join(tail, sep)
  {
    assert ([head] + tail)[1..] == tail;
  }

  /** `s.split(sep)` for a non-empty separator: cut at the leftmost
      occurrence, then split what follows it. */
  function Split(s: string, sep: string): (r: seq<string>)
    requires |sep| > 0
    ensures |r| >= 1
    ensures Join(r, sep) == s
    ensures forall k :: 0 <= k < |r| ==> !Contains(r[k], sep)
    decreases |s|
  {
    match Find(s, sep)
    case None => [s]
    case Some(i) =>
      var rest := Split(s[i + |sep|..], sep);
      assert !Contains(s[..i], sep) by {
        forall j: nat | OccursAt(s[..i], sep, j) ensures false {
          OccursInPrefix(s, sep, i, j);
        }
      }
      JoinCons(s[..i], rest, sep);
      assert s == s[..i] + sep + s[i + |sep|..];
      [s[..i]] + rest
  }

  /** `Split` cuts at the leftmost occurrence every time: in the text that
      remains from piece `k` on, the first `sep` starts right after that
      piece. This pins the result down even for a separator that can
      overlap itself, such as "aa" in "aaa". */
  lemma {:induction false} SplitLeftmost(s: string, sep: string, k: nat)
    requires |sep| > 0 && k < |Split(s, sep)| - 1
    ensures Find(Join(Split(s, sep)[k..], sep), sep) == Some(|Split(s, sep)[k]|)
    decreases |s|
  {
    var r := Split(s, sep);
    assert Find(s, sep).Some?;
    var i := Find(s, sep).value;
    var rest := Split(s[i + |sep|..], sep);
    assert r == [s[..i]] + rest;
    if k == 0 {
      assert r[k..] == r;
    } else {
      SplitLeftmost(s[i + |sep|..], sep, k - 1);
      assert r[k..] == rest[k - 1..];
    }
  }

  /** `s.replace(target, replacement)` for a non-empty `target`: every occurrence found
      scanning left to right, without overlap, is substituted. */
  function Replace(s: string, target: string, replacement: string): string
    requires |target| > 0
    decreases |s|
  {
    match Find(s, target)
    case None => s
    case Some(i) => s[..i] + replacement + Replace(s[i + |target|..], target, replacement)
  }

  /** Scanning the part of `s` before its leftmost occurrence finds nothing. */
  lemma {:induction false} CountSkip(s: string, pat: string, i: nat)
    requires |pat| > 0 && i <= |s|
    requires forall j: nat :: j < i ==> !OccursAt(s, pat, j)
    ensures Count(s, pat) == Count(s[i..], pat)
    decreases i
  {
    if i > 0 {
      assert !OccursAt(s, pat, 0);
      if |s| >= |pat| {
        assert s[..|pat|] != pat;
        forall j: nat | j < i - 1 ensures !OccursAt(s[1..], pat, j) {
          OccursShift(s, pat, j);
        }
        CountSkip(s[1..], pat, i - 1);
        assert s[1..][i - 1..] == s[i..];
      }
    }
  }

  lemma {:induction false} CountAbsent(s: string, pat: string)
    requires |pat| > 0 && !Contains(s, pat)
    ensures Count(s, pat) == 0
  {
    CountSkip(s, pat, |s|);
    assert s[|s|..] == "";
  }

  /** `Count(s, pat) == 0` exactly when `pat` does not occur in `s`. */
  lemma {:induction false} CountZero(s: string, pat: string)
    requires |pat| > 0
    ensures Count(s, pat) == 0 <==> !Contains(s, pat)
  {
    match Find(s, pat)
    case None => CountAbsent(s, pat);
    case Some(i) =>
      CountSkip(s, pat, i);
      assert s[i..][..|pat|] == pat;
  }

  /** `len(s.split(sep)) == s.count(sep) + 1`. */
  lemma {:induction false} SplitCount(s: string, sep: string)
    requires |sep| > 0
    ensures |Split(s, sep)| == Count(s, sep) + 1
    decreases |s|
  {
    match Find(s, sep)
    case None => CountAbsent(s, sep);
    case Some(i) =>
      CountSkip(s, sep, i);
      assert s[i..][..|sep|] == sep;
      assert s[i..][|sep|..] == s[i + |sep|..];
      SplitCount(s[i + |sep|..], sep);
  }

  /** `s.replace(target, replacement) == replacement.join(s.split(target))`. */
  lemma {:induction false} ReplaceJoinsSplit(s: string, target: string, replacement: string)
    requires |target| > 0
    ensures Replace(s, target, replacement) == Join(Split(s, target), replacement)
    decreases |s|
  {
    match Find(s, target)
    case None =>
    case Some(i) =>
      var rest := s[i + |target|..];
      ReplaceJoinsSplit(rest, target, replacement);
      JoinCons(s[..i], Split(rest, target), replacement);
  }

  /** Each substitution changes the length by `|replacement| - |target|`. */
  lemma {:induction false} ReplaceLength(s: string, target: string, replacement: string)
    requires |target| > 0
    ensures |Replace(s, target, replacement)| + Count(s, target) * |target|
         == |s| + Count(s, target) * |replacement|
    decreases |s|
  {
    match Find(s, target)
    case None => CountAbsent(s, target);
    case Some(i) =>
      var rest := s[i + |target|..];
      CountSkip(s, target, i);
      assert s[i..][..|target|] == target;
      assert s[i..][|target|..] == rest;
      var c := Count(rest, target);
      assert Count(s, target) == c + 1;
      ReplaceLength(rest, target, replacement);
      assert |Replace(s, target, replacement)| == i + |replacement| + |Replace(rest, target, replacement)|;
      assert |s| == i + |target| + |rest|;
      MulSucc(c, |target|);
      MulSucc(c, |replacement|);
  }

  lemma MulSucc(c: nat, w: nat)
    ensures (c + 1) * w == c * w + w
  {
  }

  /** Text that does not contain `target` comes back unchanged. */
  lemma {:induction false} ReplaceAbsent(s: string, target: string, replacement: string)
    requires |target| > 0 && !Contains(s, target)
    ensures Replace(s, target, replacement) == s
  {
  }

  predicate IsDigit(ch: char) {
    '0' <= ch <= '9'
  }

  function DigitChar(d: nat): (ch: char)
    requires d < 10
    ensures IsDigit(ch)
  {
    (d + '0' as int) as char
  }

  function DigitValue(ch: char): (d: nat)
    requires IsDigit(ch)
    ensures d < 10 && DigitChar(d) == ch
  {
    ch as int - '0' as int
  }

  /** The decimal rendering `str(n)` of a natural number. */
  function Decimal(n: nat): (r: string)
    ensures |r| >= 1
    ensures forall k :: 0 <= k < |r| ==> IsDigit(r[k])
    ensures r[0] == '0' ==> n == 0
  {
    if n < 10 then [DigitChar(n)] else Decimal(n / 10) + [DigitChar(n % 10)]
  }

  /** Reads a string of decimal digits back as a number, as `int()` does. */
  function ParseDecimal(s: string): nat
    requires forall k :: 0 <= k < |s| ==> IsDigit(s[k])
  {
    if |s| == 0 then 0 else 10 * ParseDecimal(s[..|s| - 1]) + DigitValue(s[|s| - 1])
  }

  lemma {:induction false} DecimalRoundTrip(n: nat)
    ensures ParseDecimal(Decimal(n)) == n
  {
    if n >= 10 {
      var r := Decimal(n);
      assert r[..|r| - 1] == Decimal(n / 10);
      DecimalRoundTrip(n / 10);
    }
  }

  /** Different numbers are written differently. */
  lemma {:induction false} DecimalInjective(a: nat, b: nat)
    requires Decimal(a) == Decimal(b)
    ensures a == b
  {
    DecimalRoundTrip(a);
    DecimalRoundTrip(b);
  }
}
