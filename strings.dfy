/** The few Python `str` operations the extractor relies on: `strip()`, `startswith`,
    the `in` substring test, `split(sep)` and `sep.join`. Strings are sequences of
    code points, as Python's `str` is. */
module Strings {

  /** The characters Python's `str.strip()` (no argument) removes: those `str.isspace()`
      accepts, i.e. the ASCII controls tab to carriage return and the four separators
      U+001C to U+001F, the space, and the Unicode separators and spaces. */
  predicate IsSpace(c: char) {
    var n := c as int;
    || 0x09 <= n <= 0x0D || 0x1C <= n <= 0x20
    || n == 0x85 || n == 0xA0 || n == 0x1680
    || 0x2000 <= n <= 0x200A
    || n == 0x2028 || n == 0x2029 || n == 0x202F || n == 0x205F || n == 0x3000
  }

  /** No whitespace at either end. */
  predicate IsTrimmed(s: string) {
    s == "" || (!IsSpace(s[0]) && !IsSpace(s[|s| - 1]))
  }

  /** Python `s.startswith(prefix)`. */
  predicate StartsWith(s: string, prefix: string) {
    |prefix| <= |s| && s[..|prefix|] == prefix
  }

  /** Python `sub in s`. */
  predicate Contains(s: string, sub: string)
    decreases |s|
  {
    |sub| <= |s| && (StartsWith(s, sub) || Contains(s[1..], sub))
  }

  /** `sub` stands in `s` from position `k` on. */
  predicate OccursAt(s: string, sub: string, k: nat) {
    k + |sub| <= |s| && s[k..k + |sub|] == sub
  }

  /** `Contains(s, sub)` holds exactly when `sub` occurs in `s` at some position. */
  lemma {:induction false} ContainsIsOccurrence(s: string, sub: string)
    ensures Contains(s, sub) <==> exists k :: 0 <= k <= |s| - |sub| && OccursAt(s, sub, k)
    decreases |s|
  {
    if |sub| <= |s| {
      if StartsWith(s, sub) {
        assert OccursAt(s, sub, 0);
      } else {
        assert |s| > 0;
        ContainsIsOccurrence(s[1..], sub);
        if Contains(s[1..], sub) {
          var k :| 0 <= k <= |s| - 1 - |sub| && OccursAt(s[1..], sub, k);
          assert s[1..][k..k + |sub|] == s[k + 1..k + 1 + |sub|];
          assert OccursAt(s, sub, k + 1);
        }
        if exists k :: 0 <= k <= |s| - |sub| && OccursAt(s, sub, k) {
          var k :| 0 <= k <= |s| - |sub| && OccursAt(s, sub, k);
          assert k != 0;
          assert s[1..][k - 1..k - 1 + |sub|] == s[k..k + |sub|];
          assert OccursAt(s[1..], sub, k - 1);
        }
      }
    }
  }

  /** Python `s.lstrip()`: drops the leading whitespace (`TrimStartCuts` says it drops
      nothing else). */
  function TrimStart(s: string): (r: string)
    ensures |r| <= |s| && (r == "" || !IsSpace(r[0]))
    decreases |s|
  {
    if |s| > 0 && IsSpace(s[0]) then TrimStart(s[1..]) else s
  }

  /** Python `s.rstrip()`: drops the trailing whitespace (`TrimEndCuts` says it drops
      nothing else); what is left starts as `s` does. */
  function TrimEnd(s: string): (r: string)
    ensures |r| <= |s| && (r == "" || (!IsSpace(r[|r| - 1]) && r[0] == s[0]))
    decreases |s|
  {
    if |s| > 0 && IsSpace(s[|s| - 1]) then TrimEnd(s[..|s| - 1]) else s
  }

  /** `TrimStart(s)` is a suffix of `s` and what it cuts off is whitespace. */
  lemma {:induction false} TrimStartCuts(s: string)
    ensures var r := TrimStart(s);
      && r == s[|s| - |r|..]
      && forall i :: 0 <= i < |s| - |r| ==> IsSpace(s[i])
    decreases |s|
  {
    if |s| > 0 && IsSpace(s[0]) {
      TrimStartCuts(s[1..]);
      var r := TrimStart(s[1..]);
      assert s[1..][|s| - 1 - |r|..] == s[|s| - |r|..];
      assert forall i :: 1 <= i < |s| ==> s[i] == s[1..][i - 1];
    }
  }

  /** `TrimEnd(s)` is a prefix of `s` and what it cuts off is whitespace. */
  lemma {:induction false} TrimEndCuts(s: string)
    ensures var r := TrimEnd(s);
      && r == s[..|r|]
      && forall i :: |r| <= i < |s| ==> IsSpace(s[i])
    decreases |s|
  {
    if |s| > 0 && IsSpace(s[|s| - 1]) {
      TrimEndCuts(s[..|s| - 1]);
      var r := TrimEnd(s[..|s| - 1]);
      assert s[..|s| - 1][..|r|] == s[..|r|];
    }
  }

  /** Python `s.strip()`: the result has no whitespace at either end (`TrimIsMiddle`
      says what it is cut from). */
  function Trim(s: string): (r: string)
    ensures |r| <= |s| && IsTrimmed(r)
  {
    TrimEnd(TrimStart(s))
  }

  /** `Trim(s)` is the middle of `s` once a whitespace-only prefix and a
      whitespace-only suffix are cut off. */
  lemma TrimIsMiddle(s: string)
    ensures TrimOf(s, Trim(s), |s| - |TrimStart(s)|)
  {
    var t := TrimStart(s);
    TrimStartCuts(s);
    TrimEndCuts(t);
    MiddleOf(s, t, TrimEnd(t), |s| - |t|);
  }

  lemma MiddleOf(s: string, t: string, r: string, a: nat)
    requires a <= |s| && t == s[a..] && |r| <= |t| && r == t[..|r|]
    requires forall i :: 0 <= i < a ==> IsSpace(s[i])
    requires forall j :: |r| <= j < |t| ==> IsSpace(t[j])
    ensures TrimOf(s, r, a)
  {
    assert s[a..a + |r|] == s[a..][..|r|];
    forall i | a + |r| <= i < |s| ensures IsSpace(s[i]) {
      assert t[i - a] == s[i];
    }
  }

  /** `r` is `s[a..a + |r|]` and everything of `s` around it is whitespace. */
  ghost predicate TrimOf(s: string, r: string, a: int) {
    0 <= a <= |s| - |r| && s[a..a + |r|] == r
    && (forall i :: 0 <= i < a ==> IsSpace(s[i]))
    && (forall i :: a + |r| <= i < |s| ==> IsSpace(s[i]))
  }

  /** `[p.strip() for p in ps]` */
  function TrimAll(ps: seq<string>): (ts: seq<string>)
    ensures |ts| == |ps|
  {
    seq(|ps|, i requires 0 <= i < |ps| => Trim(ps[i]))
  }

  /** A character of `Trim(s)` is a character of `s`. */
  lemma TrimKeepsOut(s: string, c: char)
    requires c !in s
    ensures c !in Trim(s)
  {
    TrimIsMiddle(s);
  }

  /** Stripping a string without whitespace at its ends leaves it as it is. */
  lemma TrimOfTrimmed(s: string)
    requires IsTrimmed(s)
    ensures Trim(s) == s
  {
    assert TrimStart(s) == s;
  }

  /** Python `s.split(d)` for a one-character separator: the pieces between
      separators, always at least one (`"".split(d) == [""]`). */
  function Split(s: string, d: char): (r: seq<string>)
    ensures |r| >= 1
    ensures forall k :: 0 <= k < |r| ==> d !in r[k]
    decreases |s|
  {
    if |s| == 0 then [""]
    else
      var rest := Split(s[1..], d);
      if s[0] == d then [""] + rest else [[s[0]] + rest[0]] + rest[1..]
  }

  /** Python `d.join(xs)`. */
  function Join(xs: seq<string>, d: char): string
    decreases |xs|
  {
    if |xs| == 0 then "" else if |xs| == 1 then xs[0] else xs[0] + [d] + Join(xs[1..], d)
  }

  lemma {:induction false} SplitWithout(a: string, d: char)
    requires d !in a
    ensures Split(a, d) == [a]
    decreases |a|
  {
    if |a| > 0 {
      SplitWithout(a[1..], d);
      assert [a[0]] + a[1..] == a;
    }
  }

  lemma {:induction false} SplitAfter(a: string, b: string, d: char)
    requires d !in a
    ensures Split(a + [d] + b, d) == [a] + Split(b, d)
    decreases |a|
  {
    var s := a + [d] + b;
    if |a| == 0 {
      assert s[1..] == b;
    } else {
      assert s[1..] == a[1..] + [d] + b;
      SplitAfter(a[1..], b, d);
      assert [a[0]] + a[1..] == a;
    }
  }

  /** Splitting a join gives the pieces back, when no piece holds the separator
      and there is at least one piece (`d.join([])` is `""`, which splits into `[""]`). */
  lemma {:induction false} SplitJoin(xs: seq<string>, d: char)
    requires |xs| > 0
    requires forall k :: 0 <= k < |xs| ==> d !in xs[k]
    ensures Split(Join(xs, d), d) == xs
    decreases |xs|
  {
    if |xs| == 1 {
      SplitWithout(xs[0], d);
    } else {
      SplitJoin(xs[1..], d);
      SplitAfter(xs[0], Join(xs[1..], d), d);
      assert [xs[0]] + xs[1..] == xs;
    }
  }

  /** Joining the pieces of a split gives the string back. */
  lemma {:induction false} JoinSplit(s: string, d: char)
    ensures Join(Split(s, d), d) == s
    decreases |s|
  {
    if |s| > 0 {
      JoinSplit(s[1..], d);
      var rest := Split(s[1..], d);
      if s[0] == d {
        assert s == [d] + s[1..];
      } else {
        if |rest| > 1 {
          assert Join(rest, d) == rest[0] + [d] + Join(rest[1..], d);
          assert Join([[s[0]] + rest[0]] + rest[1..], d)
              == [s[0]] + rest[0] + [d] + Join(rest[1..], d);
        }
        assert s == [s[0]] + s[1..];
      }
    }
  }

  function DigitChar(d: nat): char
    requires d < 10
  {
    "0123456789"[d]
  }

  /** Python `str(n)` for a natural number. */
  function DecimalString(n: nat): (r: string)
    ensures |r| >= 1
    decreases n
  {
    if n < 10 then [DigitChar(n)] else DecimalString(n / 10) + [DigitChar(n % 10)]
  }
}
