/**
 * The two string rewrites the plugin applies to file paths: Kotlin's
 * `String.removePrefix` and Foundation's `replacingOccurrences(of:with: "")`.
 */
module Strings {

  /** The URL scheme both platforms strip from caller-supplied paths. */
  const Scheme: string := "file://"

  predicate StartsWith(s: string, p: string) {
    |p| <= |s| && s[..|p|] == p
  }

  /** `c` does not occur anywhere in `s`. */
  predicate Lacks(s: string, c: char) {
    forall i :: 0 <= i < |s| ==> s[i] != c
  }

  /**
   * Kotlin `s.removePrefix(p)`: drops one leading copy of `p`, if there is one.
   */
  function RemovePrefix(s: string, p: string): (r: string)
    ensures StartsWith(s, p) ==> p + r == s
    ensures !StartsWith(s, p) ==> r == s
    ensures |r| <= |s|
  {
    if StartsWith(s, p) then s[|p|..] else s
  }

  /** Only one copy is removed: a doubled prefix leaves the second copy in place. */
  lemma RemovePrefixOnce(p: string, rest: string)
    ensures RemovePrefix(p + rest, p) == rest
  {
    assert (p + rest)[..|p|] == p;
    assert (p + rest)[|p|..] == rest;
  }

  /**
   * Foundation `s.replacingOccurrences(of: pat, with: "")`: scanning left to
   * right, every non-overlapping occurrence of `pat` is deleted. An empty
   * `pat` leaves `s` unchanged.
   */
  function RemoveAll(s: string, pat: string): (r: string)
    ensures |r| <= |s|
    decreases |s|
  {
    if |pat| == 0 || |s| == 0 then s
    else if StartsWith(s, pat) then RemoveAll(s[|pat|..], pat)
    else [s[0]] + RemoveAll(s[1..], pat)
  }

  /** A string missing one of the pattern's characters contains no occurrence, so nothing is removed. */
  lemma {:induction false} RemoveAllIdentity(s: string, pat: string, c: char)
    requires c in pat && Lacks(s, c)
    ensures RemoveAll(s, pat) == s
    decreases |s|
  {
    if |pat| == 0 || |s| == 0 {
    } else {
      var k :| 0 <= k < |pat| && pat[k] == c;
      assert !StartsWith(s, pat) by {
        if |pat| <= |s| {
          assert s[..|pat|][k] == s[k];
        }
      }
      RemoveAllIdentity(s[1..], pat, c);
      assert s == [s[0]] + s[1..];
    }
  }

  /**
   * `a` cannot contribute to an occurrence of the scheme: it has no ':' and
   * does not end with a non-empty prefix of "file".
   */
  predicate SafeCut(a: string) {
    Lacks(a, ':') && (|a| == 0 || a[|a| - 1] !in "file")
  }

  /** No occurrence of the scheme starts inside a non-empty safe cut. */
  lemma SafeCutStartsNoScheme(a: string, b: string)
    requires |a| > 0 && SafeCut(a)
    ensures !StartsWith(a + b, Scheme)
  {
    var s := a + b;
    if 7 <= |s| {
      if |a| >= 5 {
        assert s[..7][4] == a[4];
      } else {
        assert s[..7][|a| - 1] == a[|a| - 1];
      }
    }
  }

  /** The tail of a safe cut is a safe cut. */
  lemma SafeCutTail(a: string)
    requires |a| > 0 && SafeCut(a)
    ensures SafeCut(a[1..])
  {
    forall i | 0 <= i < |a[1..]| ensures a[1..][i] != ':' {
      assert a[1..][i] == a[i + 1];
    }
  }

  lemma ConsAppend<T>(a: seq<T>, b: seq<T>)
    requires |a| > 0
    ensures (a + b)[0] == a[0] && (a + b)[1..] == a[1..] + b
    ensures a == [a[0]] + a[1..]
    ensures [a[0]] + (a[1..] + b) == a + b
  {
  }

  /** Deleting the scheme distributes over a concatenation whose left part is a safe cut. */
  lemma {:induction false} RemoveAllAppend(a: string, b: string)
    requires SafeCut(a)
    ensures RemoveAll(a + b, Scheme) == a + RemoveAll(b, Scheme)
    decreases |a|
  {
    if |a| == 0 {
      assert a + b == b;
    } else {
      SafeCutStartsNoScheme(a, b);
      ConsAppend(a, b);
      SafeCutTail(a);
      RemoveAllAppend(a[1..], b);
    }
  }

  /** A leading copy of the scheme disappears. */
  lemma RemoveAllLeading(t: string)
    ensures RemoveAll(Scheme + t, Scheme) == RemoveAll(t, Scheme)
  {
    assert (Scheme + t)[..|Scheme|] == Scheme;
    assert (Scheme + t)[|Scheme|..] == t;
  }

  /** Where no occurrence starts, the first character is kept. */
  lemma RemoveAllNoMatch(s: string)
    requires |s| > 0 && !StartsWith(s, Scheme)
    ensures RemoveAll(s, Scheme) == [s[0]] + RemoveAll(s[1..], Scheme)
  {
  }

  /** A first character that cannot start the scheme is kept. */
  lemma RemoveAllKeepsHead(c: char, t: string)
    requires c != 'f'
    ensures RemoveAll([c] + t, Scheme) == [c] + RemoveAll(t, Scheme)
  {
    var s := [c] + t;
    assert s[1..] == t;
    assert !StartsWith(s, Scheme) by {
      if 7 <= |s| {
        assert s[..7][0] == c;
      }
    }
    RemoveAllNoMatch(s);
  }

  /** "f", then any character, then "f" cannot start the scheme, whose third character is 'l'. */
  lemma RemoveAllKeepsF(t: string)
    requires |t| > 1 && t[1] == 'f'
    ensures RemoveAll(['f'] + t, Scheme) == ['f'] + RemoveAll(t, Scheme)
  {
    var s := ['f'] + t;
    assert s[1..] == t;
    assert !StartsWith(s, Scheme) by {
      if 7 <= |s| {
        assert s[..7][2] == 'f';
      }
    }
    RemoveAllNoMatch(s);
  }

  /**
   * The deletion is a single pass: deleting an inner occurrence can join two
   * halves into a new one, which stays in the result.
   */
  lemma RemoveAllSinglePass()
    ensures RemoveAll("fi" + Scheme + "le://", Scheme) == Scheme
  {
    var t := "le://";
    RemoveAllLeading(t);
    RemoveAllIdentity(t, Scheme, 'f');
    var s1 := ['i'] + (Scheme + t);
    RemoveAllKeepsHead('i', Scheme + t);
    RemoveAllKeepsF(s1);
    TwoHeads('f', 'i', Scheme, t);
    SchemeHalves();
  }

  lemma TwoHeads<T>(a: T, b: T, x: seq<T>, y: seq<T>)
    ensures [a, b] + x + y == [a] + ([b] + (x + y))
    ensures [a] + ([b] + y) == [a, b] + y
  {
  }

  /** The halves the single pass joins. */
  lemma SchemeHalves()
    ensures "fi" + "le://" == Scheme
  {
  }
}
