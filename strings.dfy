/**
 * String helpers of the server: the whitespace trimming behind `_clean`, and the
 * code-point ordering that `sorted` applies to the occupant names listed to an admin.
 */
module Strings {
  import opened Wrappers

  /** A character that the source's `str.strip()` removes (Python's `str.isspace`). */
  predicate IsSpace(c: char) {
    ('\t' <= c <= '\r') || ('\U{1c}' <= c <= ' ') || c == '\U{85}' || c == '\U{a0}' ||
    c == '\U{1680}' || ('\U{2000}' <= c <= '\U{200a}') || c == '\U{2028}' || c == '\U{2029}' ||
    c == '\U{202f}' || c == '\U{205f}' || c == '\U{3000}'
  }

  /**
   * Python's `str.strip()`: whitespace is dropped from the front, then from the back, until
   * both ends are non-space or nothing is left.
   */
  function Strip(s: string): (r: string)
    ensures |r| <= |s|
    ensures r == [] || (!IsSpace(r[0]) && !IsSpace(r[|r| - 1]))
    decreases |s|
  {
    if |s| > 0 && IsSpace(s[0]) then Strip(s[1..])
    else if |s| > 0 && IsSpace(s[|s| - 1]) then Strip(s[..|s| - 1])
    else s
  }

  /** `_clean(s)`: an absent field reads as the empty string, a present one is stripped. */
  function Clean(field: Option<string>): (r: string)
    ensures field.None? ==> r == []
    ensures field.Some? ==> r == Strip(field.value)
    ensures r == [] || (!IsSpace(r[0]) && !IsSpace(r[|r| - 1]))
  {
    match field
    case None => ""
    case Some(s) => Strip(s)
  }

  /** `data.get("pass") or ""`: the password is read as given, absent meaning empty. */
  function OrEmpty(field: Option<string>): string {
    match field
    case None => ""
    case Some(s) => s
  }

  /** A string without whitespace at either end is its own strip. */
  lemma StripTrimmed(s: string)
    requires s == [] || (!IsSpace(s[0]) && !IsSpace(s[|s| - 1]))
    ensures Strip(s) == s
  {
  }

  lemma StripIdempotent(s: string)
    ensures Strip(Strip(s)) == Strip(s)
  {
    StripTrimmed(Strip(s));
  }

  /** `r` is the slice of `s` starting at `k`, and everything of `s` around it is whitespace. */
  predicate CutAt(s: string, r: string, k: int)
  {
    0 <= k && k + |r| <= |s| && r == s[k..k + |r|] &&
    (forall i | 0 <= i < k :: IsSpace(s[i])) &&
    (forall i | k + |r| <= i < |s| :: IsSpace(s[i]))
  }

  /** The strip of `s` is the slice of `s` left once the leading and trailing whitespace are cut off. */
  lemma {:induction false} StripIsSlice(s: string)
    ensures exists k :: CutAt(s, Strip(s), k)
    decreases |s|
  {
    var r := Strip(s);
    if |s| > 0 && IsSpace(s[0]) {
      StripIsSlice(s[1..]);
      var k :| CutAt(s[1..], r, k);
      assert r == s[k + 1..k + 1 + |r|];
      forall i | 0 <= i < k + 1
        ensures IsSpace(s[i])
      {
        if i > 0 {
          assert s[i] == s[1..][i - 1];
        }
      }
      forall i | k + 1 + |r| <= i < |s|
        ensures IsSpace(s[i])
      {
        assert s[i] == s[1..][i - 1];
      }
      assert CutAt(s, r, k + 1);
    } else if |s| > 0 && IsSpace(s[|s| - 1]) {
      var p := s[..|s| - 1];
      StripIsSlice(p);
      var k :| CutAt(p, r, k);
      assert r == s[k..k + |r|];
      assert forall i | 0 <= i < |p| :: s[i] == p[i];
      assert CutAt(s, r, k);
    } else {
      assert CutAt(s, r, 0);
    }
  }

  /** A field strips to the empty string exactly when it is made only of whitespace. */
  lemma {:induction false} StripEmptyIffAllSpace(s: string)
    ensures Strip(s) == [] <==> forall i | 0 <= i < |s| :: IsSpace(s[i])
  {
    StripIsSlice(s);
    if !forall i | 0 <= i < |s| :: IsSpace(s[i]) {
      var i :| 0 <= i < |s| && !IsSpace(s[i]);
      var k :| CutAt(s, Strip(s), k);
      assert k <= i < k + |Strip(s)|;
    } else {
      AllSpaceStripsEmpty(s);
    }
  }

  lemma {:induction false} AllSpaceStripsEmpty(s: string)
    requires forall i | 0 <= i < |s| :: IsSpace(s[i])
    ensures Strip(s) == []
    decreases |s|
  {
    if |s| > 0 {
      assert forall i | 0 <= i < |s| - 1 :: s[1..][i] == s[i + 1];
      AllSpaceStripsEmpty(s[1..]);
    }
  }

  // ---------------------------------------------------------------------------
  // Code-point order of strings (Python's `<` on `str`) and sorted listings
  // ---------------------------------------------------------------------------

  /** `a < b` for Python strings: a proper prefix is smaller, otherwise the first differing character decides. */
  predicate LexLt(a: string, b: string) {
    |b| > 0 && (|a| == 0 || a[0] < b[0] || (a[0] == b[0] && LexLt(a[1..], b[1..])))
  }

  lemma {:induction false} LexIrreflexive(a: string)
    ensures !LexLt(a, a)
  {
    if |a| > 0 {
      LexIrreflexive(a[1..]);
    }
  }

  lemma {:induction false} LexTransitive(a: string, b: string, c: string)
    requires LexLt(a, b) && LexLt(b, c)
    ensures LexLt(a, c)
  {
    if |a| > 0 && a[0] == b[0] && b[0] == c[0] {
      LexTransitive(a[1..], b[1..], c[1..]);
    }
  }

  lemma {:induction false} LexTotal(a: string, b: string)
    ensures a == b || LexLt(a, b) || LexLt(b, a)
  {
    if |a| > 0 && |b| > 0 && a[0] == b[0] {
      LexTotal(a[1..], b[1..]);
      if a[1..] == b[1..] {
        assert a == [a[0]] + a[1..] && b == [b[0]] + b[1..];
      }
    }
  }

  lemma LexAsymmetric(a: string, b: string)
    requires LexLt(a, b)
    ensures !LexLt(b, a)
  {
    if LexLt(b, a) {
      LexTransitive(a, b, a);
      LexIrreflexive(a);
    }
  }

  /** Strictly increasing in code-point order, hence also free of duplicates. */
  ghost predicate StrictlySorted(s: seq<string>) {
    forall i, j | 0 <= i < j < |s| :: LexLt(s[i], s[j])
  }

  ghost predicate IsLeast(m: string, s: set<string>) {
    m in s && forall y | y in s && y != m :: LexLt(m, y)
  }

  lemma {:induction false} LeastExists(s: set<string>)
    requires s != {}
    ensures exists m :: IsLeast(m, s)
    decreases |s|
  {
    var x :| x in s;
    if s == {x} {
      assert IsLeast(x, s);
    } else {
      var rest := s - {x};
      LeastExists(rest);
      var m :| IsLeast(m, rest);
      LexTotal(m, x);
      if LexLt(m, x) {
        assert IsLeast(m, s);
      } else {
        forall y | y in s && y != x
          ensures LexLt(x, y)
        {
          if y != m {
            LexTransitive(x, m, y);
          }
        }
        assert IsLeast(x, s);
      }
    }
  }

  /** `sorted(list(s))` for a set of distinct names: the unique strictly increasing listing of `s`. */
  ghost function SortedOf(s: set<string>): (r: seq<string>)
    ensures StrictlySorted(r)
    ensures |r| == |s|
    ensures forall x :: x in r <==> x in s
    decreases |s|
  {
    if s == {} then []
    else
      LeastExists(s);
      var m :| IsLeast(m, s);
      var rest := SortedOf(s - {m});
      assert forall j | 0 <= j < |rest| :: rest[j] in s - {m};
      [m] + rest
  }

  /** Two strictly increasing listings of the same names are the same listing. */
  lemma {:induction false} SortedUnique(a: seq<string>, b: seq<string>)
    requires StrictlySorted(a) && StrictlySorted(b)
    requires forall x :: x in a <==> x in b
    ensures a == b
  {
    // a head is a member, so a non-empty listing and an empty one cannot have the same members
    assert a != [] ==> a[0] in a;
    assert b != [] ==> b[0] in b;
    if a != [] && b != [] {
      if a[0] != b[0] {
        var i :| 0 <= i < |b| && b[i] == a[0];
        var j :| 0 <= j < |a| && a[j] == b[0];
        assert LexLt(b[0], a[0]);
        assert LexLt(a[0], b[0]);
        LexAsymmetric(a[0], b[0]);
      }
      TailMembers(a, b);
      TailMembers(b, a);
      SortedUnique(a[1..], b[1..]);
      assert a == [a[0]] + a[1..] && b == [b[0]] + b[1..];
    }
  }

  /** In strictly sorted listings with the same members and the same head, the tails have the same members. */
  lemma TailMembers(a: seq<string>, b: seq<string>)
    requires StrictlySorted(a) && StrictlySorted(b)
    requires forall x :: x in a <==> x in b
    requires a != [] && b != [] && a[0] == b[0]
    ensures forall x | x in a[1..] :: x in b[1..]
  {
    forall x | x in a[1..]
      ensures x in b[1..]
    {
      var i :| 1 <= i < |a| && a[i] == x;
      assert LexLt(a[0], x);
      LexIrreflexive(x);
      assert x in a;
      var j :| 0 <= j < |b| && b[j] == x;
      assert j != 0;
      assert b[1..][j - 1] == x;
    }
  }

  lemma InsertKeepsSorted(r: seq<string>, k: nat, x: string)
    requires k <= |r| && StrictlySorted(r)
    requires forall i | 0 <= i < k :: LexLt(r[i], x)
    requires forall i | k <= i < |r| :: LexLt(x, r[i])
    ensures StrictlySorted(r[..k] + [x] + r[k..])
    ensures forall y :: y in r[..k] + [x] + r[k..] <==> y in r || y == x
  {
    var t := r[..k] + [x] + r[k..];
    assert |t| == |r| + 1;
    assert forall i | 0 <= i < k :: t[i] == r[i];
    assert t[k] == x;
    assert forall i | k < i < |t| :: t[i] == r[i - 1];
    forall i, j | 0 <= i < j < |t|
      ensures LexLt(t[i], t[j])
    {
      if i < k && k < j {
        LexTransitive(r[i], x, r[j - 1]);
      }
    }
    assert r == r[..k] + r[k..];
  }

  /** Builds `sorted(list(s))` by inserting the names one at a time into a sorted list. */
  method SortNames(s: set<string>) returns (r: seq<string>)
    ensures r == SortedOf(s)
  {
    r := [];
    var pending := s;
    while pending != {}
      invariant pending <= s
      invariant StrictlySorted(r)
      invariant forall x :: x in r <==> x in s - pending
      decreases pending
    {
      var x :| x in pending;
      var k := 0;
      while k < |r| && LexLt(r[k], x)
        invariant 0 <= k <= |r|
        invariant forall i | 0 <= i < k :: LexLt(r[i], x)
      {
        k := k + 1;
      }
      assert x !in r;
      forall i | k <= i < |r|
        ensures LexLt(x, r[i])
      {
        assert r[k] != x;
        LexTotal(r[k], x);
        if i > k {
          LexTransitive(x, r[k], r[i]);
        }
      }
      InsertKeepsSorted(r, k, x);
      r := r[..k] + [x] + r[k..];
      pending := pending - {x};
    }
    SortedUnique(r, SortedOf(s));
  }
}
