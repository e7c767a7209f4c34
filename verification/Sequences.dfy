/** Searching and joining sequences: the shared vocabulary of the byte-level models. */
module Sequences {

  /** `pattern` stands in `s` at position `i`. */
  predicate OccursAt<T(==)>(s: seq<T>, pattern: seq<T>, i: nat) {
    i + |pattern| <= |s| && s[i..i + |pattern|] == pattern
  }

  /** The first position of `pattern` at or after `from`, or -1 (std::string::find with npos as -1). */
  function IndexFrom<T(==)>(s: seq<T>, pattern: seq<T>, from: nat): (r: int)
    ensures -1 <= r
    ensures r >= 0 ==> from <= r && OccursAt(s, pattern, r)
    ensures forall j: nat :: from <= j && (r >= 0 ==> j < r) ==> !OccursAt(s, pattern, j)
    decreases |s| - from
  {
    if from + |pattern| > |s| then -1
    else if OccursAt(s, pattern, from) then from
    else IndexFrom(s, pattern, from + 1)
  }

  function IndexOf<T(==)>(s: seq<T>, pattern: seq<T>): (r: int)
    ensures -1 <= r
    ensures r >= 0 ==> OccursAt(s, pattern, r)
    ensures forall j: nat :: (r >= 0 ==> j < r) ==> !OccursAt(s, pattern, j)
  {
    IndexFrom(s, pattern, 0)
  }

  /** A position that holds the pattern, with none before it, is the one that the search returns. */
  lemma FirstIs<T>(s: seq<T>, pattern: seq<T>, from: nat, n: nat)
    requires from <= n && OccursAt(s, pattern, n)
    requires forall j: nat :: from <= j < n ==> !OccursAt(s, pattern, j)
    ensures IndexFrom(s, pattern, from) == n
  {
  }

  lemma Mismatch<T>(s: seq<T>, pattern: seq<T>, i: nat, j: nat)
    requires j < |pattern| && i + j < |s| && s[i + j] != pattern[j]
    ensures !OccursAt(s, pattern, i)
  {
  }

  /** Appending changes no occurrence that was already complete. */
  lemma OccursInPrefix<T>(a: seq<T>, b: seq<T>, pattern: seq<T>, i: nat)
    requires i + |pattern| <= |a|
    ensures OccursAt(a + b, pattern, i) == OccursAt(a, pattern, i)
  {
    assert (a + b)[i..i + |pattern|] == a[i..i + |pattern|];
  }

  lemma OccursInSuffix<T>(s: seq<T>, pattern: seq<T>, k: nat, i: nat)
    requires k <= |s|
    ensures OccursAt(s[k..], pattern, i) == OccursAt(s, pattern, k + i)
  {
    if k + i + |pattern| <= |s| {
      assert s[k..][i..i + |pattern|] == s[k + i..k + i + |pattern|];
    }
  }

  lemma FoundStaysFound<T>(a: seq<T>, b: seq<T>, pattern: seq<T>)
    requires IndexOf(a, pattern) >= 0
    ensures IndexOf(a + b, pattern) == IndexOf(a, pattern)
  {
    var n := IndexOf(a, pattern);
    OccursInPrefix(a, b, pattern, n);
    forall j: nat | j < n ensures !OccursAt(a + b, pattern, j) {
      OccursInPrefix(a, b, pattern, j);
    }
    FirstIs(a + b, pattern, 0, n);
  }

  /** Bytes that arrive later can complete an occurrence only at the very end of what was there. */
  lemma FoundLater<T>(a: seq<T>, b: seq<T>, pattern: seq<T>)
    requires IndexOf(a, pattern) < 0
    ensures IndexOf(a + b, pattern) < 0 || IndexOf(a + b, pattern) > |a| - |pattern|
  {
    var n := IndexOf(a + b, pattern);
    if 0 <= n <= |a| - |pattern| {
      OccursInPrefix(a, b, pattern, n);
    }
  }

  /** Dropping a prefix in which no occurrence starts moves the first occurrence and nothing else. */
  lemma FoundAfterDrop<T>(s: seq<T>, pattern: seq<T>, k: nat)
    requires k <= |s|
    requires forall j: nat :: j < k ==> !OccursAt(s, pattern, j)
    ensures IndexOf(s, pattern) < 0 ==> IndexOf(s[k..], pattern) < 0
    ensures IndexOf(s, pattern) >= 0 ==> IndexOf(s[k..], pattern) == IndexOf(s, pattern) - k
  {
    var n := IndexOf(s, pattern);
    var m := IndexOf(s[k..], pattern);
    if m >= 0 {
      OccursInSuffix(s, pattern, k, m);
    }
    if n >= 0 {
      OccursInSuffix(s, pattern, k, n - k);
    }
  }

  lemma SliceOfRest<T>(s: seq<T>, a: nat, n: nat)
    requires a + n <= |s|
    ensures s[a..][..n] == s[a..a + n] && s[a..][n..] == s[a + n..]
  {
  }

  /** The elements of all pieces, in order. */
  function Concat<T>(pieces: seq<seq<T>>): seq<T> {
    if pieces == [] then [] else pieces[0] + Concat(pieces[1..])
  }

  lemma ConcatAppend<T>(a: seq<seq<T>>, b: seq<seq<T>>)
    ensures Concat(a + b) == Concat(a) + Concat(b)
  {
    if a == [] {
      assert a + b == b;
    } else {
      assert (a + b)[0] == a[0] && (a + b)[1..] == a[1..] + b;
      ConcatAppend(a[1..], b);
    }
  }
}
