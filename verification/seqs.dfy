/** Facts about sequences and finite sets used by the crawl and the parsers. */
module Seqs {

  /** No element occurs twice. */
  predicate NoDups<T(==)>(s: seq<T>)
  {
    forall i, j :: 0 <= i < j < |s| ==> s[i] != s[j]
  }

  /** The set of elements of a sequence. */
  function Elems<T(!new)>(s: seq<T>): set<T>
  {
    set x | x in s
  }

  /** Index of the first occurrence of `c` in `s`, or `|s|` when there is none. */
  function IndexOf<T(==)>(s: seq<T>, c: T): (r: nat)
    ensures r <= |s|
    ensures r < |s| ==> s[r] == c
    ensures forall j :: 0 <= j < r ==> s[j] != c
  {
    if s == [] then 0
    else if s[0] == c then 0
    else 1 + IndexOf(s[1..], c)
  }

  /** `IndexOf` is pinned down by a first occurrence. */
  lemma IndexOfFirst<T>(s: seq<T>, c: T, k: nat)
    requires k <= |s|
    requires k < |s| ==> s[k] == c
    requires forall j :: 0 <= j < k ==> s[j] != c
    ensures IndexOf(s, c) == k
  {
  }

  /** `s` begins with `p`. */
  predicate StartsWith<T(==)>(s: seq<T>, p: seq<T>)
  {
    |p| <= |s| && s[..|p|] == p
  }

  /** `s` ends with `p`. */
  predicate EndsWith<T(==)>(s: seq<T>, p: seq<T>)
  {
    |p| <= |s| && s[|s| - |p|..] == p
  }

  /** A subset of a finite set is no larger. */
  lemma {:induction false} SubsetCard<T>(a: set<T>, b: set<T>)
    requires a <= b
    ensures |a| <= |b|
    decreases a
  {
    if a != {} {
      var x :| x in a;
      SubsetCard(a - {x}, b - {x});
    }
  }

  /** The number of members of `universe` not yet listed in `s`. */
  function Unvisited<T(!new)>(universe: set<T>, s: seq<T>): nat
  {
    |universe - Elems(s)|
  }

  /** Listing a fresh member of the universe lowers the count of unlisted ones. */
  lemma AppendFreshShrinks<T(!new)>(universe: set<T>, s: seq<T>, x: T)
    requires x in universe && x !in s
    ensures Unvisited(universe, s + [x]) < Unvisited(universe, s)
  {
    var before := universe - Elems(s);
    var after := universe - Elems(s + [x]);
    assert after == before - {x};
    assert x in before;
  }

  /** Extending a listing never raises the count of unlisted members. */
  lemma PrefixNoGrow<T(!new)>(universe: set<T>, s: seq<T>, t: seq<T>)
    requires s <= t
    ensures Unvisited(universe, t) <= Unvisited(universe, s)
  {
    assert universe - Elems(t) <= universe - Elems(s);
    SubsetCard(universe - Elems(t), universe - Elems(s));
  }
}
