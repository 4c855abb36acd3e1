/** Bounded first-in first-out retention, shared by every ring and window of the runtime. */
module Retention {

  /** The last `n` elements, or all of them when there are fewer. */
  function Last<T>(s: seq<T>, n: nat): (r: seq<T>)
    ensures |r| == if |s| <= n then |s| else n
  {
    if |s| <= n then s else s[|s| - n..]
  }

  lemma LastAt<T>(s: seq<T>, n: nat, k: nat)
    requires k < |Last(s, n)|
    ensures Last(s, n)[k] == s[|s| - |Last(s, n)| + k]
  {}

  /** Retaining at every step is retaining once at the end. */
  lemma LastSnoc<T>(s: seq<T>, x: T, n: nat)
    ensures Last(Last(s, n) + [x], n) == Last(s + [x], n)
  {}

  ghost predicate NoDuplicates<T>(s: seq<T>)
  {
    forall i, j :: 0 <= i < j < |s| ==> s[i] != s[j]
  }

  function Elements<T(==)>(s: seq<T>): (r: set<T>)
  {
    set x | x in s
  }

  lemma NoDuplicatesSnoc<T>(s: seq<T>, x: T)
    requires NoDuplicates(s) && x !in Elements(s)
    ensures NoDuplicates(s + [x]) && Elements(s + [x]) == Elements(s) + {x}
  {}

  /** Dropping a prefix of a duplicate-free sequence removes exactly the prefix's elements. */
  lemma DropElements<T>(s: seq<T>, cut: nat)
    requires NoDuplicates(s) && cut <= |s|
    ensures Elements(s[cut..]) == Elements(s) - Elements(s[..cut])
  {
    assert s == s[..cut] + s[cut..];
    forall x | x in s[cut..]
      ensures x !in s[..cut]
    {
      var i :| cut <= i < |s| && s[i] == x;
      assert forall j :: 0 <= j < cut ==> s[j] != s[i];
    }
  }

  lemma {:induction false} DistinctCount<T>(s: seq<T>)
    requires NoDuplicates(s)
    ensures |Elements(s)| == |s|
  {
    if s != [] {
      var front := s[..|s| - 1];
      DistinctCount(front);
      assert Elements(s) == Elements(front) + {s[|s| - 1]} by {
        assert s == front + [s[|s| - 1]];
      }
    }
  }

  ghost function Range(lo: int, hi: int): (r: set<int>)
    ensures forall i :: i in r <==> lo < i <= hi
    ensures |r| == if lo <= hi then hi - lo else 0
    decreases hi - lo
  {
    if hi <= lo then {} else Range(lo, hi - 1) + {hi}
  }

  lemma {:induction false} SubsetCount<T>(a: set<T>, b: set<T>)
    requires a <= b
    ensures |a| <= |b|
  {
    if a != {} {
      var x :| x in a;
      SubsetCount(a - {x}, b - {x});
    }
  }

  /** Distinct integers inside `(lo, hi]` number at most `hi - lo`. */
  lemma Pigeonhole(s: seq<int>, lo: int, hi: int)
    requires NoDuplicates(s) && lo <= hi && forall i :: 0 <= i < |s| ==> lo < s[i] <= hi
    ensures |s| <= hi - lo
  {
    DistinctCount(s);
    SubsetCount(Elements(s), Range(lo, hi));
  }
}
