/**
  k-shingles and the Jaccard score, which the near-duplicate detector
  (Logic/core/indexer/LSH.py) and the spell corrector
  (Logic/core/utility/spell_correction.py) define identically.
 */
module Shingling {

  /** The substring of length `k` starting at `i` (`s[i:i+k]`). */
  function Shingle(s: string, i: nat, k: nat): string
    requires i + k <= |s|
  {
    s[i..i + k]
  }

  /** `{s[i:i+k] for i in range(len(s) - k + 1)}`. */
  function Shingles(s: string, k: nat): (r: set<string>)
    ensures forall x :: x in r ==> |x| == k
  {
    set i: nat | i + k <= |s| :: Shingle(s, i, k)
  }

  /** The shingles are exactly the length-`k` substrings, and there are none when `s` is shorter than `k`. */
  lemma ShinglesSpec(s: string, k: nat, x: string)
    ensures x in Shingles(s, k) <==> exists i: nat :: i + k <= |s| && Shingle(s, i, k) == x
    ensures |s| < k ==> Shingles(s, k) == {}
  {
  }

  /** A string of at least `k` characters has its first `k` characters as a shingle. */
  lemma ShinglesNonEmpty(s: string, k: nat)
    requires k <= |s|
    ensures s[..k] in Shingles(s, k)
  {
    assert Shingle(s, 0, k) == s[..k];
  }

  /** `len(a & b) / len(a | b) if len(a | b) else 0.0`. */
  function Jaccard<T>(a: set<T>, b: set<T>): (r: real)
    ensures 0.0 <= r <= 1.0
  {
    if |a + b| == 0 then 0.0
    else
      assert a * b <= a + b;
      SubsetCardinality(a * b, a + b);
      |a * b| as real / |a + b| as real
  }

  lemma SubsetCardinality<T>(a: set<T>, b: set<T>)
    requires a <= b
    ensures |a| <= |b|
  {
    assert b == a + (b - a);
  }

  /** A subset with as many elements as the whole set is the whole set. */
  lemma SubsetEqual<T>(a: set<T>, b: set<T>)
    requires a <= b && |a| == |b|
    ensures a == b
  {
    if b - a != {} {
      var x :| x in b - a;
      assert a <= b - {x};
      SubsetCardinality(a, b - {x});
      assert false;
    }
    assert b <= a;
  }

  /** The score does not depend on the order of its arguments. */
  lemma JaccardSymmetric<T>(a: set<T>, b: set<T>)
    ensures Jaccard(a, b) == Jaccard(b, a)
  {
    assert a + b == b + a;
    assert a * b == b * a;
  }

  /** The score is positive exactly when the sets share an element. */
  lemma JaccardPositive<T>(a: set<T>, b: set<T>)
    ensures Jaccard(a, b) > 0.0 <==> a * b != {}
  {
    if a * b != {} {
      var x :| x in a * b;
      assert x in a + b;
    }
  }

  /** The score is 1 exactly when the sets are equal and non-empty. */
  lemma JaccardOne<T>(a: set<T>, b: set<T>)
    ensures Jaccard(a, b) == 1.0 <==> a == b && a != {}
  {
    if a == b && a != {} {
      assert a * b == a + b;
      assert |a + b| > 0;
    }
    if Jaccard(a, b) == 1.0 {
      assert |a * b| as real / |a + b| as real == 1.0;
      SubsetEqual(a * b, a + b);
      assert a == b by {
        forall x | x in a + b ensures x in a && x in b {
          assert x in a * b;
        }
      }
    }
  }
}
