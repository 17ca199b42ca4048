/**
  The tiered index (Logic/core/indexer/tiered_index.py): each posting
  sub-index is split into three tiers by the total of a term's posting counts.
  A term whose total exceeds the first threshold goes to the first tier, one
  whose total exceeds only the second threshold to the second, and every other
  term to the third; each tier keeps the term's posting map as it was.
 */
module TieredIndex {
  import opened Results
  import opened Sums
  import opened Postings
  import opened InvertedIndex

  /** `{"first_tier": ..., "second_tier": ..., "third_tier": ...}`. */
  datatype Tiers = Tiers(firstTier: PostingIndex, secondTier: PostingIndex, thirdTier: PostingIndex)

  /** `sum(counts.values())`: the total count of a term over all documents. */
  ghost function Total(counts: Posting): int {
    Sum(counts)
  }

  /**
    `r` is the tiering of `p`: a term is in the first tier iff its total exceeds
    `t1`, in the second iff it does not but exceeds `t2`, in the third iff it
    exceeds neither (a total equal to a threshold falls to the lower tier), and
    every tier keeps the term's posting map unchanged.
   */
  ghost predicate IsTiering(p: PostingIndex, t1: int, t2: int, r: Tiers) {
    && (forall t :: t in r.firstTier <==> t in p && Total(p[t]) > t1)
    && (forall t :: t in r.secondTier <==> t in p && Total(p[t]) <= t1 && Total(p[t]) > t2)
    && (forall t :: t in r.thirdTier <==> t in p && Total(p[t]) <= t1 && Total(p[t]) <= t2)
    && (forall t :: t in r.firstTier ==> r.firstTier[t] == p[t])
    && (forall t :: t in r.secondTier ==> r.secondTier[t] == p[t])
    && (forall t :: t in r.thirdTier ==> r.thirdTier[t] == p[t])
  }

  /** The three tiers of `p` at thresholds `t1` and `t2`. */
  ghost function TieringOf(p: PostingIndex, t1: int, t2: int): Tiers {
    Tiers(
      map t | t in p && Total(p[t]) > t1 :: p[t],
      map t | t in p && Total(p[t]) <= t1 && Total(p[t]) > t2 :: p[t],
      map t | t in p && Total(p[t]) <= t1 && Total(p[t]) <= t2 :: p[t])
  }

  /** `TieringOf` places every term by its total and keeps its posting map. */
  lemma TieringOfIsTiering(p: PostingIndex, t1: int, t2: int)
    ensures IsTiering(p, t1, t2, TieringOf(p, t1, t2))
  {
  }

  /** Two maps with the same keys and the same value at each key are equal. */
  lemma SameEntries<K, V>(a: map<K, V>, b: map<K, V>)
    requires forall k :: k in a <==> k in b
    requires forall k :: k in a ==> a[k] == b[k]
    ensures a == b
  {
  }

  /** The tiering is unique: any tiers that place and keep every term as `IsTiering` demands are `TieringOf`. */
  lemma TieringUnique(p: PostingIndex, t1: int, t2: int, r: Tiers)
    requires IsTiering(p, t1, t2, r)
    ensures r == TieringOf(p, t1, t2)
  {
    var q := TieringOf(p, t1, t2);
    SameEntries(r.firstTier, q.firstTier);
    SameEntries(r.secondTier, q.secondTier);
    SameEntries(r.thirdTier, q.thirdTier);
  }

  /** The tiers are pairwise disjoint and together hold exactly the terms of the index. */
  lemma TieringPartitions(p: PostingIndex, t1: int, t2: int, r: Tiers)
    requires IsTiering(p, t1, t2, r)
    ensures r.firstTier.Keys !! r.secondTier.Keys
    ensures r.firstTier.Keys !! r.thirdTier.Keys
    ensures r.secondTier.Keys !! r.thirdTier.Keys
    ensures r.firstTier.Keys + r.secondTier.Keys + r.thirdTier.Keys == p.Keys
  {
  }

  /**
    With the genres thresholds (1, 0), a well-formed index has no term in the
    third tier: every posting map is non-empty and every count is at least 1.
   */
  lemma GenresThirdTierEmpty(p: PostingIndex, r: Tiers)
    requires WellFormed(p) && IsTiering(p, 1, 0, r)
    ensures r.thirdTier == map[]
  {
    forall t | t in p ensures Total(p[t]) > 0 {
      SumAtLeastSize(p[t]);
    }
  }

  /** A term's tier depends only on its total, and a larger total never ranks lower. */
  lemma TieringMonotone(p: PostingIndex, t1: int, t2: int, r: Tiers, a: string, b: string)
    requires IsTiering(p, t1, t2, r) && a in p && b in p && Total(p[a]) >= Total(p[b])
    ensures b in r.firstTier ==> a in r.firstTier
    ensures b in r.secondTier ==> a in r.firstTier || a in r.secondTier
  {
  }

  class Tiered {
    /** The three loaded posting sub-indexes, by kind. */
    var index: map<Kind, PostingIndex>
    var tieredIndex: map<Kind, Tiers>

    /** Tiers stars at (3, 2), summaries at (10, 5) and genres at (1, 0). */
    constructor (stars: PostingIndex, genres: PostingIndex, summaries: PostingIndex)
      ensures index == map[Stars := stars, Genres := genres, Summaries := summaries]
      ensures tieredIndex == map[Stars := TieringOf(stars, 3, 2), Summaries := TieringOf(summaries, 10, 5),
                                 Genres := TieringOf(genres, 1, 0)]
    {
      index := map[Stars := stars, Genres := genres, Summaries := summaries];
      new;
      var s := ConvertToTieredIndex(3, 2, Stars);
      var m := ConvertToTieredIndex(10, 5, Summaries);
      var g := ConvertToTieredIndex(1, 0, Genres);
      tieredIndex := map[Stars := s.value, Summaries := m.value, Genres := g.value];
    }

    /** `convert_to_tiered_index(first_tier_threshold, second_tier_threshold, index_name)`. */
    method ConvertToTieredIndex(firstTierThreshold: int, secondTierThreshold: int, indexName: Kind)
      returns (r: Result<Tiers>)
      ensures r.Ok? <==> indexName in index
      ensures r.Err? ==> r.error == ValueError
      ensures r.Ok? ==> r.value == TieringOf(index[indexName], firstTierThreshold, secondTierThreshold)
    {
      if indexName !in index {
        return Err(ValueError);
      }
      var current := index[indexName];
      var first: PostingIndex := map[];
      var second: PostingIndex := map[];
      var third: PostingIndex := map[];
      var rest := current.Keys;
      while rest != {}
        invariant rest <= current.Keys
        invariant forall t :: t in first <==> t in current && t !in rest && Total(current[t]) > firstTierThreshold
        invariant forall t :: t in second <==>
          (t in current && t !in rest && Total(current[t]) <= firstTierThreshold && Total(current[t]) > secondTierThreshold)
        invariant forall t :: t in third <==>
          (t in current && t !in rest && Total(current[t]) <= firstTierThreshold && Total(current[t]) <= secondTierThreshold)
        invariant forall t :: t in first ==> first[t] == current[t]
        invariant forall t :: t in second ==> second[t] == current[t]
        invariant forall t :: t in third ==> third[t] == current[t]
        decreases rest
      {
        var key :| key in rest;
        var counts := current[key];
        var sumCounts := SumValues(counts);
        if sumCounts > firstTierThreshold {
          first := first[key := counts];
        } else if sumCounts > secondTierThreshold {
          second := second[key := counts];
        } else {
          third := third[key := counts];
        }
        rest := rest - {key};
      }
      assert IsTiering(current, firstTierThreshold, secondTierThreshold, Tiers(first, second, third));
      TieringUnique(current, firstTierThreshold, secondTierThreshold, Tiers(first, second, third));
      return Ok(Tiers(first, second, third));
    }
  }
}
