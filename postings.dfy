/**
  One field's inverted sub-index: term -> {document id -> term frequency}, and
  the two primitive updates the indexer performs on it, token by token:
  `idx[term][doc_id] += 1` (creating entries as needed) and
  `del idx[term][doc_id]; if not idx[term]: del idx[term]`.
 */
module Postings {
  import opened Text

  type Posting = map<string, nat>
  type PostingIndex = map<string, Posting>

  /** The sub-index invariant: no empty posting map, and every stored count is at least 1. */
  ghost predicate WellFormed(p: PostingIndex) {
    forall t :: t in p ==> p[t] != map[] && forall d :: d in p[t] ==> p[t][d] >= 1
  }

  /** The frequency of `t` in document `d`, 0 when there is no entry. */
  function Tf(p: PostingIndex, t: string, d: string): nat {
    if t in p && d in p[t] then p[t][d] else 0
  }

  /** `idx[t][d] += 1`, or `idx[t][d] = 1` when there was no entry (the sub-index is a defaultdict). */
  function Inc(p: PostingIndex, t: string, d: string): PostingIndex {
    var posting := if t in p then p[t] else map[];
    p[t := posting[d := (if d in posting then posting[d] else 0) + 1]]
  }

  /** Counting every token of `toks`, in order, for document `d`. */
  function AddTokens(p: PostingIndex, d: string, toks: seq<string>): PostingIndex {
    if toks == [] then p else Inc(AddTokens(p, d, toks[..|toks| - 1]), toks[|toks| - 1], d)
  }

  /** The state after a removal step, and whether it raised `KeyError`. */
  datatype Removal = Removal(postings: PostingIndex, raised: bool)

  /**
    `del idx[t][d]` followed by `if not idx[t]: del idx[t]`. On the defaultdict
    sub-index, an absent term is first created with an empty posting map and the
    `del` then raises; a present term without `d` raises at once.
   */
  function Delete(p: PostingIndex, t: string, d: string): (r: Removal)
    ensures r.raised <==> t !in p || d !in p[t]
    ensures r.raised && t in p ==> r.postings == p
    ensures !r.raised ==> t !in r.postings || d !in r.postings[t]
    ensures forall u, e :: u in r.postings && e in r.postings[u] ==> u in p && e in p[u]
  {
    if t !in p then Removal(p[t := map[]], true)
    else if d !in p[t] then Removal(p, true)
    else
      var posting := p[t] - {d};
      if posting == map[] then Removal(p - {t}, false) else Removal(p[t := posting], false)
  }

  /** Deleting `d` once per token of `toks`, in order, stopping at the first raise. */
  function RemoveTokens(p: PostingIndex, d: string, toks: seq<string>): (r: Removal)
    ensures !r.raised ==> r.postings.Keys <= p.Keys
    ensures forall t, e :: t in r.postings && e in r.postings[t] ==> t in p && e in p[t]
  {
    if toks == [] then Removal(p, false)
    else
      var r := RemoveTokens(p, d, toks[..|toks| - 1]);
      if r.raised then r else Delete(r.postings, toks[|toks| - 1], d)
  }

  /** `d` has no entry anywhere in `p`. */
  ghost predicate Absent(p: PostingIndex, d: string) {
    forall t :: t in p ==> d !in p[t]
  }

  /** Counting one more token is one more `Inc`. */
  lemma AddTokensSnoc(p: PostingIndex, d: string, toks: seq<string>, t: string)
    ensures AddTokens(p, d, toks + [t]) == Inc(AddTokens(p, d, toks), t, d)
  {
    assert (toks + [t])[..|toks|] == toks;
  }

  /** Counting `a + b` is counting `a`, then `b`. */
  lemma {:induction false} AddTokensAppend(p: PostingIndex, d: string, a: seq<string>, b: seq<string>)
    ensures AddTokens(p, d, a + b) == AddTokens(AddTokens(p, d, a), d, b)
  {
    if b == [] {
      assert a + b == a;
    } else {
      var n := |b| - 1;
      AddTokensAppend(p, d, a, b[..n]);
      assert a + b == (a + b[..n]) + [b[n]];
      AddTokensSnoc(p, d, a + b[..n], b[n]);
    }
  }

  /** Removing one more token is one more `Delete`, unless a raise already happened. */
  lemma RemoveTokensSnoc(p: PostingIndex, d: string, toks: seq<string>, t: string)
    ensures RemoveTokens(p, d, toks + [t]) ==
      var r := RemoveTokens(p, d, toks);
      if r.raised then r else Delete(r.postings, t, d)
  {
    assert (toks + [t])[..|toks|] == toks;
  }

  // ----- counting -----

  lemma IncTf(p: PostingIndex, t0: string, d0: string, t: string, d: string)
    ensures Tf(Inc(p, t0, d0), t, d) == Tf(p, t, d) + (if t == t0 && d == d0 then 1 else 0)
  {
  }

  /** Adding tokens raises `d`'s count of each term by its number of occurrences, and nothing else. */
  lemma {:induction false} AddTokensTf(p: PostingIndex, d: string, toks: seq<string>, t: string, e: string)
    ensures Tf(AddTokens(p, d, toks), t, e) == Tf(p, t, e) + (if e == d then Count(toks, t) else 0)
  {
    if toks != [] {
      AddTokensTf(p, d, toks[..|toks| - 1], t, e);
      IncTf(AddTokens(p, d, toks[..|toks| - 1]), toks[|toks| - 1], d, t, e);
    }
  }

  /** Adding tokens keeps the sub-index invariant. */
  lemma {:induction false} AddTokensWellFormed(p: PostingIndex, d: string, toks: seq<string>)
    requires WellFormed(p)
    ensures WellFormed(AddTokens(p, d, toks))
  {
    if toks != [] {
      AddTokensWellFormed(p, d, toks[..|toks| - 1]);
    }
  }

  /** A term that is not among the tokens keeps exactly its old entry (or its absence). */
  lemma {:induction false} AddTokensOthers(p: PostingIndex, d: string, toks: seq<string>, t: string)
    requires t !in toks
    ensures t in AddTokens(p, d, toks) <==> t in p
    ensures t in p ==> AddTokens(p, d, toks)[t] == p[t]
  {
    if toks != [] {
      AddTokensOthers(p, d, toks[..|toks| - 1], t);
    }
  }

  /** A term among the tokens gains exactly `d`'s entry, with count old + occurrences. */
  lemma {:induction false} AddTokensMentioned(p: PostingIndex, d: string, toks: seq<string>, t: string)
    requires t in toks
    ensures t in AddTokens(p, d, toks)
    ensures AddTokens(p, d, toks)[t] == (if t in p then p[t] else map[])[d := Tf(p, t, d) + Count(toks, t)]
  {
    var n := |toks|;
    var prefix := toks[..n - 1];
    var q := AddTokens(p, d, prefix);
    if t in prefix {
      AddTokensMentioned(p, d, prefix, t);
    } else {
      AddTokensOthers(p, d, prefix, t);
      CountZeroNotIn(prefix, t);
    }
    AddTokensTf(p, d, prefix, t, d);
  }

  /** `q` is `p` with `d`'s count of each term raised by its occurrences in `toks`, and well formed. */
  ghost predicate Added(p: PostingIndex, q: PostingIndex, d: string, toks: seq<string>) {
    WellFormed(q) && forall t, e :: Tf(q, t, e) == Tf(p, t, e) + (if e == d then Count(toks, t) else 0)
  }

  /** `q` is `p` with `d`'s entry dropped from every term of `toks`, and well formed. */
  ghost predicate Removed(p: PostingIndex, q: PostingIndex, d: string, toks: seq<string>) {
    WellFormed(q) && forall t, e :: Tf(q, t, e) == if e == d && t in toks then 0 else Tf(p, t, e)
  }

  lemma AddTokensAdded(p: PostingIndex, d: string, toks: seq<string>)
    requires WellFormed(p)
    ensures Added(p, AddTokens(p, d, toks), d, toks)
  {
    AddTokensWellFormed(p, d, toks);
    forall t, e ensures Tf(AddTokens(p, d, toks), t, e) == Tf(p, t, e) + (if e == d then Count(toks, t) else 0) {
      AddTokensTf(p, d, toks, t, e);
    }
  }

  // ----- equality from frequencies -----

  /** Two well-formed sub-indexes with the same frequencies everywhere are equal. */
  lemma SameTfEqual(p: PostingIndex, q: PostingIndex)
    requires WellFormed(p) && WellFormed(q)
    requires forall t, d :: Tf(p, t, d) == Tf(q, t, d)
    ensures p == q
  {
    forall t | t in p ensures t in q {
      var d :| d in p[t];
      assert Tf(p, t, d) >= 1;
    }
    forall t | t in q ensures t in p {
      var d :| d in q[t];
      assert Tf(q, t, d) >= 1;
    }
    forall t | t in p ensures p[t] == q[t] {
      forall d | d in p[t] ensures d in q[t] && p[t][d] == q[t][d] {
        assert Tf(p, t, d) == Tf(q, t, d);
      }
      forall d | d in q[t] ensures d in p[t] {
        assert Tf(p, t, d) == Tf(q, t, d);
      }
    }
  }

  // ----- removal -----

  lemma DeleteTf(p: PostingIndex, t0: string, d0: string)
    requires WellFormed(p) && Tf(p, t0, d0) > 0
    ensures !Delete(p, t0, d0).raised
    ensures WellFormed(Delete(p, t0, d0).postings)
    ensures forall t, d :: Tf(Delete(p, t0, d0).postings, t, d) == if t == t0 && d == d0 then 0 else Tf(p, t, d)
  {
    var posting := p[t0] - {d0};
    var r := Delete(p, t0, d0).postings;
    forall t, d ensures Tf(r, t, d) == if t == t0 && d == d0 then 0 else Tf(p, t, d) {
      if t == t0 {
        if posting != map[] {
          assert r[t] == posting;
        } else {
          assert d != d0 && d in p[t] ==> d in posting;
        }
      } else if t in p {
        assert t in r && r[t] == p[t];
      }
    }
  }

  /** A raise is final: later tokens change nothing. */
  lemma {:induction false} RemoveTokensRaisedStays(p: PostingIndex, d: string, a: seq<string>, b: seq<string>)
    requires RemoveTokens(p, d, a).raised
    ensures RemoveTokens(p, d, a + b) == RemoveTokens(p, d, a)
  {
    if b == [] {
      assert a + b == a;
    } else {
      RemoveTokensRaisedStays(p, d, a, b[..|b| - 1]);
      assert (a + b)[..|a + b| - 1] == a + b[..|b| - 1];
    }
  }

  /**
    Removal succeeds exactly when the tokens are distinct and each term is present
    with an entry for `d`; it then zeroes `d`'s count of every token term, keeps
    every other count, and keeps the sub-index invariant.
   */
  lemma {:induction false} RemoveTokensSpec(p: PostingIndex, d: string, toks: seq<string>)
    requires WellFormed(p)
    ensures !RemoveTokens(p, d, toks).raised <==>
      Distinct(toks) && forall i :: 0 <= i < |toks| ==> Tf(p, toks[i], d) > 0
    ensures !RemoveTokens(p, d, toks).raised ==> Removed(p, RemoveTokens(p, d, toks).postings, d, toks)
  {
    if toks != [] {
      var prefix, last := toks[..|toks| - 1], toks[|toks| - 1];
      RemoveTokensSpec(p, d, prefix);
      var r := RemoveTokens(p, d, prefix);
      SnocLast(toks);
      if !r.raised {
        RemoveLastSpec(p, d, prefix, last, r.postings);
      }
      DistinctSnoc(toks);
      IndexedSnoc(p, d, toks, prefix, last);
    }
  }

  /** Every token is indexed for `d` when the earlier ones and the last one are. */
  lemma IndexedSnoc(p: PostingIndex, d: string, toks: seq<string>, prefix: seq<string>, last: string)
    requires toks == prefix + [last]
    ensures (forall i :: 0 <= i < |toks| ==> Tf(p, toks[i], d) > 0) <==>
      (forall i :: 0 <= i < |prefix| ==> Tf(p, prefix[i], d) > 0) && Tf(p, last, d) > 0
  {
    assert forall i :: 0 <= i < |prefix| ==> prefix[i] == toks[i];
    assert toks[|prefix|] == last;
  }

  /**
    After the earlier tokens were removed, deleting the last one succeeds exactly
    when it is new and indexed for `d` in the original, and then only its entry goes.
   */
  lemma RemoveLastSpec(p: PostingIndex, d: string, prefix: seq<string>, last: string, q: PostingIndex)
    requires WellFormed(p) && Removed(p, q, d, prefix)
    ensures !Delete(q, last, d).raised <==> last !in prefix && Tf(p, last, d) > 0
    ensures !Delete(q, last, d).raised ==> Removed(p, Delete(q, last, d).postings, d, prefix + [last])
  {
    assert Tf(q, last, d) == (if last in prefix then 0 else Tf(p, last, d));
    if Tf(q, last, d) > 0 {
      DeleteTf(q, last, d);
      var res := Delete(q, last, d).postings;
      forall t, e ensures Tf(res, t, e) == if e == d && t in prefix + [last] then 0 else Tf(p, t, e) {
        assert t in prefix + [last] <==> t in prefix || t == last;
      }
    }
  }

  /**
    Adding the distinct tokens of a document that has no entry anywhere, then
    removing them, gives the sub-index back.
   */
  lemma AddThenRemoveTokens(p: PostingIndex, d: string, toks: seq<string>)
    requires WellFormed(p) && Absent(p, d) && Distinct(toks)
    ensures RemoveTokens(AddTokens(p, d, toks), d, toks) == Removal(p, false)
  {
    var q := AddTokens(p, d, toks);
    AddTokensWellFormed(p, d, toks);
    forall i | 0 <= i < |toks| ensures Tf(q, toks[i], d) > 0 {
      AddTokensTf(p, d, toks, toks[i], d);
      CountZeroNotIn(toks, toks[i]);
    }
    RemoveTokensSpec(q, d, toks);
    var r := RemoveTokens(q, d, toks).postings;
    forall t, e ensures Tf(r, t, e) == Tf(p, t, e) {
      AddTokensTf(p, d, toks, t, e);
      CountZeroNotIn(toks, t);
    }
    SameTfEqual(r, p);
  }
}
