/**
  The inverted index (Logic/core/indexer/index.py): a `documents` sub-index
  (id -> document) and three posting sub-indexes (`stars`, `genres`,
  `summaries`: term -> {id -> tf}), built from the preprocessed documents and
  updated in place by `add_document_to_index` and `remove_document_from_index`.

  The builders `index_stars` and `index_summaries` count the whitespace tokens
  of every entry of the field; `index_genres` counts each whole genre string.
  Adding and removing split every field, genres included, on whitespace.
  The three posting sub-indexes built by the constructor are default
  dictionaries, so a lookup of an absent term inserts an empty posting map.
 */
module InvertedIndex {
  import opened Results
  import opened Text
  import opened Postings

  /** The four sub-index kinds, the keys of `self.index`. */
  datatype Kind = Documents | Stars | Genres | Summaries

  function KindName(k: Kind): string {
    match k
    case Documents => "documents"
    case Stars => "stars"
    case Genres => "genres"
    case Summaries => "summaries"
  }

  /** Looking an index type name up among the keys of `self.index`. */
  function KindOf(name: string): (r: Option<Kind>)
    ensures r.Some? ==> KindName(r.value) == name
    ensures r.None? ==> forall k: Kind :: KindName(k) != name
  {
    if name == "documents" then Some(Documents)
    else if name == "stars" then Some(Stars)
    else if name == "genres" then Some(Genres)
    else if name == "summaries" then Some(Summaries)
    else None
  }

  /** A multi-valued field of a document: absent, `None`, or a list of strings. */
  datatype FieldValue = Missing | Null | Values(items: seq<string>)

  /**
    A preprocessed document: its id, the three indexed fields, and the other
    (pass-through) fields by name.
   */
  datatype Document = Document(
    id: string,
    stars: FieldValue,
    genres: FieldValue,
    summaries: FieldValue,
    extra: map<string, string>)

  function Field(doc: Document, k: Kind): FieldValue
    requires k != Documents
  {
    match k
    case Stars => doc.stars
    case Genres => doc.genres
    case Summaries => doc.summaries
  }

  /** Python truthiness of a field value: a non-empty list. */
  predicate Truthy(f: FieldValue) {
    f.Values? && f.items != []
  }

  /** The keys of the document's dictionary. */
  function DocumentKeys(doc: Document): set<string> {
    {"id"} + doc.extra.Keys
    + (if doc.stars.Missing? then {} else {"stars"})
    + (if doc.genres.Missing? then {} else {"genres"})
    + (if doc.summaries.Missing? then {} else {"summaries"})
  }

  /** The terms of one field entry: its whitespace tokens, or the whole entry. */
  function ItemTerms(item: string, split: bool): seq<string> {
    if split then Split(item) else [item]
  }

  /** The terms of all entries, in order. */
  function Terms(items: seq<string>, split: bool): seq<string> {
    if items == [] then [] else Terms(items[..|items| - 1], split) + ItemTerms(items[|items| - 1], split)
  }

  /** The terms a field contributes: none unless it is a non-empty list. */
  function FieldTerms(f: FieldValue, split: bool): seq<string> {
    if Truthy(f) then Terms(f.items, split) else []
  }

  /** Whether the builder splits a field's entries: every field but genres. */
  function BuildSplits(k: Kind): bool {
    k != Genres
  }

  datatype IndexState = IndexState(
    documents: map<string, Document>,
    stars: PostingIndex,
    genres: PostingIndex,
    summaries: PostingIndex)

  function Sub(s: IndexState, k: Kind): PostingIndex
    requires k != Documents
  {
    match k
    case Stars => s.stars
    case Genres => s.genres
    case Summaries => s.summaries
  }

  function WithSub(s: IndexState, k: Kind, p: PostingIndex): (r: IndexState)
    requires k != Documents
    ensures Sub(r, k) == p && r.documents == s.documents
    ensures forall j :: j != Documents && j != k ==> Sub(r, j) == Sub(s, j)
  {
    match k
    case Stars => s.(stars := p)
    case Genres => s.(genres := p)
    case Summaries => s.(summaries := p)
  }

  /** Every document is stored under its own id, and every posting sub-index is well formed. */
  ghost predicate WellFormedState(s: IndexState) {
    && (forall id :: id in s.documents ==> s.documents[id].id == id)
    && WellFormed(s.stars) && WellFormed(s.genres) && WellFormed(s.summaries)
  }

  // ----- construction -----

  /** `{doc['id']: doc for doc in docs}`: later documents overwrite earlier ones with the same id. */
  function IndexDocuments(docs: seq<Document>): (r: map<string, Document>)
    ensures forall id :: id in r ==> r[id].id == id
  {
    if docs == [] then map[]
    else IndexDocuments(docs[..|docs| - 1])[docs[|docs| - 1].id := docs[|docs| - 1]]
  }

  /** No later document carries the id of `docs[i]`. */
  predicate LastWithId(docs: seq<Document>, i: int)
    requires 0 <= i < |docs|
  {
    forall j :: i < j < |docs| ==> docs[j].id != docs[i].id
  }

  /** Every document's id is present, and only those ids are. */
  lemma {:induction false} IndexDocumentsKeys(docs: seq<Document>)
    ensures forall i :: 0 <= i < |docs| ==> docs[i].id in IndexDocuments(docs)
    ensures forall id :: id in IndexDocuments(docs) ==> exists i :: 0 <= i < |docs| && docs[i].id == id
  {
    if docs != [] {
      var n := |docs| - 1;
      var pre := docs[..n];
      IndexDocumentsKeys(pre);
      var r := IndexDocuments(docs);
      assert r == IndexDocuments(pre)[docs[n].id := docs[n]];
      forall i | 0 <= i < |docs| ensures docs[i].id in r {
        if i < n {
          assert pre[i] == docs[i];
        }
      }
      forall id | id in r ensures exists i :: 0 <= i < |docs| && docs[i].id == id {
        if id != docs[n].id {
          var i :| 0 <= i < n && pre[i].id == id;
          assert docs[i].id == id;
        }
      }
    }
  }

  /** A later document with the same id overwrites an earlier one: each id maps to the last document carrying it. */
  lemma {:induction false} IndexDocumentsLast(docs: seq<Document>, i: int)
    requires 0 <= i < |docs| && LastWithId(docs, i)
    ensures docs[i].id in IndexDocuments(docs) && IndexDocuments(docs)[docs[i].id] == docs[i]
  {
    var n := |docs| - 1;
    if i < n {
      var pre := docs[..n];
      assert pre[i] == docs[i];
      assert docs[n].id != docs[i].id;
      assert LastWithId(pre, i) by {
        forall j | i < j < n ensures pre[j].id != pre[i].id {
          assert pre[j] == docs[j];
        }
      }
      IndexDocumentsLast(pre, i);
    }
  }

  /** The posting sub-index the builder produces for field `k`. */
  function BuildField(docs: seq<Document>, k: Kind): PostingIndex
    requires k != Documents
  {
    if docs == [] then map[]
    else
      var last := docs[|docs| - 1];
      AddTokens(BuildField(docs[..|docs| - 1], k), last.id, FieldTerms(Field(last, k), BuildSplits(k)))
  }

  function Build(docs: seq<Document>): IndexState {
    IndexState(IndexDocuments(docs), BuildField(docs, Stars), BuildField(docs, Genres), BuildField(docs, Summaries))
  }

  /**
    The number of times term `t` occurs in field `k` across all documents with id
    `d` (documents sharing an id accumulate under it).
   */
  function DocTf(docs: seq<Document>, k: Kind, d: string, t: string): nat
    requires k != Documents
  {
    if docs == [] then 0
    else
      var last := docs[|docs| - 1];
      DocTf(docs[..|docs| - 1], k, d, t)
      + (if last.id == d then Count(FieldTerms(Field(last, k), BuildSplits(k)), t) else 0)
  }

  /**
    `index[term][id]` is the number of occurrences of `term` in field `k` of the
    documents with that id; every count is at least 1 and no posting map is empty.
   */
  lemma {:induction false} BuildFieldCounts(docs: seq<Document>, k: Kind, t: string, d: string)
    requires k != Documents
    ensures WellFormed(BuildField(docs, k))
    ensures Tf(BuildField(docs, k), t, d) == DocTf(docs, k, d, t)
  {
    if docs != [] {
      var n := |docs| - 1;
      BuildFieldCounts(docs[..n], k, t, d);
      AddTokensWellFormed(BuildField(docs[..n], k), docs[n].id, FieldTerms(Field(docs[n], k), BuildSplits(k)));
      AddTokensTf(BuildField(docs[..n], k), docs[n].id, FieldTerms(Field(docs[n], k), BuildSplits(k)), t, d);
    }
  }

  /** Genres are not split: the terms of a genre list are the genre strings themselves. */
  lemma {:induction false} GenreTermsUnsplit(items: seq<string>)
    ensures Terms(items, BuildSplits(Genres)) == items
  {
    if items != [] {
      GenreTermsUnsplit(items[..|items| - 1]);
      assert items == items[..|items| - 1] + [items[|items| - 1]];
    }
  }

  lemma BuildWellFormed(docs: seq<Document>)
    ensures WellFormedState(Build(docs))
  {
    BuildFieldCounts(docs, Stars, "", "");
    BuildFieldCounts(docs, Genres, "", "");
    BuildFieldCounts(docs, Summaries, "", "");
  }

  // ----- lookup -----

  /** What `get_posting_list(word, index_type)` returns, as a set of ids. */
  function PostingList(s: IndexState, word: string, indexType: string): (r: set<string>)
    ensures r != {} ==> KindOf(indexType).Some?
    ensures KindOf(indexType) == Some(Documents) ==> (r != {} <==> word in s.documents)
    ensures KindOf(indexType).Some? && KindOf(indexType).value != Documents && r != {} ==>
      word in Sub(s, KindOf(indexType).value)
  {
    match KindOf(indexType)
    case None => {}
    case Some(k) =>
      if k == Documents then (if word in s.documents then DocumentKeys(s.documents[word]) else {})
      else if word in Sub(s, k) then Sub(s, k)[word].Keys
      else {}
  }

  /** The state after the lookup: a default dictionary inserts an empty posting map for an absent term. */
  function AfterLookup(s: IndexState, word: string, indexType: string): (s': IndexState)
    ensures s'.documents == s.documents
    ensures PostingList(s', word, indexType) == PostingList(s, word, indexType)
    ensures KindOf(indexType).Some? && KindOf(indexType).value != Documents ==> word in Sub(s', KindOf(indexType).value)
  {
    match KindOf(indexType)
    case None => s
    case Some(k) =>
      if k == Documents || word in Sub(s, k) then s
      else WithSub(s, k, Sub(s, k)[word := map[]])
  }

  /**
    On a posting sub-index, the lookup gives exactly the ids with a positive count
    of `word`; an unknown index type or an absent term gives nothing.
   */
  lemma PostingListSpec(s: IndexState, word: string, k: Kind)
    requires WellFormedState(s) && k != Documents
    ensures PostingList(s, word, KindName(k)) == set d | d in (if word in Sub(s, k) then Sub(s, k)[word] else map[]) && Tf(Sub(s, k), word, d) > 0
    ensures word !in Sub(s, k) ==> PostingList(s, word, KindName(k)) == {}
    ensures forall name :: KindOf(name).None? ==> PostingList(s, word, name) == {}
  {
    assert KindOf(KindName(k)) == Some(k);
  }

  /** Looking up an absent term on a posting sub-index leaves an empty posting map behind. */
  lemma LookupOfAbsentTermAddsEmptyPosting(s: IndexState, word: string, k: Kind)
    requires k != Documents && word !in Sub(s, k)
    ensures word in Sub(AfterLookup(s, word, KindName(k)), k)
    ensures Sub(AfterLookup(s, word, KindName(k)), k)[word] == map[]
    ensures !WellFormedState(AfterLookup(s, word, KindName(k)))
  {
    assert KindOf(KindName(k)) == Some(k);
    var s' := AfterLookup(s, word, KindName(k));
    assert word in Sub(s', k) && Sub(s', k)[word] == map[];
    assert !WellFormed(Sub(s', k));
  }

  // ----- add and remove -----

  /** The state after an update, and whether it raised `KeyError` part-way. */
  datatype Update = Update(state: IndexState, raised: bool)

  /**
    `add_document_to_index`: store the document, then count the fields in key
    order (stars, genres, summaries); `document[key]` raises `KeyError` for an
    absent field, leaving the fields before it updated.
   */
  function AddDocument(s: IndexState, doc: Document): (u: Update)
    ensures u.state.documents == s.documents[doc.id := doc]
    ensures u.raised <==> doc.stars.Missing? || doc.genres.Missing? || doc.summaries.Missing?
  {
    var s0 := s.(documents := s.documents[doc.id := doc]);
    if doc.stars.Missing? then Update(s0, true)
    else
      var s1 := s0.(stars := AddTokens(s.stars, doc.id, FieldTerms(doc.stars, true)));
      if doc.genres.Missing? then Update(s1, true)
      else
        var s2 := s1.(genres := AddTokens(s.genres, doc.id, FieldTerms(doc.genres, true)));
        if doc.summaries.Missing? then Update(s2, true)
        else Update(s2.(summaries := AddTokens(s.summaries, doc.id, FieldTerms(doc.summaries, true))), false)
  }

  /**
    `remove_document_from_index`: pop the document (nothing more when the id is
    not stored), then delete its entry once per token of each field, in key
    order, stopping at the first `KeyError`.
   */
  function RemoveDocument(s: IndexState, id: string): (u: Update)
    ensures u.state.documents == s.documents - {id}
    ensures id !in s.documents ==> u == Update(s, false)
    ensures u.raised ==> id in s.documents
  {
    if id !in s.documents then Update(s, false)
    else
      var doc := s.documents[id];
      var s0 := s.(documents := s.documents - {id});
      if doc.stars.Missing? then Update(s0, true)
      else
        var r1 := RemoveTokens(s.stars, doc.id, FieldTerms(doc.stars, true));
        var s1 := s0.(stars := r1.postings);
        if r1.raised || doc.genres.Missing? then Update(s1, true)
        else
          var r2 := RemoveTokens(s.genres, doc.id, FieldTerms(doc.genres, true));
          var s2 := s1.(genres := r2.postings);
          if r2.raised || doc.summaries.Missing? then Update(s2, true)
          else
            var r3 := RemoveTokens(s.summaries, doc.id, FieldTerms(doc.summaries, true));
            Update(s2.(summaries := r3.postings), r3.raised)
  }

  /**
    Adding stores the document under its id; it raises exactly when one of the
    three fields is absent; otherwise every field gains one count per whitespace
    token for this id, every other entry is unchanged, and the invariant holds.
   */
  lemma AddDocumentSpec(s: IndexState, doc: Document)
    requires WellFormedState(s)
    ensures AddDocument(s, doc).state.documents == s.documents[doc.id := doc]
    ensures AddDocument(s, doc).raised <==>
      doc.stars.Missing? || doc.genres.Missing? || doc.summaries.Missing?
    ensures !AddDocument(s, doc).raised ==>
      var r := AddDocument(s, doc).state;
      && WellFormedState(r)
      && Added(s.stars, r.stars, doc.id, FieldTerms(doc.stars, true))
      && Added(s.genres, r.genres, doc.id, FieldTerms(doc.genres, true))
      && Added(s.summaries, r.summaries, doc.id, FieldTerms(doc.summaries, true))
  {
    AddTokensAdded(s.stars, doc.id, FieldTerms(doc.stars, true));
    AddTokensAdded(s.genres, doc.id, FieldTerms(doc.genres, true));
    AddTokensAdded(s.summaries, doc.id, FieldTerms(doc.summaries, true));
  }

  /** Removing an id that is not stored changes nothing and does not raise. */
  lemma RemoveAbsentIsNoOp(s: IndexState, id: string)
    requires id !in s.documents
    ensures RemoveDocument(s, id) == Update(s, false)
  {
  }

  /** Removing a field's terms for `id` succeeds exactly when the field is present and its terms are distinct and all indexed for `id`. */
  predicate Removable(p: PostingIndex, f: FieldValue, id: string) {
    var toks := FieldTerms(f, true);
    !f.Missing? && Distinct(toks) && forall i :: 0 <= i < |toks| ==> Tf(p, toks[i], id) > 0
  }

  /**
    Removing a stored document drops it from the documents sub-index; it raises
    unless every field is present with distinct, indexed tokens; on success it
    deletes the document's entry from every term its fields mention (and a term
    left with an empty posting map), keeps everything else, and keeps the invariant.
   */
  lemma RemoveDocumentSpec(s: IndexState, id: string)
    requires WellFormedState(s) && id in s.documents
    ensures RemoveDocument(s, id).state.documents == s.documents - {id}
    ensures !RemoveDocument(s, id).raised <==>
      var doc := s.documents[id];
      Removable(s.stars, doc.stars, id) && Removable(s.genres, doc.genres, id) && Removable(s.summaries, doc.summaries, id)
    ensures !RemoveDocument(s, id).raised ==>
      var r := RemoveDocument(s, id).state;
      var doc := s.documents[id];
      && WellFormedState(r)
      && Removed(s.stars, r.stars, id, FieldTerms(doc.stars, true))
      && Removed(s.genres, r.genres, id, FieldTerms(doc.genres, true))
      && Removed(s.summaries, r.summaries, id, FieldTerms(doc.summaries, true))
  {
    var doc := s.documents[id];
    assert doc.id == id;
    if !doc.stars.Missing? {
      FieldRemoval(s.stars, doc.stars, id);
    }
    if !doc.genres.Missing? {
      FieldRemoval(s.genres, doc.genres, id);
    }
    if !doc.summaries.Missing? {
      FieldRemoval(s.summaries, doc.summaries, id);
    }
  }

  /** Removing a present field's terms succeeds exactly when the field is removable, and then deletes exactly `id`'s entries for them. */
  lemma FieldRemoval(p: PostingIndex, f: FieldValue, id: string)
    requires WellFormed(p) && !f.Missing?
    ensures !RemoveTokens(p, id, FieldTerms(f, true)).raised <==> Removable(p, f, id)
    ensures !RemoveTokens(p, id, FieldTerms(f, true)).raised ==>
      Removed(p, RemoveTokens(p, id, FieldTerms(f, true)).postings, id, FieldTerms(f, true))
  {
    RemoveTokensSpec(p, id, FieldTerms(f, true));
  }

  /** A document whose field repeats a token cannot be removed: the second `del` raises. */
  lemma RemoveRepeatedTokenRaises(s: IndexState, id: string, k: Kind)
    requires WellFormedState(s) && id in s.documents && k != Documents
    requires !Distinct(FieldTerms(Field(s.documents[id], k), true))
    ensures RemoveDocument(s, id).raised
  {
    RemoveDocumentSpec(s, id);
    var doc := s.documents[id];
    assert !Removable(Sub(s, k), Field(doc, k), id);
  }

  /** `d`'s id is neither stored nor in any posting map. */
  ghost predicate FreshId(s: IndexState, id: string) {
    id !in s.documents && Absent(s.stars, id) && Absent(s.genres, id) && Absent(s.summaries, id)
  }

  /**
    Adding a document with a fresh id, all three fields present and no token
    repeated within a field, then removing it, restores all four sub-indexes.
   */
  lemma AddThenRemove(s: IndexState, doc: Document)
    requires WellFormedState(s) && FreshId(s, doc.id)
    requires !doc.stars.Missing? && !doc.genres.Missing? && !doc.summaries.Missing?
    requires Distinct(FieldTerms(doc.stars, true)) && Distinct(FieldTerms(doc.genres, true))
    requires Distinct(FieldTerms(doc.summaries, true))
    ensures RemoveDocument(AddDocument(s, doc).state, doc.id) == Update(s, false)
  {
    var id := doc.id;
    var ts := FieldTerms(doc.stars, true);
    var tg := FieldTerms(doc.genres, true);
    var tm := FieldTerms(doc.summaries, true);
    AddThenRemoveTokens(s.stars, id, ts);
    AddThenRemoveTokens(s.genres, id, tg);
    AddThenRemoveTokens(s.summaries, id, tm);
    var a := AddDocument(s, doc).state;
    assert a == IndexState(s.documents[id := doc], AddTokens(s.stars, id, ts), AddTokens(s.genres, id, tg), AddTokens(s.summaries, id, tm));
    assert a.documents - {id} == s.documents;
  }

  // ----- the index's own add/remove check -----

  /** What `check_add_remove_is_correct` prints (or that it raised). */
  datatype Verdict = AddIncorrect(what: string) | RemoveCorrect | RemoveIncorrect | CheckRaised

  const DummyDocument := Document("100", Values(["tim", "henry"]), Values(["drama", "crime"]), Values(["good"]), map[])

  /** The ids gained by term `t` between two states of a posting sub-index. */
  function Gained(before: PostingIndex, after: PostingIndex, t: string): set<string> {
    (if t in after then after[t].Keys else {}) - (if t in before then before[t].Keys else {})
  }

  /** `check_if_key_exists` then `delete_dummy_keys` on the saved copy: an empty posting map disappears. */
  function Tidy(p: PostingIndex, t: string): PostingIndex {
    if t in p && p[t] == map[] then p - {t} else p
  }

  function TidyState(s: IndexState): IndexState {
    s.(stars := Tidy(Tidy(s.stars, "tim"), "henry"),
       genres := Tidy(Tidy(s.genres, "drama"), "crime"),
       summaries := Tidy(s.summaries, "good"))
  }

  /** The five (sub-index, term) pairs the check inspects, in order. */
  const CheckedTerms: seq<(Kind, string)> :=
    [(Stars, "tim"), (Stars, "henry"), (Genres, "drama"), (Genres, "crime"), (Summaries, "good")]

  /** The first inspected term, from position `i` on, that did not gain exactly the dummy's id. */
  function FirstFailure(before: IndexState, after: IndexState, i: nat): Option<string>
    decreases |CheckedTerms| - i
  {
    if i >= |CheckedTerms| then None
    else
      var (k, t) := CheckedTerms[i];
      if k == Documents then None
      else if Gained(Sub(before, k), Sub(after, k), t) != {"100"} then Some(t)
      else FirstFailure(before, after, i + 1)
  }

  lemma FirstFailureStep(before: IndexState, after: IndexState, i: nat)
    requires i < |CheckedTerms|
    requires CheckedTerms[i].0 != Documents ==>
      Gained(Sub(before, CheckedTerms[i].0), Sub(after, CheckedTerms[i].0), CheckedTerms[i].1) == {"100"}
    ensures FirstFailure(before, after, i) == FirstFailure(before, after, i + 1)
  {
  }

  /** The remove half of the check: remove the dummy and compare with the tidied saved copy. */
  function RemoveVerdict(before: IndexState, after: IndexState): Verdict {
    var r := RemoveDocument(after, "100");
    if r.raised then CheckRaised
    else if r.state == TidyState(before) then RemoveCorrect
    else RemoveIncorrect
  }

  /** The verdict of the check run on state `s`. */
  function CheckVerdict(s: IndexState): Verdict {
    var a := AddDocument(s, DummyDocument);
    if a.raised then CheckRaised
    else if a.state.documents["100"] != DummyDocument then AddIncorrect("document")
    else
      match FirstFailure(s, a.state, 0)
      case Some(t) => AddIncorrect(t)
      case None => RemoveVerdict(s, a.state)
  }

  /** The state the check leaves behind: the dummy added, and removed again once the add passed. */
  function CheckFinalState(s: IndexState): IndexState {
    var a := AddDocument(s, DummyDocument);
    if CheckVerdict(s).AddIncorrect? then a.state else RemoveDocument(a.state, "100").state
  }

  /** The terms of a list of whitespace-free entries are the entries themselves. */
  lemma {:induction false} TermsOfWords(items: seq<string>)
    requires forall i :: 0 <= i < |items| ==> IsWord(items[i])
    ensures Terms(items, true) == items
  {
    if items != [] {
      var n := |items| - 1;
      TermsOfWords(items[..n]);
      SplitWord(items[n]);
      assert items == items[..n] + [items[n]];
    }
  }

  lemma FieldTermsOfWords(f: FieldValue)
    requires f.Values? && forall i :: 0 <= i < |f.items| ==> IsWord(f.items[i])
    ensures FieldTerms(f, true) == f.items
  {
    TermsOfWords(f.items);
  }

  /** The dummy's entries are single words, so adding it counts each entry once. */
  lemma DummyTerms()
    ensures FieldTerms(DummyDocument.stars, true) == ["tim", "henry"]
    ensures FieldTerms(DummyDocument.genres, true) == ["drama", "crime"]
    ensures FieldTerms(DummyDocument.summaries, true) == ["good"]
  {
    DummyWords();
    WordPairTerms("tim", "henry");
    WordPairTerms("drama", "crime");
    FieldTermsOfWords(Values(["good"]));
  }

  lemma DummyWords()
    ensures IsWord("tim") && IsWord("henry") && IsWord("drama") && IsWord("crime") && IsWord("good")
  {
  }

  lemma WordPairTerms(w1: string, w2: string)
    requires IsWord(w1) && IsWord(w2)
    ensures FieldTerms(Values([w1, w2]), true) == [w1, w2]
  {
    FieldTermsOfWords(Values([w1, w2]));
  }

  lemma CheckAddRemovePasses(s: IndexState)
    requires WellFormedState(s) && FreshId(s, "100")
    ensures CheckVerdict(s) == RemoveCorrect
  {
    DummyAddGains(s);
    DummyRemoves(s);
  }

  /** Removing the freshly added dummy gives back the saved copy, which tidying leaves as it was. */
  lemma DummyRemoves(s: IndexState)
    requires WellFormedState(s) && FreshId(s, "100")
    ensures RemoveVerdict(s, AddDocument(s, DummyDocument).state) == RemoveCorrect
  {
    DummyDistinct();
    AddThenRemove(s, DummyDocument);
    TidyWellFormed(s);
  }

  /** No field of the dummy repeats a term. */
  lemma DummyDistinct()
    ensures Distinct(FieldTerms(DummyDocument.stars, true))
    ensures Distinct(FieldTerms(DummyDocument.genres, true))
    ensures Distinct(FieldTerms(DummyDocument.summaries, true))
  {
    DummyTerms();
    assert |"tim"| != |"henry"|;
    DistinctPair("tim", "henry");
    assert "drama"[0] != "crime"[0];
    DistinctPair("drama", "crime");
    assert Distinct(["good"]);
  }

  /** Tidying the saved copy of a well-formed index changes nothing: it has no empty posting map. */
  lemma TidyWellFormed(s: IndexState)
    requires WellFormedState(s)
    ensures TidyState(s) == s
  {
  }

  /** Adding a document to a sub-index where it has no entry gains it, and only it, on every term it mentions. */
  lemma GainedMentioned(p: PostingIndex, d: string, toks: seq<string>, t: string)
    requires Absent(p, d) && t in toks
    ensures Gained(p, AddTokens(p, d, toks), t) == {d}
  {
    AddTokensMentioned(p, d, toks, t);
  }

  /** Adding the dummy document to an index where its id is unused passes all five gain checks. */
  lemma DummyAddGains(s: IndexState)
    requires FreshId(s, "100")
    ensures !AddDocument(s, DummyDocument).raised
    ensures AddDocument(s, DummyDocument).state.documents["100"] == DummyDocument
    ensures FirstFailure(s, AddDocument(s, DummyDocument).state, 0) == None
  {
    var after := AddDocument(s, DummyDocument).state;
    var stars, genres, summaries := FieldTerms(DummyDocument.stars, true), FieldTerms(DummyDocument.genres, true), FieldTerms(DummyDocument.summaries, true);
    DummyTerms();
    assert "tim" in stars && "henry" in stars && "drama" in genres && "crime" in genres && "good" in summaries;
    GainedMentioned(s.stars, "100", stars, "tim");
    GainedMentioned(s.stars, "100", stars, "henry");
    GainedMentioned(s.genres, "100", genres, "drama");
    GainedMentioned(s.genres, "100", genres, "crime");
    GainedMentioned(s.summaries, "100", summaries, "good");
    NoFailure(s, after);
  }

  /** When all five inspected terms gained exactly the dummy's id, no check fails. */
  lemma NoFailure(before: IndexState, after: IndexState)
    requires Gained(before.stars, after.stars, "tim") == {"100"}
    requires Gained(before.stars, after.stars, "henry") == {"100"}
    requires Gained(before.genres, after.genres, "drama") == {"100"}
    requires Gained(before.genres, after.genres, "crime") == {"100"}
    requires Gained(before.summaries, after.summaries, "good") == {"100"}
    ensures FirstFailure(before, after, 0) == None
  {
  }

  /**
    A genre made of two words is one term when built but two terms when added
    or removed: a built document with such a genre is indexed under the whole
    genre, not under its first word, and removing it raises.
   */
  lemma GenreWithSpaceCannotBeRemoved(id: string, w1: string, w2: string)
    requires IsWord(w1) && IsWord(w2)
    ensures
      var doc := Document(id, Values([]), Values([w1 + " " + w2]), Values([]), map[]);
      var s := Build([doc]);
      && w1 + " " + w2 in s.genres
      && w1 !in s.genres
      && RemoveDocument(s, id).raised
  {
    var genre := w1 + " " + w2;
    var doc := Document(id, Values([]), Values([genre]), Values([]), map[]);
    var s := Build([doc]);
    OneGenreBuild(id, genre);
    TwoWordGenreTerms(w1, w2);
    AddTokensMentioned(map[], id, [genre], genre);
    assert |genre| > |w1|;
    AddTokensOthers(map[], id, [genre], w1);
    assert Tf(s.genres, w1, id) == 0;
    RemoveDocumentSpec(s, id);
    assert !Removable(s.genres, doc.genres, id);
  }

  /** Building a single document with one genre indexes it under that whole genre. */
  lemma OneGenreBuild(id: string, genre: string)
    ensures
      var doc := Document(id, Values([]), Values([genre]), Values([]), map[]);
      var s := Build([doc]);
      && s.genres == AddTokens(map[], id, [genre])
      && s.documents == map[id := doc]
      && WellFormedState(s)
  {
    var doc := Document(id, Values([]), Values([genre]), Values([]), map[]);
    var s := Build([doc]);
    assert [doc][..0] == [];
    assert s.genres == AddTokens(map[], id, [genre]) by {
      GenreTermsUnsplit([genre]);
      assert FieldTerms(doc.genres, BuildSplits(Genres)) == [genre];
      assert BuildField([doc][..0], Genres) == map[];
    }
    assert s.documents == map[id := doc] by {
      assert IndexDocuments([doc][..0]) == map[];
    }
    BuildWellFormed([doc]);
  }

  /** Two words joined by a space are two terms when a genre list is split. */
  lemma TwoWordGenreTerms(w1: string, w2: string)
    requires IsWord(w1) && IsWord(w2)
    ensures FieldTerms(Values([w1 + " " + w2]), true) == [w1, w2]
  {
    var genre := w1 + " " + w2;
    assert Join(" ", [w1, w2]) == genre;
    SplitJoin([w1, w2]);
    assert Terms([genre], true) == Split(genre) by {
      assert [genre][..0] == [];
    }
  }

  // ----- the in-place index -----

  /** `for item in items: for term in split(item): idx[term][doc_id] += 1` on a copy of the sub-index. */
  method AddItems(p: PostingIndex, id: string, items: seq<string>, split: bool) returns (q: PostingIndex)
    ensures q == AddTokens(p, id, Terms(items, split))
  {
    q := p;
    var i := 0;
    while i < |items|
      invariant 0 <= i <= |items|
      invariant q == AddTokens(p, id, Terms(items[..i], split))
    {
      ghost var done := Terms(items[..i], split);
      q := AddTerms(q, id, ItemTerms(items[i], split));
      AddTokensAppend(p, id, done, ItemTerms(items[i], split));
      TermsSnoc(items, i, split);
      i := i + 1;
    }
    assert items[..i] == items;
  }

  /** `for term in terms: if doc_id in idx[term]: idx[term][doc_id] += 1 else: idx[term][doc_id] = 1`. */
  method AddTerms(p: PostingIndex, id: string, terms: seq<string>) returns (q: PostingIndex)
    ensures q == AddTokens(p, id, terms)
  {
    q := p;
    var j := 0;
    while j < |terms|
      invariant 0 <= j <= |terms|
      invariant q == AddTokens(p, id, terms[..j])
    {
      var term := terms[j];
      AddTokensSnoc(p, id, terms[..j], term);
      assert terms[..j + 1] == terms[..j] + [term];
      var posting := if term in q then q[term] else map[];
      if id in posting {
        q := q[term := posting[id := posting[id] + 1]];
      } else {
        q := q[term := posting[id := 1]];
      }
      j := j + 1;
    }
    assert terms[..j] == terms;
  }

  /** `for item in items: for term in item.split(): del idx[term][doc_id]; ...`, stopping at a raise. */
  method RemoveItems(p: PostingIndex, id: string, items: seq<string>) returns (r: Removal)
    ensures r == RemoveTokens(p, id, Terms(items, true))
  {
    var q := p;
    var i := 0;
    while i < |items|
      invariant 0 <= i <= |items|
      invariant RemoveTokens(p, id, Terms(items[..i], true)) == Removal(q, false)
    {
      var terms := Split(items[i]);
      ghost var done := Terms(items[..i], true);
      var j := 0;
      ConcatPrefixes(done, terms, 0);
      while j < |terms|
        invariant 0 <= j <= |terms|
        invariant RemoveTokens(p, id, done + terms[..j]) == Removal(q, false)
      {
        var term := terms[j];
        RemoveTokensSnoc(p, id, done + terms[..j], term);
        ConcatPrefixes(done, terms, j);
        if term !in q || id !in q[term] {
          r := if term !in q then Removal(q[term := map[]], true) else Removal(q, true);
          RaisedInItem(p, id, items, i, j);
          return;
        }
        var posting := q[term] - {id};
        if posting == map[] {
          q := q - {term};
        } else {
          q := q[term := posting];
        }
        j := j + 1;
      }
      TermsSnoc(items, i, true);
      assert terms[..j] == terms;
      i := i + 1;
    }
    assert items[..i] == items;
    r := Removal(q, false);
  }

  lemma TermsSnoc(items: seq<string>, i: int, split: bool)
    requires 0 <= i < |items|
    ensures Terms(items[..i + 1], split) == Terms(items[..i], split) + ItemTerms(items[i], split)
  {
    PrefixStep(items, i);
  }

  /** A raise at token `j` of entry `i` is the outcome of removing all the entries' terms. */
  lemma RaisedInItem(p: PostingIndex, id: string, items: seq<string>, i: int, j: int)
    requires 0 <= i < |items| && 0 <= j < |Split(items[i])|
    requires RemoveTokens(p, id, Terms(items[..i], true) + Split(items[i])[..j + 1]).raised
    ensures RemoveTokens(p, id, Terms(items, true)) == RemoveTokens(p, id, Terms(items[..i], true) + Split(items[i])[..j + 1])
  {
    var done := Terms(items[..i], true);
    var terms := Split(items[i]);
    var after := Terms(items[i + 1..], true);
    RaisedWithinItem(p, id, done, terms, j);
    RemoveTokensRaisedStays(p, id, done + terms, after);
    TermsAround(items, i);
  }

  /** A raise at token `j` of an entry is also the outcome of removing the whole entry. */
  lemma RaisedWithinItem(p: PostingIndex, id: string, done: seq<string>, terms: seq<string>, j: int)
    requires 0 <= j < |terms| && RemoveTokens(p, id, done + terms[..j + 1]).raised
    ensures RemoveTokens(p, id, done + terms) == RemoveTokens(p, id, done + terms[..j + 1])
  {
    ConcatSplitAt(done, terms, j + 1);
    RemoveTokensRaisedStays(p, id, done + terms[..j + 1], terms[j + 1..]);
  }

  /** The terms of all entries are those before entry `i`, entry `i`'s own, and those after it. */
  lemma TermsAround(items: seq<string>, i: int)
    requires 0 <= i < |items|
    ensures Terms(items, true) == Terms(items[..i], true) + Split(items[i]) + Terms(items[i + 1..], true)
  {
    ConcatSplitAt([], items, i + 1);
    assert [] + items == items && [] + items[..i + 1] == items[..i + 1];
    TermsAppend(items[..i + 1], items[i + 1..], true);
    TermsSnoc(items, i, true);
  }

  lemma {:induction false} TermsAppend(a: seq<string>, b: seq<string>, split: bool)
    ensures Terms(a + b, split) == Terms(a, split) + Terms(b, split)
  {
    if b == [] {
      assert a + b == a;
    } else {
      var rest, last := b[..|b| - 1], b[|b| - 1];
      TermsAppend(a, rest, split);
      ConcatLast(a, b);
      ConcatAssoc(Terms(a, split), Terms(rest, split), ItemTerms(last, split));
    }
  }

  /** The posting sub-index the builder computes for field `k` (`index_stars`, `index_genres`, `index_summaries`). */
  method IndexField(docs: seq<Document>, k: Kind) returns (p: PostingIndex)
    requires k != Documents
    ensures p == BuildField(docs, k)
    ensures WellFormed(p)
    ensures forall t, d :: Tf(p, t, d) == DocTf(docs, k, d, t)
  {
    p := map[];
    var n := 0;
    while n < |docs|
      invariant 0 <= n <= |docs|
      invariant p == BuildField(docs[..n], k)
    {
      var doc := docs[n];
      var f := Field(doc, k);
      if Truthy(f) {
        p := AddItems(p, doc.id, f.items, BuildSplits(k));
      }
      assert docs[..n + 1][..n] == docs[..n];
      n := n + 1;
    }
    assert docs[..n] == docs;
    forall t, d ensures Tf(p, t, d) == DocTf(docs, k, d, t) {
      BuildFieldCounts(docs, k, t, d);
    }
    BuildFieldCounts(docs, k, "", "");
  }

  class Index {
    var preprocessedDocuments: seq<Document>
    var documents: map<string, Document>
    var stars: PostingIndex
    var genres: PostingIndex
    var summaries: PostingIndex

    function State(): IndexState
      reads this
    {
      IndexState(documents, stars, genres, summaries)
    }

    ghost predicate Valid()
      reads this
    {
      WellFormedState(State())
    }

    constructor (preprocessedDocuments: seq<Document>)
      ensures this.preprocessedDocuments == preprocessedDocuments
      ensures State() == Build(preprocessedDocuments)
      ensures Valid()
    {
      var st := IndexField(preprocessedDocuments, Stars);
      var ge := IndexField(preprocessedDocuments, Genres);
      var su := IndexField(preprocessedDocuments, Summaries);
      this.preprocessedDocuments := preprocessedDocuments;
      documents := IndexDocuments(preprocessedDocuments);
      stars := st;
      genres := ge;
      summaries := su;
      new;
      BuildWellFormed(preprocessedDocuments);
    }

    method SetSub(k: Kind, p: PostingIndex)
      requires k != Documents
      modifies this
      ensures State() == WithSub(old(State()), k, p)
      ensures preprocessedDocuments == old(preprocessedDocuments)
    {
      match k
      case Stars => stars := p;
      case Genres => genres := p;
      case Summaries => summaries := p;
    }

    /** `get_posting_list(word, index_type)`. */
    method GetPostingList(word: string, indexType: string) returns (ids: set<string>)
      modifies this
      ensures ids == PostingList(old(State()), word, indexType)
      ensures State() == AfterLookup(old(State()), word, indexType)
      ensures preprocessedDocuments == old(preprocessedDocuments)
    {
      var kind := KindOf(indexType);
      if kind.None? {
        return {};
      }
      var k := kind.value;
      if k == Documents {
        ids := if word in documents then DocumentKeys(documents[word]) else {};
        return;
      }
      var p := Sub(State(), k);
      if word !in p {
        SetSub(k, p[word := map[]]);
        ids := {};
      } else {
        ids := p[word].Keys;
      }
    }

    /**
      `add_document_to_index(document)`: the loop over the four sub-indexes,
      in key order; `raised` when a field is absent (KeyError part-way).
     */
    method AddDocumentToIndex(doc: Document) returns (raised: bool)
      modifies this
      ensures preprocessedDocuments == old(preprocessedDocuments) + [doc]
      ensures State() == AddDocument(old(State()), doc).state
      ensures raised == AddDocument(old(State()), doc).raised
      ensures old(Valid()) && !raised ==> Valid()
    {
      ghost var s := State();
      preprocessedDocuments := preprocessedDocuments + [doc];
      documents := documents[doc.id := doc];
      if doc.stars.Missing? {
        return true;
      }
      stars := AddField(doc.stars, stars, doc.id);
      if doc.genres.Missing? {
        return true;
      }
      genres := AddField(doc.genres, genres, doc.id);
      if doc.summaries.Missing? {
        return true;
      }
      summaries := AddField(doc.summaries, summaries, doc.id);
      raised := false;
      if WellFormedState(s) {
        AddDocumentSpec(s, doc);
      }
    }

    /** One present field of the adding loop: `if document[key]: for item in document[key]: ...`. */
    static method AddField(f: FieldValue, p: PostingIndex, id: string) returns (q: PostingIndex)
      requires !f.Missing?
      ensures q == AddTokens(p, id, FieldTerms(f, true))
    {
      if Truthy(f) {
        q := AddItems(p, id, f.items, true);
      } else {
        q := p;
      }
    }

    /** One field of the removal loop: `raised` when the field is absent or a `del` fails. */
    static method RemoveField(f: FieldValue, p: PostingIndex, id: string) returns (q: PostingIndex, raised: bool)
      ensures f.Missing? ==> q == p && raised
      ensures !f.Missing? ==> Removal(q, raised) == RemoveTokens(p, id, FieldTerms(f, true))
    {
      if f.Missing? {
        return p, true;
      }
      if !Truthy(f) {
        return p, false;
      }
      var r := RemoveItems(p, id, f.items);
      q, raised := r.postings, r.raised;
    }

    /**
      `remove_document_from_index(document_id)`: pop the document, then the loop
      over the three posting sub-indexes in key order; `raised` when a field is
      absent or a `del` fails.
     */
    method RemoveDocumentFromIndex(id: string) returns (raised: bool)
      modifies this
      ensures preprocessedDocuments == old(preprocessedDocuments)
      ensures State() == RemoveDocument(old(State()), id).state
      ensures raised == RemoveDocument(old(State()), id).raised
      ensures old(Valid()) && !raised ==> Valid()
    {
      ghost var s := State();
      if id !in documents {
        return false;
      }
      if old(Valid()) {
        RemoveDocumentSpec(s, id);
      }
      var doc := documents[id];
      documents := documents - {id};
      stars, raised := RemoveField(doc.stars, stars, doc.id);
      if raised {
        return;
      }
      genres, raised := RemoveField(doc.genres, genres, doc.id);
      if raised {
        return;
      }
      summaries, raised := RemoveField(doc.summaries, summaries, doc.id);
    }

    /** `check_add_remove_is_correct()`: add the dummy document, check the gains, remove it, compare. */
    method CheckAddRemoveIsCorrect() returns (verdict: Verdict)
      modifies this
      ensures verdict == CheckVerdict(old(State()))
      ensures State() == CheckFinalState(old(State()))
      ensures preprocessedDocuments == old(preprocessedDocuments) + [DummyDocument]
    {
      var before := State();
      var raised := AddDocumentToIndex(DummyDocument);
      if raised {
        assert false;
        return CheckRaised;
      }
      var after := State();
      if after.documents["100"] != DummyDocument {
        return AddIncorrect("document");
      }
      var failure := FindFailure(before, after);
      if failure.Some? {
        return AddIncorrect(failure.value);
      }
      raised := RemoveDocumentFromIndex("100");
      if raised {
        return CheckRaised;
      }
      verdict := if State() == TidyState(before) then RemoveCorrect else RemoveIncorrect;
    }

    /** The five gain checks in order: the first term that did not gain exactly the dummy's id. */
    static method FindFailure(before: IndexState, after: IndexState) returns (failure: Option<string>)
      ensures failure == FirstFailure(before, after, 0)
    {
      var i := 0;
      while i < |CheckedTerms|
        invariant 0 <= i <= |CheckedTerms|
        invariant FirstFailure(before, after, 0) == FirstFailure(before, after, i)
      {
        var (k, t) := CheckedTerms[i];
        if k != Documents && Gained(Sub(before, k), Sub(after, k), t) != {"100"} {
          return Some(t);
        }
        FirstFailureStep(before, after, i);
        i := i + 1;
      }
      return None;
    }
  }
}
