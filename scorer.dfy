/**
  Document scoring (Logic/core/utility/scorer.py): the candidate documents of
  a query, the cached inverse document frequency, and the vector-space, Okapi
  BM25 and unigram language-model scores over one field's posting index
  (term -> {document id -> term frequency}).

  Floating point is modelled as `real` and `np.log` as the function
  parameter `ln` of the collection. Each score is a left-to-right sum over the
  query's terms that stops at the first term that raises; `TermScore` says
  what one term adds (or raises) under each model.
 */
module Scoring {
  import opened Results
  import opened Sums
  import opened Text
  import opened Postings

  /** The BM25 constants `k1` and `b`. */
  const K1: real := 1.5
  const B: real := 0.75

  /** What a scorer is built on: the posting index, `N`, and the natural logarithm. */
  datatype Corpus = Corpus(index: PostingIndex, n: nat, ln: real -> real)

  /** The scoring model with the arguments that stay fixed across the query's terms. */
  datatype Model =
    | VectorSpace(queryTfs: map<string, nat>, documentMethod: string, queryMethod: string)
    | OkapiBm25(averageDocumentFieldLength: real, documentLengths: map<string, nat>)
    | Unigram(smoothing: string, documentLengths: map<string, nat>, alpha: real, lamda: real)

  /** The documents in the posting maps of the query's terms that are in the index. */
  function Candidates(index: PostingIndex, query: seq<string>): (r: set<string>)
    ensures forall d :: d in r <==> exists t :: t in query && t in index && d in index[t]
  {
    set t, d | t in query && t in index && d in index[t] :: d
  }

  /** `self.index.get(term)` is truthy: the term is indexed with a non-empty posting map. */
  predicate Contributes(index: PostingIndex, t: string) {
    t in index && index[t] != map[]
  }

  /** There are candidate documents exactly when some query term has a non-empty posting map. */
  lemma CandidatesContributing(index: PostingIndex, query: seq<string>)
    ensures Candidates(index, query) != {} <==> exists t :: t in query && Contributes(index, t)
  {
    if t :| t in query && Contributes(index, t) {
      var d :| d in index[t];
      assert d in Candidates(index, query);
    }
  }

  /** `np.log(N / df)`. */
  function Idf(c: Corpus, t: string): real
    requires t in c.index && |c.index[t]| > 0
  {
    c.ln(c.n as real / |c.index[t]| as real)
  }

  /** What `get_idf(term)` returns: `KeyError` for an unindexed term, `ZeroDivisionError` for an empty posting map. */
  function IdfResult(c: Corpus, t: string): (r: Result<real>)
    ensures r.Ok? <==> t in c.index && |c.index[t]| > 0
    ensures r.Ok? ==> r.value == Idf(c, t)
    ensures r.Err? ==> r.error == (if t in c.index then ZeroDivisionError else KeyError)
  {
    if t !in c.index then Err(KeyError)
    else if |c.index[t]| == 0 then Err(ZeroDivisionError)
    else Ok(Idf(c, t))
  }

  /** `doc_method, query_method = method.split('.')`: exactly one dot, else `ValueError`. */
  function SplitMethod(code: string): (r: Result<(string, string)>)
    ensures r.Ok? <==> Count(code, '.') == 1
    ensures r.Err? ==> r.error == ValueError
    ensures r.Ok? ==> r.value.0 + "." + r.value.1 == code && '.' !in r.value.0 && '.' !in r.value.1
  {
    if Count(code, '.') != 1 then Err(ValueError)
    else
      CountZeroNotIn(code, '.');
      var i := IndexOf(code, '.');
      var (before, after) := (code[..i], code[i + 1..]);
      assert code == before + "." + after;
      CountAppend(before + ".", after, '.');
      CountAppend(before, ".", '.');
      CountZeroNotIn(before, '.');
      CountZeroNotIn(after, '.');
      assert Count(".", '.') == 1 by {
        assert "."[..0] == [];
      }
      Ok((before, after))
  }

  /** Both codes have a tf and a df letter, and each df letter is `t` or `n`. */
  predicate CodesUsable(documentMethod: string, queryMethod: string) {
    && |documentMethod| >= 2 && |queryMethod| >= 2
    && (documentMethod[1] == 't' || documentMethod[1] == 'n')
    && (queryMethod[1] == 't' || queryMethod[1] == 'n')
  }

  /** What a contributing term raises under unusable codes: a short code is indexed past its end, an unknown df letter leaves the idf unbound. */
  function CodeError(documentMethod: string, queryMethod: string): Exception {
    if |documentMethod| < 2 || |queryMethod| < 2 then IndexError else UnboundLocalError
  }

  /** The tf factor: for code `l`, `1 + log(tf)` only when `tf < 0` and 0 otherwise; the raw count for any other code. */
  function TfWeight(c: Corpus, code: string, tf: int): real
    requires |code| >= 1
  {
    if code[0] == 'l' then (if tf < 0 then 1.0 + c.ln(tf as real) else 0.0) else tf as real
  }

  /** The df factor: the idf for code `t`, 1 for code `n`. */
  function DfWeight(c: Corpus, code: string, t: string): real
    requires |code| >= 2 && Contributes(c.index, t)
  {
    if code[1] == 't' then Idf(c, t) else 1.0
  }

  /** One side's `tf * idf` for a term with a non-empty posting map. */
  function SideWeight(c: Corpus, code: string, tf: int, t: string): real
    requires |code| >= 2 && Contributes(c.index, t)
  {
    TfWeight(c, code, tf) * DfWeight(c, code, t)
  }

  /** `w_doc * w_query`. */
  function Product(wDoc: real, wQuery: real): real {
    wDoc * wQuery
  }

  /** The BM25 denominator `tf + k1 * (1 - b + b * (doc_len / avgdl))`. */
  function Bm25Denominator(tf: real, docLen: real, averageDocumentFieldLength: real): real
    requires averageDocumentFieldLength != 0.0
  {
    tf + K1 * (1.0 - B + B * (docLen / averageDocumentFieldLength))
  }

  /** The BM25 term weight `idf * (tf * (k1 + 1)) / denominator`. */
  function Bm25Weight(idf: real, tf: real, denominator: real): real
    requires denominator != 0.0
  {
    idf * ((tf * (K1 + 1.0)) / denominator)
  }

  /** `d.get(key, 0)` on a map of counts. */
  function CountOf(m: map<string, nat>, key: string): nat {
    if key in m then m[key] else 0
  }

  /** The smoothed probability has nothing to divide by. */
  predicate SmoothingFails(c: Corpus, smoothing: string, docLen: nat, modelSize: int, alpha: real) {
    if smoothing == "bayes" then docLen as real + alpha * |c.index| as real == 0.0
    else if smoothing == "naive" then docLen == 0
    else if smoothing == "mixture" then docLen == 0 || modelSize == 0
    else false
  }

  /**
    The smoothed term probability: Bayesian smoothing over a vocabulary of
    `len(self.index)` terms, the naive estimate, or the mixture with the
    collection model. Any other name leaves the raw count.
   */
  function Smoothed(c: Corpus, smoothing: string, tf: nat, docLen: nat, modelTf: int, modelSize: int, alpha: real, lamda: real): (r: Result<real>)
    ensures r.Err? <==> SmoothingFails(c, smoothing, docLen, modelSize, alpha)
    ensures r.Err? ==> r.error == ZeroDivisionError
  {
    if smoothing == "bayes" then
      var denominator := docLen as real + alpha * |c.index| as real;
      if denominator == 0.0 then Err(ZeroDivisionError) else Ok((tf as real + alpha) / denominator)
    else if smoothing == "naive" then
      if docLen == 0 then Err(ZeroDivisionError) else Ok(tf as real / docLen as real)
    else if smoothing == "mixture" then
      if docLen == 0 || modelSize == 0 then Err(ZeroDivisionError)
      else Ok(lamda * (tf as real / docLen as real) + (1.0 - lamda) * (modelTf as real / modelSize as real))
    else Ok(tf as real)
  }

  /** `np.log(p) if p > 0 else 0`. */
  function LogOrZero(c: Corpus, p: real): real {
    if p > 0.0 then c.ln(p) else 0.0
  }

  /** The collection frequency of `t` over the documents with a known length. */
  ghost function ModelTf(index: PostingIndex, t: string, documentLengths: map<string, nat>): int {
    Sum(map d | d in documentLengths :: Tf(index, t, d))
  }

  /** What one occurrence of `t` in the query adds to document `doc`'s score, or what it raises. */
  ghost function TermScore(c: Corpus, model: Model, doc: string, t: string): Result<real> {
    match model
    case VectorSpace(queryTfs, documentMethod, queryMethod) =>
      if !Contributes(c.index, t) then Ok(0.0)
      else if !CodesUsable(documentMethod, queryMethod) then Err(CodeError(documentMethod, queryMethod))
      else
        Ok(Product(SideWeight(c, documentMethod, Tf(c.index, t, doc), t), SideWeight(c, queryMethod, CountOf(queryTfs, t), t)))
    case OkapiBm25(averageDocumentFieldLength, documentLengths) =>
      if t !in c.index then Ok(0.0)
      else if |c.index[t]| == 0 || averageDocumentFieldLength == 0.0 then Err(ZeroDivisionError)
      else
        var tf := Tf(c.index, t, doc) as real;
        var denominator := Bm25Denominator(tf, CountOf(documentLengths, doc) as real, averageDocumentFieldLength);
        if denominator == 0.0 then Err(ZeroDivisionError)
        else Ok(Bm25Weight(Idf(c, t), tf, denominator))
    case Unigram(smoothing, documentLengths, alpha, lamda) =>
      var p := Smoothed(c, smoothing, Tf(c.index, t, doc), CountOf(documentLengths, doc),
                        ModelTf(c.index, t, documentLengths), Sum(documentLengths), alpha, lamda);
      if p.Err? then p else Ok(LogOrZero(c, p.value))
  }

  /** The per-term results of `model` for `doc`, as a function of the term. */
  ghost function TermScoreOf(c: Corpus, model: Model, doc: string): string -> Result<real> {
    t => TermScore(c, model, doc, t)
  }

  /** Applying the per-term function is computing that term's score. */
  lemma TermScoreOfApply(c: Corpus, model: Model, doc: string, t: string)
    ensures TermScoreOf(c, model, doc)(t) == TermScore(c, model, doc, t)
  {
  }

  /**
    The scoring loops' accumulation: the per-term results `f(t)` added up in
    order, stopping at the first exception.
   */
  ghost function Fold(f: string -> Result<real>, terms: seq<string>): Result<real> {
    if terms == [] then Ok(0.0)
    else
      var prefix := Fold(f, terms[..|terms| - 1]);
      if prefix.Err? then prefix
      else
        var last := f(terms[|terms| - 1]);
        if last.Err? then last else Ok(prefix.value + last.value)
  }

  /** The score of `doc` for the terms in order: their sum, or the first exception raised. */
  ghost function Score(c: Corpus, model: Model, doc: string, terms: seq<string>): Result<real> {
    Fold(TermScoreOf(c, model, doc), terms)
  }

  /** Scoring `a + b` is scoring `a`, then `b`: the first exception wins, otherwise the scores add up. */
  lemma {:induction false} FoldAppend(f: string -> Result<real>, a: seq<string>, b: seq<string>)
    ensures Fold(f, a + b) ==
      var sa := Fold(f, a);
      var sb := Fold(f, b);
      if sa.Err? then sa else if sb.Err? then sb else Ok(sa.value + sb.value)
  {
    if b == [] {
      assert a + b == a;
    } else {
      ConcatLast(a, b);
      FoldAppend(f, a, b[..|b| - 1]);
    }
  }

  /** A score raises exactly when one of the terms raises. */
  lemma {:induction false} FoldErrIff(f: string -> Result<real>, terms: seq<string>)
    ensures Fold(f, terms).Err? <==> exists t :: t in terms && f(t).Err?
  {
    if terms != [] {
      var prefix := terms[..|terms| - 1];
      FoldErrIff(f, prefix);
      SnocLast(terms);
    }
  }

  /** A score raises exactly when one of the terms raises under the model. */
  lemma ScoreErrIff(c: Corpus, model: Model, doc: string, terms: seq<string>)
    ensures Score(c, model, doc, terms).Err? <==> exists t :: t in terms && TermScore(c, model, doc, t).Err?
  {
    FoldErrIff(TermScoreOf(c, model, doc), terms);
  }

  /** Once a prefix of the terms has raised, scoring the rest changes nothing. */
  lemma FoldErrStays(f: string -> Result<real>, terms: seq<string>, i: nat)
    requires i <= |terms| && Fold(f, terms[..i]).Err?
    ensures Fold(f, terms) == Fold(f, terms[..i])
  {
    ConcatSplitAt([], terms, i);
    assert [] + terms[..i] == terms[..i] && [] + terms == terms;
    FoldAppend(f, terms[..i], terms[i..]);
  }

  /** The score of a one-term query is that term's result. */
  lemma FoldSingle(f: string -> Result<real>, t: string)
    ensures Fold(f, [t]) == (var r := f(t); if r.Err? then r else Ok(0.0 + r.value))
  {
    assert [t][..0] == [];
  }

  /** One more term: the loop adds its result `w` to the running score, or stops at its exception. */
  lemma FoldStep(f: string -> Result<real>, terms: seq<string>, i: int, score: real, w: Result<real>)
    requires 0 <= i < |terms| && Fold(f, terms[..i]) == Ok(score) && f(terms[i]) == w
    ensures Fold(f, terms[..i + 1]) == if w.Err? then w else Ok(score + w.value)
  {
    PrefixStep(terms, i);
  }

  /** A term that adds 0 can be dropped from anywhere in the query without changing the score. */
  lemma DropZeroTerm(f: string -> Result<real>, a: seq<string>, t: string, b: seq<string>)
    requires f(t) == Ok(0.0)
    ensures Fold(f, a + [t] + b) == Fold(f, a + b)
  {
    FoldAppend(f, a + [t], b);
    FoldAppend(f, a, [t]);
    FoldAppend(f, a, b);
    FoldSingle(f, t);
  }

  /** `w` added `k` times. */
  function Times(k: nat, w: real): real {
    if k == 0 then 0.0 else Times(k - 1, w) + w
  }

  /** Adding `w` `k` times is multiplying it by `k`. */
  lemma {:induction false} TimesIsProduct(k: nat, w: real)
    ensures Times(k, w) == k as real * w
  {
    if k > 0 {
      TimesIsProduct(k - 1, w);
    }
  }

  /** More occurrences of a term add its contribution once per occurrence. */
  lemma {:induction false} RepeatedTerm(f: string -> Result<real>, a: seq<string>, t: string, copies: seq<string>)
    requires forall i :: 0 <= i < |copies| ==> copies[i] == t
    requires Fold(f, a).Ok? && f(t).Ok?
    ensures Fold(f, a + copies) == Ok(Fold(f, a).value + Times(|copies|, f(t).value))
  {
    if copies == [] {
      assert a + copies == a;
    } else {
      var rest := copies[..|copies| - 1];
      RepeatedTerm(f, a, t, rest);
      assert a + copies == (a + rest) + [t];
      FoldAppend(f, a + rest, [t]);
      FoldSingle(f, t);
    }
  }

  /** A query term without a non-empty posting map adds nothing to a vector-space score. */
  lemma VectorSpaceAbsentTerm(c: Corpus, queryTfs: map<string, nat>, documentMethod: string, queryMethod: string, doc: string, t: string)
    requires !Contributes(c.index, t)
    ensures TermScore(c, VectorSpace(queryTfs, documentMethod, queryMethod), doc, t) == Ok(0.0)
  {
  }

  /** With the `l` tf code on either side, every vector-space score is 0, whatever the counts. */
  lemma {:induction false} VectorSpaceLogCodeZero(c: Corpus, queryTfs: map<string, nat>, documentMethod: string, queryMethod: string, doc: string, terms: seq<string>)
    requires CodesUsable(documentMethod, queryMethod)
    requires documentMethod[0] == 'l' || queryMethod[0] == 'l'
    ensures Score(c, VectorSpace(queryTfs, documentMethod, queryMethod), doc, terms) == Ok(0.0)
  {
    if terms != [] {
      var model := VectorSpace(queryTfs, documentMethod, queryMethod);
      var t := terms[|terms| - 1];
      VectorSpaceLogCodeZero(c, queryTfs, documentMethod, queryMethod, doc, terms[..|terms| - 1]);
      if Contributes(c.index, t) {
        var wDoc := SideWeight(c, documentMethod, Tf(c.index, t, doc), t);
        var wQuery := SideWeight(c, queryMethod, CountOf(queryTfs, t), t);
        assert wDoc == 0.0 || wQuery == 0.0;
        assert Product(wDoc, wQuery) == 0.0;
        assert TermScore(c, model, doc, t) == Ok(0.0);
      } else {
        assert TermScore(c, model, doc, t) == Ok(0.0);
      }
    }
  }


  /**
    A vector-space score raises exactly when the codes are unusable and some
    query term has a non-empty posting map, and what it raises is the code's error.
   */
  lemma {:induction false} VectorSpaceErrIff(c: Corpus, queryTfs: map<string, nat>, documentMethod: string, queryMethod: string, doc: string, terms: seq<string>)
    ensures var s := Score(c, VectorSpace(queryTfs, documentMethod, queryMethod), doc, terms);
      && (s.Err? <==> !CodesUsable(documentMethod, queryMethod) && exists t :: t in terms && Contributes(c.index, t))
      && (s.Err? ==> s.error == CodeError(documentMethod, queryMethod))
  {
    if terms != [] {
      var prefix, last := terms[..|terms| - 1], terms[|terms| - 1];
      VectorSpaceErrIff(c, queryTfs, documentMethod, queryMethod, doc, prefix);
      SnocLast(terms);
      assert forall t :: t in terms <==> t in prefix || t == last;
    }
  }

  /** For a candidate document, the vector-space score raises exactly when the codes are unusable. */
  lemma CandidateErrIff(c: Corpus, queryTfs: map<string, nat>, documentMethod: string, queryMethod: string, doc: string, terms: seq<string>)
    requires doc in Candidates(c.index, terms)
    ensures var s := Score(c, VectorSpace(queryTfs, documentMethod, queryMethod), doc, terms);
      && (s.Err? <==> !CodesUsable(documentMethod, queryMethod))
      && (s.Err? ==> s.error == CodeError(documentMethod, queryMethod))
  {
    VectorSpaceErrIff(c, queryTfs, documentMethod, queryMethod, doc, terms);
    var t :| t in terms && t in c.index && doc in c.index[t];
    assert Contributes(c.index, t);
  }

  /** A term outside the index, or one the document does not contain, adds 0 to a BM25 score when it does not raise. */
  lemma Bm25ZeroTerm(c: Corpus, averageDocumentFieldLength: real, documentLengths: map<string, nat>, doc: string, t: string)
    requires t !in c.index || (Tf(c.index, t, doc) == 0 && TermScore(c, OkapiBm25(averageDocumentFieldLength, documentLengths), doc, t).Ok?)
    ensures TermScore(c, OkapiBm25(averageDocumentFieldLength, documentLengths), doc, t) == Ok(0.0)
  {
    if t in c.index {
      if |c.index[t]| > 0 && averageDocumentFieldLength != 0.0 {
        var denominator := Bm25Denominator(0.0, CountOf(documentLengths, doc) as real, averageDocumentFieldLength);
        assert (0.0 * (K1 + 1.0)) / denominator == 0.0;
      }
    }
  }

  /** On a well-formed index and a positive average length, a BM25 score never raises. */
  lemma {:induction false} Bm25Defined(c: Corpus, averageDocumentFieldLength: real, documentLengths: map<string, nat>, doc: string, terms: seq<string>)
    requires WellFormed(c.index) && averageDocumentFieldLength > 0.0
    ensures Score(c, OkapiBm25(averageDocumentFieldLength, documentLengths), doc, terms).Ok?
  {
    if terms != [] {
      Bm25Defined(c, averageDocumentFieldLength, documentLengths, doc, terms[..|terms| - 1]);
      var t := terms[|terms| - 1];
      if t in c.index {
        var docLen := CountOf(documentLengths, doc) as real;
        assert docLen / averageDocumentFieldLength >= 0.0;
        assert |c.index[t]| > 0 by {
          var d :| d in c.index[t];
        }
      }
    }
  }

  /** A unigram score raises exactly when the query is non-empty and the document's smoothing divides by zero. */
  lemma {:induction false} UnigramErrIff(c: Corpus, smoothing: string, documentLengths: map<string, nat>, alpha: real, lamda: real, doc: string, terms: seq<string>)
    ensures Score(c, Unigram(smoothing, documentLengths, alpha, lamda), doc, terms).Err? <==>
      terms != [] && SmoothingFails(c, smoothing, CountOf(documentLengths, doc), Sum(documentLengths), alpha)
  {
    if terms != [] {
      UnigramErrIff(c, smoothing, documentLengths, alpha, lamda, doc, terms[..|terms| - 1]);
    }
  }

  /** Naive smoothing of a term the document does not contain gives probability 0, which the guard turns into 0 rather than `log 0`. */
  lemma UnigramNaiveZeroTf(c: Corpus, documentLengths: map<string, nat>, alpha: real, lamda: real, doc: string, t: string)
    requires CountOf(documentLengths, doc) > 0 && Tf(c.index, t, doc) == 0
    ensures TermScore(c, Unigram("naive", documentLengths, alpha, lamda), doc, t) == Ok(0.0)
  {
  }

  /** An unrecognised smoothing name never raises and scores the raw count. */
  lemma UnigramUnknownSmoothing(c: Corpus, smoothing: string, documentLengths: map<string, nat>, alpha: real, lamda: real, doc: string, t: string)
    requires smoothing != "bayes" && smoothing != "naive" && smoothing != "mixture"
    ensures TermScore(c, Unigram(smoothing, documentLengths, alpha, lamda), doc, t) == Ok(LogOrZero(c, Tf(c.index, t, doc) as real))
  {
  }

  class Scorer {
    /** `self.index` and `self.N`, with `np.log`. */
    const corpus: Corpus
    /** `self.idf`, the idf cache. */
    var idf: map<string, real>

    constructor (index: PostingIndex, numberOfDocuments: nat, ln: real -> real)
      ensures corpus == Corpus(index, numberOfDocuments, ln)
      ensures idf == map[] && Valid()
    {
      corpus := Corpus(index, numberOfDocuments, ln);
      idf := map[];
    }

    /** Every cached idf belongs to an indexed term with a non-empty posting map and is its `ln(N/df)`. */
    ghost predicate Valid()
      reads this
    {
      forall t :: t in idf ==> t in corpus.index && |corpus.index[t]| > 0 && idf[t] == Idf(corpus, t)
    }

    /** `get_list_of_documents(query)`: the candidate documents, each once. */
    method GetListOfDocuments(query: seq<string>) returns (docs: seq<string>)
      ensures Distinct(docs)
      ensures forall d :: d in docs <==> d in Candidates(corpus.index, query)
    {
      var listOfDocuments: set<string> := {};
      for i := 0 to |query|
        invariant listOfDocuments == Candidates(corpus.index, query[..i])
      {
        var term := query[i];
        assert query[..i + 1] == query[..i] + [term];
        if term in corpus.index {
          listOfDocuments := listOfDocuments + corpus.index[term].Keys;
        }
      }
      assert query[..|query|] == query;
      docs := ListOf(listOfDocuments);
    }

    /** `list(s)` for a set: its elements, each once, in some order. */
    static method ListOf(s: set<string>) returns (r: seq<string>)
      ensures Distinct(r)
      ensures forall x :: x in r <==> x in s
    {
      r := [];
      var rest := s;
      while rest != {}
        invariant rest <= s
        invariant Distinct(r)
        invariant forall x :: x in r <==> x in s - rest
        decreases rest
      {
        var x :| x in rest;
        assert x !in r;
        r := r + [x];
        rest := rest - {x};
      }
    }

    /** `get_idf(term)`: the cached value if there is one, otherwise `ln(N/df)`, which is then cached. */
    method GetIdf(term: string) returns (r: Result<real>)
      requires Valid()
      modifies this
      ensures Valid()
      ensures r == IdfResult(corpus, term)
      ensures term in old(idf) ==> idf == old(idf)
      ensures term !in old(idf) ==> idf == (if r.Ok? then old(idf)[term := r.value] else old(idf))
    {
      if term in idf {
        return Ok(idf[term]);
      }
      if term !in corpus.index {
        return Err(KeyError);
      }
      if |corpus.index[term]| == 0 {
        return Err(ZeroDivisionError);
      }
      var value := corpus.ln(corpus.n as real / |corpus.index[term]| as real);
      idf := idf[term := value];
      return Ok(value);
    }

    /** `get_vector_space_model_score(...)`. */
    method GetVectorSpaceModelScore(query: seq<string>, queryTfs: map<string, nat>, documentId: string, documentMethod: string, queryMethod: string)
      returns (r: Result<real>)
      requires Valid()
      modifies this
      ensures Valid()
      ensures r == Score(corpus, VectorSpace(queryTfs, documentMethod, queryMethod), documentId, query)
    {
      ghost var f := TermScoreOf(corpus, VectorSpace(queryTfs, documentMethod, queryMethod), documentId);
      var score := 0.0;
      for i := 0 to |query|
        invariant Valid()
        invariant Fold(f, query[..i]) == Ok(score)
      {
        var next := AddVectorSpaceTerm(query, i, score, queryTfs, documentId, documentMethod, queryMethod);
        if next.Err? {
          r := next;
          FoldErrStays(f, query, i + 1);
          return;
        }
        score := next.value;
      }
      assert query[..|query|] == query;
      r := Ok(score);
    }

    /** `score += w_doc * w_query` for the `i`-th query term, or what computing it raises. */
    method AddVectorSpaceTerm(query: seq<string>, i: int, score: real, queryTfs: map<string, nat>, documentId: string, documentMethod: string, queryMethod: string)
      returns (r: Result<real>)
      requires Valid() && 0 <= i < |query|
      requires Fold(TermScoreOf(corpus, VectorSpace(queryTfs, documentMethod, queryMethod), documentId), query[..i]) == Ok(score)
      modifies this
      ensures Valid()
      ensures r == Fold(TermScoreOf(corpus, VectorSpace(queryTfs, documentMethod, queryMethod), documentId), query[..i + 1])
    {
      ghost var f := TermScoreOf(corpus, VectorSpace(queryTfs, documentMethod, queryMethod), documentId);
      var w := VectorSpaceTerm(query[i], queryTfs, documentId, documentMethod, queryMethod);
      TermScoreOfApply(corpus, VectorSpace(queryTfs, documentMethod, queryMethod), documentId, query[i]);
      FoldStep(f, query, i, score, w);
      r := if w.Err? then w else Ok(score + w.value);
    }

    /** One pass of the loop of `get_vector_space_model_score`: the term's `w_doc * w_query`, or what it raises. */
    method VectorSpaceTerm(term: string, queryTfs: map<string, nat>, documentId: string, documentMethod: string, queryMethod: string)
      returns (r: Result<real>)
      requires Valid()
      modifies this
      ensures Valid()
      ensures r == TermScore(corpus, VectorSpace(queryTfs, documentMethod, queryMethod), documentId, term)
    {
      if !(term in corpus.index && corpus.index[term] != map[]) {
        return Ok(0.0);
      }
      var docDict := corpus.index[term];
      var tf := if documentId in docDict then docDict[documentId] else 0;
      var queryTf := if term in queryTfs then queryTfs[term] else 0;
      if |documentMethod| < 2 {
        return Err(IndexError);
      }
      var idfBound, wDoc := Weight(term, documentMethod, tf);
      if |queryMethod| < 2 {
        return Err(IndexError);
      }
      var queryIdfBound, wQuery := Weight(term, queryMethod, queryTf);
      if !idfBound || !queryIdfBound {
        return Err(UnboundLocalError);
      }
      return Ok(Product(wDoc, wQuery));
    }

    /**
      One side's weight, `tf * idf`: the tf letter of `code` adjusts the count,
      and the df letter picks the idf (`t`) or 1 (`n`). Any other df letter
      leaves the idf unbound.
     */
    method Weight(term: string, code: string, tf: int) returns (bound: bool, w: real)
      requires Valid() && |code| >= 2 && Contributes(corpus.index, term)
      modifies this
      ensures Valid()
      ensures bound <==> code[1] == 't' || code[1] == 'n'
      ensures bound ==> w == SideWeight(corpus, code, tf, term)
    {
      var weight := tf as real;
      if code[0] == 'l' {
        weight := if tf < 0 then 1.0 + corpus.ln(tf as real) else 0.0;
      }
      var idf := 0.0;
      bound := false;
      if code[1] == 't' {
        var x := GetIdf(term);
        bound, idf := true, x.value;
      } else if code[1] == 'n' {
        bound, idf := true, 1.0;
      }
      w := weight * idf;
    }

    /** `compute_scores_with_vector_space_model(query, method)`. */
    method ComputeScoresWithVectorSpaceModel(query: seq<string>, code: string) returns (r: Result<map<string, real>>)
      requires Valid()
      modifies this
      ensures Valid()
      ensures SplitMethod(code).Err? ==> r == Err(ValueError)
      ensures SplitMethod(code).Ok? ==>
        var (documentMethod, queryMethod) := SplitMethod(code).value;
        && (r.Err? <==> Candidates(corpus.index, query) != {} && !CodesUsable(documentMethod, queryMethod))
        && (r.Err? ==> r.error == CodeError(documentMethod, queryMethod))
        && (r.Ok? ==> r.value.Keys == Candidates(corpus.index, query))
        && (r.Ok? ==> forall d :: d in r.value ==>
              Score(corpus, VectorSpace(Counts(query), documentMethod, queryMethod), d, query) == Ok(r.value[d]))
    {
      var queryTfs := Counts(query);
      var docs := GetListOfDocuments(query);
      var parts := SplitMethod(code);
      if parts.Err? {
        return Err(parts.error);
      }
      var documentMethod, queryMethod := parts.value.0, parts.value.1;
      r := ScoreDocumentsWithVectorSpaceModel(query, queryTfs, docs, documentMethod, queryMethod);
      if docs != [] {
        assert docs[0] in Candidates(corpus.index, query);
      }
    }

    /**
      The loop of `compute_scores_with_vector_space_model` over the candidate
      documents: it stops at the first raise, and otherwise maps each document
      to its score.
     */
    method ScoreDocumentsWithVectorSpaceModel(query: seq<string>, queryTfs: map<string, nat>, docs: seq<string>,
                                             documentMethod: string, queryMethod: string)
      returns (r: Result<map<string, real>>)
      requires Valid()
      requires forall d :: d in docs ==> d in Candidates(corpus.index, query)
      modifies this
      ensures Valid()
      ensures r.Err? <==> docs != [] && !CodesUsable(documentMethod, queryMethod)
      ensures r.Err? ==> r.error == CodeError(documentMethod, queryMethod)
      ensures r.Ok? ==> forall d :: d in r.value <==> d in docs
      ensures r.Ok? ==> forall d :: d in r.value ==>
        Score(corpus, VectorSpace(queryTfs, documentMethod, queryMethod), d, query) == Ok(r.value[d])
    {
      var scores: map<string, real> := map[];
      ghost var model := VectorSpace(queryTfs, documentMethod, queryMethod);
      for i := 0 to |docs|
        invariant Valid()
        invariant forall d :: d in scores <==> d in docs[..i]
        invariant forall d :: d in scores ==> Score(corpus, model, d, query) == Ok(scores[d])
        invariant i > 0 ==> CodesUsable(documentMethod, queryMethod)
      {
        var score := GetVectorSpaceModelScore(query, queryTfs, docs[i], documentMethod, queryMethod);
        CandidateErrIff(corpus, queryTfs, documentMethod, queryMethod, docs[i], query);
        if score.Err? {
          return Err(CodeError(documentMethod, queryMethod));
        }
        PrefixStep(docs, i);
        scores := scores[docs[i] := score.value];
      }
      assert docs[..|docs|] == docs;
      r := Ok(scores);
    }

    /** `get_okapi_bm25_score(...)`. */
    method GetOkapiBm25Score(query: seq<string>, documentId: string, averageDocumentFieldLength: real, documentLengths: map<string, nat>)
      returns (r: Result<real>)
      requires Valid()
      modifies this
      ensures Valid()
      ensures r == Score(corpus, OkapiBm25(averageDocumentFieldLength, documentLengths), documentId, query)
      ensures r.Err? ==> r.error == ZeroDivisionError
    {
      ghost var f := TermScoreOf(corpus, OkapiBm25(averageDocumentFieldLength, documentLengths), documentId);
      var score := 0.0;
      var docLen := if documentId in documentLengths then documentLengths[documentId] else 0;
      for i := 0 to |query|
        invariant Valid()
        invariant Fold(f, query[..i]) == Ok(score)
      {
        var next := AddBm25Term(query, i, score, documentId, averageDocumentFieldLength, docLen, documentLengths);
        if next.Err? {
          r := next;
          FoldErrStays(f, query, i + 1);
          return;
        }
        score := next.value;
      }
      assert query[..|query|] == query;
      r := Ok(score);
    }

    /** `score += idf * ((tf * (k1 + 1)) / (tf + k1 * (1 - b + b * (dl / avdl))))` for the `i`-th query term, or what it raises. */
    method AddBm25Term(query: seq<string>, i: int, score: real, documentId: string, averageDocumentFieldLength: real, docLen: nat, ghost documentLengths: map<string, nat>)
      returns (r: Result<real>)
      requires Valid() && 0 <= i < |query| && docLen == CountOf(documentLengths, documentId)
      requires Fold(TermScoreOf(corpus, OkapiBm25(averageDocumentFieldLength, documentLengths), documentId), query[..i]) == Ok(score)
      modifies this
      ensures Valid()
      ensures r == Fold(TermScoreOf(corpus, OkapiBm25(averageDocumentFieldLength, documentLengths), documentId), query[..i + 1])
      ensures r.Err? ==> r.error == ZeroDivisionError
    {
      ghost var f := TermScoreOf(corpus, OkapiBm25(averageDocumentFieldLength, documentLengths), documentId);
      var termScore := Bm25Term(query[i], documentId, averageDocumentFieldLength, docLen, documentLengths);
      TermScoreOfApply(corpus, OkapiBm25(averageDocumentFieldLength, documentLengths), documentId, query[i]);
      FoldStep(f, query, i, score, termScore);
      r := if termScore.Err? then termScore else Ok(score + termScore.value);
    }

    /** One pass of the loop of `get_okapi_bm25_score`, with `k1 = 1.5` and `b = 0.75`. */
    method Bm25Term(term: string, documentId: string, averageDocumentFieldLength: real, docLen: nat, ghost documentLengths: map<string, nat>)
      returns (r: Result<real>)
      requires Valid() && docLen == CountOf(documentLengths, documentId)
      modifies this
      ensures Valid()
      ensures r == TermScore(corpus, OkapiBm25(averageDocumentFieldLength, documentLengths), documentId, term)
      ensures r.Err? ==> r.error == ZeroDivisionError
    {
      if term !in corpus.index {
        return Ok(0.0);
      }
      var tf := if documentId in corpus.index[term] then corpus.index[term][documentId] else 0;
      var idf := GetIdf(term);
      if idf.Err? || averageDocumentFieldLength == 0.0 {
        return Err(ZeroDivisionError);
      }
      var denominator := Bm25Denominator(tf as real, docLen as real, averageDocumentFieldLength);
      if denominator == 0.0 {
        return Err(ZeroDivisionError);
      }
      return Ok(Bm25Weight(idf.value, tf as real, denominator));
    }

    /** `compute_socres_with_okapi_bm25(...)`. */
    method ComputeScoresWithOkapiBm25(query: seq<string>, averageDocumentFieldLength: real, documentLengths: map<string, nat>)
      returns (r: Result<map<string, real>>)
      requires Valid()
      modifies this
      ensures Valid()
      ensures r.Err? <==>
        exists d :: d in Candidates(corpus.index, query) && Score(corpus, OkapiBm25(averageDocumentFieldLength, documentLengths), d, query).Err?
      ensures r.Err? ==> r.error == ZeroDivisionError
      ensures r.Ok? ==> r.value.Keys == Candidates(corpus.index, query)
      ensures r.Ok? ==> forall d :: d in r.value ==>
        Score(corpus, OkapiBm25(averageDocumentFieldLength, documentLengths), d, query) == Ok(r.value[d])
    {
      ghost var model := OkapiBm25(averageDocumentFieldLength, documentLengths);
      var scores: map<string, real> := map[];
      var documents := GetListOfDocuments(query);
      for i := 0 to |documents|
        invariant Valid()
        invariant forall d :: d in scores <==> d in documents[..i]
        invariant forall d :: d in scores ==> Score(corpus, model, d, query) == Ok(scores[d])
      {
        var score := GetOkapiBm25Score(query, documents[i], averageDocumentFieldLength, documentLengths);
        if score.Err? {
          return Err(score.error);
        }
        PrefixStep(documents, i);
        scores := scores[documents[i] := score.value];
      }
      assert documents[..|documents|] == documents;
      r := Ok(scores);
    }

    /** `compute_score_with_unigram_model(...)`. */
    method ComputeScoreWithUnigramModel(query: seq<string>, documentId: string, smoothing: string,
                                        documentLengths: map<string, nat>, alpha: real, lamda: real)
      returns (r: Result<real>)
      ensures r == Score(corpus, Unigram(smoothing, documentLengths, alpha, lamda), documentId, query)
    {
      ghost var f := TermScoreOf(corpus, Unigram(smoothing, documentLengths, alpha, lamda), documentId);
      var score := 0.0;
      var docLen := if documentId in documentLengths then documentLengths[documentId] else 0;
      var modelSize := SumValues(documentLengths);
      for i := 0 to |query|
        invariant Fold(f, query[..i]) == Ok(score)
      {
        var next := AddUnigramTerm(query, i, score, documentId, smoothing, documentLengths, docLen, modelSize, alpha, lamda);
        if next.Err? {
          r := next;
          FoldErrStays(f, query, i + 1);
          return;
        }
        score := next.value;
      }
      assert query[..|query|] == query;
      r := Ok(score);
    }

    /** `score += log(p)` (or 0) for the `i`-th query term, or what smoothing raises. */
    method AddUnigramTerm(query: seq<string>, i: int, score: real, documentId: string, smoothing: string, documentLengths: map<string, nat>,
                          docLen: nat, modelSize: int, alpha: real, lamda: real)
      returns (r: Result<real>)
      requires 0 <= i < |query| && docLen == CountOf(documentLengths, documentId) && modelSize == Sum(documentLengths)
      requires Fold(TermScoreOf(corpus, Unigram(smoothing, documentLengths, alpha, lamda), documentId), query[..i]) == Ok(score)
      ensures r == Fold(TermScoreOf(corpus, Unigram(smoothing, documentLengths, alpha, lamda), documentId), query[..i + 1])
    {
      ghost var f := TermScoreOf(corpus, Unigram(smoothing, documentLengths, alpha, lamda), documentId);
      var termScore := UnigramTerm(query[i], documentId, smoothing, documentLengths, docLen, modelSize, alpha, lamda);
      TermScoreOfApply(corpus, Unigram(smoothing, documentLengths, alpha, lamda), documentId, query[i]);
      FoldStep(f, query, i, score, termScore);
      r := if termScore.Err? then termScore else Ok(score + termScore.value);
    }

    /** One pass of the loop of `compute_score_with_unigram_model`: `log` of the smoothed probability, 0 when it is not positive. */
    method UnigramTerm(term: string, documentId: string, smoothing: string, documentLengths: map<string, nat>,
                       docLen: nat, modelSize: int, alpha: real, lamda: real)
      returns (r: Result<real>)
      requires docLen == CountOf(documentLengths, documentId) && modelSize == Sum(documentLengths)
      ensures r == TermScore(corpus, Unigram(smoothing, documentLengths, alpha, lamda), documentId, term)
    {
      var tf := Tf(corpus.index, term, documentId);
      var modelTf := SumValues(map d | d in documentLengths :: Tf(corpus.index, term, d));
      var p := Smoothed(corpus, smoothing, tf, docLen, modelTf, modelSize, alpha, lamda);
      if p.Err? {
        return p;
      }
      return Ok(if p.value > 0.0 then corpus.ln(p.value) else 0.0);
    }

    /** `compute_scores_with_unigram_model(...)`. */
    method ComputeScoresWithUnigramModel(query: seq<string>, smoothing: string, documentLengths: map<string, nat>, alpha: real, lamda: real)
      returns (r: Result<map<string, real>>)
      ensures r.Err? <==>
        exists d :: d in Candidates(corpus.index, query) && SmoothingFails(corpus, smoothing, CountOf(documentLengths, d), Sum(documentLengths), alpha)
      ensures r.Err? ==> r.error == ZeroDivisionError
      ensures r.Ok? ==> r.value.Keys == Candidates(corpus.index, query)
      ensures r.Ok? ==> forall d :: d in r.value ==>
        Score(corpus, Unigram(smoothing, documentLengths, alpha, lamda), d, query) == Ok(r.value[d])
    {
      ghost var model := Unigram(smoothing, documentLengths, alpha, lamda);
      var scors: map<string, real> := map[];
      var documents := GetListOfDocuments(query);
      for i := 0 to |documents|
        invariant forall d :: d in scors <==> d in documents[..i]
        invariant forall d :: d in scors ==> Score(corpus, model, d, query) == Ok(scors[d])
        invariant forall d :: d in scors ==> !SmoothingFails(corpus, smoothing, CountOf(documentLengths, d), Sum(documentLengths), alpha)
      {
        var document := documents[i];
        assert document in Candidates(corpus.index, query);
        var score := ComputeScoreWithUnigramModel(query, document, smoothing, documentLengths, alpha, lamda);
        UnigramErrIff(corpus, smoothing, documentLengths, alpha, lamda, document, query);
        if score.Err? {
          UnigramScoreError(corpus, model, document, query);
          return Err(score.error);
        }
        assert query != [] by {
          var t :| t in query && t in corpus.index && document in corpus.index[t];
        }
        PrefixStep(documents, i);
        scors := scors[document := score.value];
      }
      assert documents[..|documents|] == documents;
      r := Ok(scors);
    }
  }

  /** Every exception a unigram score raises is a `ZeroDivisionError`. */
  lemma {:induction false} UnigramScoreError(c: Corpus, model: Model, doc: string, terms: seq<string>)
    requires model.Unigram?
    ensures Score(c, model, doc, terms).Err? ==> Score(c, model, doc, terms).error == ZeroDivisionError
  {
    if terms != [] {
      UnigramScoreError(c, model, doc, terms[..|terms| - 1]);
    }
  }
}
