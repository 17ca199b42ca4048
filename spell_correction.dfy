/**
  The spell corrector (Logic/core/utility/spell_correction.py). It builds a
  table from every corpus word to its set of 2-shingles, plus a word counter.
  A query word is replaced by its best candidate among the table's words that
  share a shingle with it.

  Two things are kept as the source has them:
  - the table is built with a discarded `.union`, so every word maps to the
    empty set;
  - the candidate score is the boolean `jaccard > 0`, bound by a walrus,
    rather than the Jaccard score itself.
  The table is a Python dict, so its insertion order matters. It is modelled
  as the sequence of its keys beside the map.
 */
module SpellCorrector {
  import opened Text
  import opened Shingling

  /** The default shingle size of `shingle_word`. */
  const ShingleSize: nat := 2

  /** How many words `find_nearest_words` returns at most. */
  const TopCount: nat := 5

  /** Every whitespace-separated word of the corpus, document by document. */
  function CorpusWords(documents: seq<string>): (ws: seq<string>)
    ensures forall i :: 0 <= i < |ws| ==> IsWord(ws[i])
  {
    if documents == [] then [] else CorpusWords(documents[..|documents| - 1]) + Split(documents[|documents| - 1])
  }

  /** The distinct words of `ws`, each at its first occurrence (the insertion order of a dict keyed by them). */
  function FirstOccurrences(ws: seq<string>): (r: seq<string>)
    ensures Distinct(r)
    ensures forall w :: w in r <==> w in ws
  {
    if ws == [] then []
    else
      var prefix := FirstOccurrences(ws[..|ws| - 1]);
      SnocLast(ws);
      if ws[|ws| - 1] in prefix then prefix else prefix + [ws[|ws| - 1]]
  }

  /**
    The candidates of `find_nearest_words` in table order, each paired with
    its stored score: the boolean `jaccard > 0`, true for every candidate.
   */
  function Candidates(order: seq<string>, table: map<string, set<string>>, word: string): (c: seq<(string, bool)>)
    requires forall w :: w in order ==> w in table
  {
    if order == [] then []
    else
      var w := order[|order| - 1];
      var prefix := Candidates(order[..|order| - 1], table, word);
      if Jaccard(Shingles(word, ShingleSize), table[w]) > 0.0 then prefix + [(w, true)] else prefix
  }

  /** The entries of `c` whose score is `flag`, in order. */
  function WithScore(c: seq<(string, bool)>, flag: bool): seq<(string, bool)> {
    if c == [] then []
    else WithScore(c[..|c| - 1], flag) + (if c[|c| - 1].1 == flag then [c[|c| - 1]] else [])
  }

  /** `candidates.sort(key=lambda x: x[1])` on boolean scores: stable, `False` before `True`. */
  function SortByScore(c: seq<(string, bool)>): seq<(string, bool)> {
    WithScore(c, false) + WithScore(c, true)
  }

  /** `[t[0] for t in candidates[:-6:-1]]`: the words of the last five entries, last first. */
  function TopFive(c: seq<(string, bool)>): (r: seq<string>)
    ensures |r| == if |c| < TopCount then |c| else TopCount
  {
    var n := if |c| < TopCount then |c| else TopCount;
    seq(n, i requires 0 <= i < n => c[|c| - 1 - i].0)
  }

  /** What `find_nearest_words(word)` returns for a table with key order `order`. */
  function Nearest(order: seq<string>, table: map<string, set<string>>, word: string): seq<string>
    requires forall w :: w in order ==> w in table
  {
    TopFive(SortByScore(Candidates(order, table, word)))
  }

  /** `word`, or its first nearest word when there is one (one step of `spell_check`). */
  function CorrectWord(order: seq<string>, table: map<string, set<string>>, word: string): string
    requires forall w :: w in order ==> w in table
  {
    var nearest := Nearest(order, table, word);
    if nearest != [] then nearest[0] else word
  }

  /** Every word of `ws` corrected, in order. */
  function CorrectWords(order: seq<string>, table: map<string, set<string>>, ws: seq<string>): (r: seq<string>)
    requires forall w :: w in order ==> w in table
    ensures |r| == |ws|
  {
    if ws == [] then []
    else CorrectWords(order, table, ws[..|ws| - 1]) + [CorrectWord(order, table, ws[|ws| - 1])]
  }

  lemma {:induction false} CandidatesSpec(order: seq<string>, table: map<string, set<string>>, word: string)
    requires forall w :: w in order ==> w in table
    ensures forall i :: 0 <= i < |Candidates(order, table, word)| ==>
      var e := Candidates(order, table, word)[i];
      e.1 && e.0 in order && Jaccard(Shingles(word, ShingleSize), table[e.0]) > 0.0
  {
    if order != [] {
      CandidatesSpec(order[..|order| - 1], table, word);
    }
  }

  /** Sorting entries that all carry the same score leaves them in place. */
  lemma {:induction false} SortAllTrue(c: seq<(string, bool)>)
    requires forall i :: 0 <= i < |c| ==> c[i].1
    ensures SortByScore(c) == c
  {
    if c != [] {
      SortAllTrue(c[..|c| - 1]);
      assert c == c[..|c| - 1] + [c[|c| - 1]];
    }
  }

  /**
    Because the stored score is the boolean `jaccard > 0`, the sort changes
    nothing: the result is the last five candidates in reverse table order,
    whatever their Jaccard scores.
   */
  lemma NearestIsLastFive(order: seq<string>, table: map<string, set<string>>, word: string)
    requires forall w :: w in order ==> w in table
    ensures Nearest(order, table, word) == TopFive(Candidates(order, table, word))
  {
    CandidatesSpec(order, table, word);
    SortAllTrue(Candidates(order, table, word));
  }

  /** At most five words come back, each a table word sharing a shingle with `word`. */
  lemma NearestSpec(order: seq<string>, table: map<string, set<string>>, word: string)
    requires forall w :: w in order ==> w in table
    ensures |Nearest(order, table, word)| <= TopCount
    ensures forall w :: w in Nearest(order, table, word) ==>
      w in order && Jaccard(Shingles(word, ShingleSize), table[w]) > 0.0
  {
    var c := Candidates(order, table, word);
    NearestIsLastFive(order, table, word);
    CandidatesSpec(order, table, word);
    forall w | w in TopFive(c)
      ensures w in order && Jaccard(Shingles(word, ShingleSize), table[w]) > 0.0
    {
      TopFiveFromCandidates(c, w);
    }
  }

  /** Every word of the top five is the word of some candidate. */
  lemma TopFiveFromCandidates(c: seq<(string, bool)>, w: string)
    requires w in TopFive(c)
    ensures exists i :: 0 <= i < |c| && c[i].0 == w
  {
    var top := TopFive(c);
    var k :| 0 <= k < |top| && top[k] == w;
    assert c[|c| - 1 - k].0 == w;
  }

  /** When every stored shingle set is empty, as the constructor leaves them, no word has a candidate. */
  lemma {:induction false} EmptyTableNoCandidates(order: seq<string>, table: map<string, set<string>>, word: string)
    requires forall w :: w in order ==> w in table && table[w] == {}
    ensures Candidates(order, table, word) == []
  {
    if order != [] {
      EmptyTableNoCandidates(order[..|order| - 1], table, word);
      JaccardPositive(Shingles(word, ShingleSize), table[order[|order| - 1]]);
    }
  }

  /** Correcting words with table words keeps every entry a single word. */
  lemma {:induction false} CorrectWordsAreWords(order: seq<string>, table: map<string, set<string>>, ws: seq<string>)
    requires forall w :: w in order ==> w in table && IsWord(w)
    requires forall i :: 0 <= i < |ws| ==> IsWord(ws[i])
    ensures forall i :: 0 <= i < |ws| ==> IsWord(CorrectWords(order, table, ws)[i])
  {
    if ws != [] {
      CorrectWordsAreWords(order, table, ws[..|ws| - 1]);
      NearestSpec(order, table, ws[|ws| - 1]);
      var nearest := Nearest(order, table, ws[|ws| - 1]);
      if nearest != [] {
        assert nearest[0] in nearest;
      }
    }
  }

  /** With an empty-valued table no word changes. */
  lemma {:induction false} CorrectWordsEmptyTable(order: seq<string>, table: map<string, set<string>>, ws: seq<string>)
    requires forall w :: w in order ==> w in table && table[w] == {}
    ensures CorrectWords(order, table, ws) == ws
  {
    if ws != [] {
      CorrectWordsEmptyTable(order, table, ws[..|ws| - 1]);
      EmptyTableNoCandidates(order, table, ws[|ws| - 1]);
      SnocLast(ws);
    }
  }

  class SpellCorrection {
    /** The keys of `all_shingled_words` in insertion order. */
    var wordOrder: seq<string>
    /** `all_shingled_words`: word -> shingle set. */
    var allShingledWords: map<string, set<string>>
    /** `word_counter`. */
    var wordCounter: map<string, nat>

    /** The table's keys are distinct corpus words, listed in `wordOrder`. */
    ghost predicate Valid()
      reads this
    {
      && Distinct(wordOrder)
      && (forall w :: w in allShingledWords <==> w in wordOrder)
      && (forall w :: w in wordOrder ==> IsWord(w))
    }

    constructor (allDocuments: seq<string>)
      ensures Valid()
      ensures wordOrder == FirstOccurrences(CorpusWords(allDocuments))
      ensures forall w :: w in allShingledWords ==> allShingledWords[w] == {}
      ensures wordCounter == Counts(CorpusWords(allDocuments))
    {
      var order, table, counter := ShinglingAndCounting(allDocuments);
      wordOrder := order;
      allShingledWords := table;
      wordCounter := counter;
    }

    /**
      `shingling_and_counting(all_documents)`: every corpus word becomes a key
      of the table in first-occurrence order, and the counter holds each
      word's number of occurrences. The shingle set is united with the
      stored one and the union is thrown away, so every value stays empty.
     */
    static method ShinglingAndCounting(allDocuments: seq<string>)
      returns (order: seq<string>, table: map<string, set<string>>, counter: map<string, nat>)
      ensures order == FirstOccurrences(CorpusWords(allDocuments))
      ensures forall w :: w in table <==> w in order
      ensures forall w :: w in table ==> table[w] == {}
      ensures counter == Counts(CorpusWords(allDocuments))
    {
      order, table, counter := [], map[], map[];
      for i := 0 to |allDocuments|
        invariant order == FirstOccurrences(CorpusWords(allDocuments[..i]))
        invariant forall w :: w in table <==> w in order
        invariant forall w :: w in table ==> table[w] == {}
        invariant counter == Counts(CorpusWords(allDocuments[..i]))
      {
        PrefixStep(allDocuments, i);
        var words := Split(allDocuments[i]);
        counter := CountWords(counter, CorpusWords(allDocuments[..i]), words);
        order, table := TableWords(order, table, CorpusWords(allDocuments[..i]), words);
      }
      assert allDocuments[..|allDocuments|] == allDocuments;
    }

    /** `word_counter += Counter(words)`. */
    static method CountWords(counter: map<string, nat>, ghost seen: seq<string>, words: seq<string>)
      returns (updated: map<string, nat>)
      requires counter == Counts(seen)
      ensures updated == Counts(seen + words)
    {
      updated := counter;
      ConcatPrefixes(seen, words, 0);
      for j := 0 to |words|
        invariant updated == Counts(seen + words[..j])
      {
        CountsSnoc(seen + words[..j], words[j]);
        ConcatPrefixes(seen, words, j);
        updated := updated[words[j] := (if words[j] in updated then updated[words[j]] else 0) + 1];
      }
      assert words[..|words|] == words;
    }

    /**
      `all_shingled_words[word].union(self.shingle_word(word))` for each word:
      the lookup inserts a missing word with an empty set, and the union it
      computes is never stored.
     */
    static method TableWords(order: seq<string>, table: map<string, set<string>>, ghost seen: seq<string>, words: seq<string>)
      returns (order': seq<string>, table': map<string, set<string>>)
      requires order == FirstOccurrences(seen)
      requires forall w :: w in table <==> w in order
      requires forall w :: w in table ==> table[w] == {}
      ensures order' == FirstOccurrences(seen + words)
      ensures forall w :: w in table' <==> w in order'
      ensures forall w :: w in table' ==> table'[w] == {}
    {
      order', table' := order, table;
      ConcatPrefixes(seen, words, 0);
      for j := 0 to |words|
        invariant order' == FirstOccurrences(seen + words[..j])
        invariant forall w :: w in table' <==> w in order'
        invariant forall w :: w in table' ==> table'[w] == {}
      {
        var word := words[j];
        ConcatPrefixes(seen, words, j);
        if word !in table' {
          table' := table'[word := {}];
          order' := order' + [word];
        }
        var discarded := table'[word] + Shingles(word, ShingleSize);
      }
      assert words[..|words|] == words;
    }

    /** `find_nearest_words(word)`. */
    method FindNearestWords(word: string) returns (top: seq<string>)
      requires Valid()
      ensures top == Nearest(wordOrder, allShingledWords, word)
    {
      var candidates: seq<(string, bool)> := [];
      for i := 0 to |wordOrder|
        invariant candidates == Candidates(wordOrder[..i], allShingledWords, word)
      {
        var candidateWord := wordOrder[i];
        var score := Jaccard(Shingles(word, ShingleSize), allShingledWords[candidateWord]) > 0.0;
        if score {
          candidates := candidates + [(candidateWord, score)];
        }
        PrefixStep(wordOrder, i);
      }
      assert wordOrder[..|wordOrder|] == wordOrder;
      candidates := SortByScore(candidates);
      top := TopFive(candidates);
    }

    /** `spell_check(query)`: each query word replaced by its first nearest word, if any, rejoined with single spaces. */
    method SpellCheck(query: string) returns (result: string)
      requires Valid()
      ensures result == Join(" ", CorrectWords(wordOrder, allShingledWords, Split(query)))
    {
      var words := Split(query);
      var correctedQuery: seq<string> := [];
      for i := 0 to |words|
        invariant correctedQuery == CorrectWords(wordOrder, allShingledWords, words[..i])
      {
        var word := words[i];
        var nearestWords := FindNearestWords(word);
        if nearestWords != [] {
          word := nearestWords[0];
        }
        correctedQuery := correctedQuery + [word];
        PrefixStep(words, i);
      }
      assert words[..|words|] == words;
      result := Join(" ", correctedQuery);
    }
  }

  /**
    `spell_check` keeps the number of tokens: splitting its result gives the
    corrected words back, one per query word.
   */
  lemma SpellCheckTokens(order: seq<string>, table: map<string, set<string>>, query: string)
    requires forall w :: w in order ==> w in table && IsWord(w)
    ensures Split(Join(" ", CorrectWords(order, table, Split(query)))) == CorrectWords(order, table, Split(query))
    ensures |CorrectWords(order, table, Split(query))| == |Split(query)|
  {
    CorrectWordsAreWords(order, table, Split(query));
    SplitJoin(CorrectWords(order, table, Split(query)));
  }

  /**
    As the constructor builds it, the table holds only empty shingle sets, so
    `spell_check` changes no word and only normalises the whitespace.
   */
  lemma SpellCheckAsBuilt(order: seq<string>, table: map<string, set<string>>, query: string)
    requires forall w :: w in order ==> w in table && table[w] == {}
    ensures Join(" ", CorrectWords(order, table, Split(query))) == Join(" ", Split(query))
  {
    CorrectWordsEmptyTable(order, table, Split(query));
  }
}
