/**
  Snippet extraction (Logic/core/utility/snippet.py). The query is
  lower-cased, split on whitespace and stripped of stop words. For each
  remaining word found among the document's words, a window of up to `n`
  words on each side of its first occurrence is taken, with the word shown
  as `***word***`. Words that do not occur are reported separately. The
  English stop-word list, read from nltk in the source, is a constructor
  parameter here.
 */
module SnippetFinder {
  import opened Results
  import opened Text

  /** `f'***{word}***'`. */
  function Highlight(word: string): (r: string)
    ensures |r| == |word| + 6
  {
    "***" + word + "***"
  }

  /** The words of `ws` that are not stop words, in order. */
  function DropStopWords(ws: seq<string>, stopwords: set<string>): (r: seq<string>)
    ensures forall w :: w in r <==> w in ws && w !in stopwords
  {
    if ws == [] then []
    else
      var last := ws[|ws| - 1];
      assert ws == ws[..|ws| - 1] + [last];
      DropStopWords(ws[..|ws| - 1], stopwords) + (if last in stopwords then [] else [last])
  }

  /** The words the query filter keeps: `[w for w in query.lower().split() if w not in stopwords]`. */
  function QueryWords(query: string, stopwords: set<string>): (ws: seq<string>)
    ensures forall i :: 0 <= i < |ws| ==> IsWord(ws[i]) && ws[i] !in stopwords
    ensures forall w :: w in ws <==> w in Split(Lower(query)) && w !in stopwords
  {
    var r := DropStopWords(Split(Lower(query)), stopwords);
    assert forall i :: 0 <= i < |r| ==> r[i] in Split(Lower(query));
    r
  }

  /** `max(i - n, 0)`. */
  function WindowStart(i: nat, n: nat): nat {
    if i >= n then i - n else 0
  }

  /** `min(i + n + 1, len(doc_words))`. */
  function WindowEnd(i: nat, n: nat, length: nat): nat {
    if i + n + 1 < length then i + n + 1 else length
  }

  /** The words around position `i` with the word at `i` highlighted. */
  function Window(docWords: seq<string>, i: nat, n: nat): seq<string>
    requires i < |docWords|
  {
    docWords[WindowStart(i, n)..i] + [Highlight(docWords[i])] + docWords[i + 1..WindowEnd(i, n, |docWords|)]
  }

  /** The snippet for a word that occurs: its window around the first occurrence, joined by spaces. */
  function SnippetOf(docWords: seq<string>, word: string, n: nat): string
    requires word in docWords
  {
    Join(" ", Window(docWords, IndexOf(docWords, word), n))
  }

  /** The snippets of the query words that occur in the document, in query order. */
  function Snippets(queryWords: seq<string>, docWords: seq<string>, n: nat): seq<string> {
    if queryWords == [] then []
    else
      var w := queryWords[|queryWords| - 1];
      Snippets(queryWords[..|queryWords| - 1], docWords, n) + (if w in docWords then [SnippetOf(docWords, w, n)] else [])
  }

  /** The query words that do not occur in the document, in query order, repeats kept. */
  function Missing(queryWords: seq<string>, docWords: seq<string>): seq<string> {
    if queryWords == [] then []
    else
      var w := queryWords[|queryWords| - 1];
      Missing(queryWords[..|queryWords| - 1], docWords) + (if w in docWords then [] else [w])
  }

  /**
    The window holds at most `2n + 1` words; the highlighted word sits at
    offset `i - max(i - n, 0)` and the words around it are the document's own.
   */
  lemma WindowSpec(docWords: seq<string>, i: nat, n: nat)
    requires i < |docWords|
    ensures |Window(docWords, i, n)| <= 2 * n + 1
    ensures |Window(docWords, i, n)| == WindowEnd(i, n, |docWords|) - WindowStart(i, n)
    ensures Window(docWords, i, n)[i - WindowStart(i, n)] == Highlight(docWords[i])
    ensures forall j :: WindowStart(i, n) <= j < WindowEnd(i, n, |docWords|) && j != i ==>
      Window(docWords, i, n)[j - WindowStart(i, n)] == docWords[j]
  {
  }

  /** Every query word is either snippeted or reported missing: the two lists share out the query words. */
  lemma {:induction false} SnippetsPartition(queryWords: seq<string>, docWords: seq<string>, n: nat)
    ensures |Snippets(queryWords, docWords, n)| + |Missing(queryWords, docWords)| == |queryWords|
    ensures forall w :: Count(Missing(queryWords, docWords), w) == (if w in docWords then 0 else Count(queryWords, w))
  {
    if queryWords != [] {
      var prefix := queryWords[..|queryWords| - 1];
      SnippetsPartition(prefix, docWords, n);
      var last := queryWords[|queryWords| - 1];
      forall w ensures Count(Missing(queryWords, docWords), w) == (if w in docWords then 0 else Count(queryWords, w)) {
        CountAppend(Missing(prefix, docWords), if last in docWords then [] else [last], w);
        CountAppend(prefix, [last], w);
        assert queryWords == prefix + [last];
        assert Count([last], w) == (if last == w then 1 else 0) by {
          assert [last][..0] == [];
        }
      }
    }
  }

  /** A joined string is at least as long as any of its parts. */
  lemma {:induction false} JoinLength(sep: string, parts: seq<string>, i: nat)
    requires i < |parts|
    ensures |Join(sep, parts)| >= |parts[i]|
  {
    if |parts| > 1 && i > 0 {
      JoinLength(sep, parts[1..], i - 1);
    }
  }

  /** The final snippet is empty exactly when no query word occurs in the document. */
  lemma {:induction false} FinalSnippetEmpty(queryWords: seq<string>, docWords: seq<string>, n: nat)
    ensures Join(" ... ", Snippets(queryWords, docWords, n)) == "" <==> forall w :: w in queryWords ==> w !in docWords
  {
    var s := Snippets(queryWords, docWords, n);
    SnippetsNonEmpty(queryWords, docWords, n);
    if s != [] {
      JoinLength(" ... ", s, 0);
    }
  }

  /** There is a snippet iff some query word occurs, and every snippet is non-empty. */
  lemma {:induction false} SnippetsNonEmpty(queryWords: seq<string>, docWords: seq<string>, n: nat)
    ensures Snippets(queryWords, docWords, n) == [] <==> forall w :: w in queryWords ==> w !in docWords
    ensures forall i :: 0 <= i < |Snippets(queryWords, docWords, n)| ==> Snippets(queryWords, docWords, n)[i] != ""
  {
    if queryWords != [] {
      var prefix := queryWords[..|queryWords| - 1];
      var last := queryWords[|queryWords| - 1];
      SnippetsNonEmpty(prefix, docWords, n);
      assert queryWords == prefix + [last];
      if last in docWords {
        var i := IndexOf(docWords, last);
        WindowSpec(docWords, i, n);
        JoinLength(" ", Window(docWords, i, n), i - WindowStart(i, n));
      }
    }
  }

  class Snippet {
    var numberOfWordsOnEachSide: nat
    /** `self.stopwords`, the English stop-word set. */
    var stopwords: set<string>

    constructor (numberOfWordsOnEachSide: nat, stopwords: set<string>)
      ensures this.numberOfWordsOnEachSide == numberOfWordsOnEachSide && this.stopwords == stopwords
    {
      this.numberOfWordsOnEachSide := numberOfWordsOnEachSide;
      this.stopwords := stopwords;
    }

    /**
      `remove_stop_words_from_query(query)` as written: the loop body reads
      `self.stop_words`, which the constructor never sets (it sets
      `self.stopwords`), so a query with at least one word raises
      `AttributeError`; a query without words never enters the loop and
      gives the empty string.
     */
    function RemoveStopWordsFromQueryAsWritten(query: string): (r: Result<string>)
      ensures r.Err? <==> Split(Lower(query)) != []
      ensures r.Err? ==> r.error == AttributeError
      ensures r.Ok? ==> r.value == ""
    {
      if Split(Lower(query)) == [] then Ok("") else Err(AttributeError)
    }

    /** `remove_stop_words_from_query(query)` reading the stop words the constructor stores. */
    function RemoveStopWordsFromQuery(query: string): (r: string)
      reads this
      ensures Split(r) == QueryWords(query, stopwords)
    {
      FilteredQueryWords(query, stopwords);
      Join(" ", QueryWords(query, stopwords))
    }

    /** `find_snippet(doc, query)`: the joined snippets, and the query words missing from the document. */
    method FindSnippet(doc: string, query: string) returns (finalSnippet: string, notExistWords: seq<string>)
      ensures finalSnippet == Join(" ... ", Snippets(QueryWords(query, stopwords), Split(doc), numberOfWordsOnEachSide))
      ensures notExistWords == Missing(QueryWords(query, stopwords), Split(doc))
    {
      var filteredQuery := RemoveStopWordsFromQuery(query);
      var docWords := Split(doc);
      var snippets;
      snippets, notExistWords := CollectSnippets(Split(filteredQuery), docWords, numberOfWordsOnEachSide);
      finalSnippet := Join(" ... ", snippets);
    }

    /** The loop of `find_snippet` over the filtered query words. */
    static method CollectSnippets(words: seq<string>, docWords: seq<string>, n: nat)
      returns (snippets: seq<string>, notExistWords: seq<string>)
      ensures snippets == Snippets(words, docWords, n)
      ensures notExistWords == Missing(words, docWords)
    {
      snippets, notExistWords := [], [];
      for i := 0 to |words|
        invariant snippets == Snippets(words[..i], docWords, n)
        invariant notExistWords == Missing(words[..i], docWords)
      {
        var word := words[i];
        PrefixStep(words, i);
        if word in docWords {
          var wordIdx := IndexOf(docWords, word);
          var start := if wordIdx >= n then wordIdx - n else 0;
          var end := if wordIdx + n + 1 < |docWords| then wordIdx + n + 1 else |docWords|;
          var snippet := docWords[start..wordIdx] + [Highlight(word)] + docWords[wordIdx + 1..end];
          assert snippet == Window(docWords, wordIdx, n) by {
            assert start == WindowStart(wordIdx, n) && end == WindowEnd(wordIdx, n, |docWords|);
          }
          snippets := snippets + [Join(" ", snippet)];
        } else {
          notExistWords := notExistWords + [word];
        }
      }
      assert words[..|words|] == words;
    }
  }

  /**
    The filtered query splits back into exactly the kept words: lower-cased
    query words that are not stop words, in order.
   */
  lemma FilteredQueryWords(query: string, stopwords: set<string>)
    ensures Split(Join(" ", QueryWords(query, stopwords))) == QueryWords(query, stopwords)
  {
    SplitJoin(QueryWords(query, stopwords));
  }
}
