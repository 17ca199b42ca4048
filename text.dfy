/**
  Python string and list primitives the core relies on: `str.split()` with no
  argument, `sep.join(parts)`, `list.count`, `str.lower()` and clamped slicing.
 */
module Text {
  import opened Sums

  /** The characters Python's `str.split()` treats as whitespace. */
  predicate IsSpace(c: char) {
    var n := c as int;
    n == 32 || 9 <= n <= 13 || 28 <= n <= 31 || n == 0x85 || n == 0xA0 || n == 0x1680
    || 0x2000 <= n <= 0x200A || n == 0x2028 || n == 0x2029 || n == 0x202F
    || n == 0x205F || n == 0x3000
  }

  /** A token `str.split()` can produce: non-empty and free of whitespace. */
  predicate IsWord(w: string) {
    w != [] && forall i :: 0 <= i < |w| ==> !IsSpace(w[i])
  }

  /** Length of the longest whitespace-free prefix of `s`. */
  function WordLength(s: string): (n: nat)
    ensures n <= |s|
    ensures forall i :: 0 <= i < n ==> !IsSpace(s[i])
    ensures n < |s| ==> IsSpace(s[n])
  {
    if s == [] || IsSpace(s[0]) then 0 else 1 + WordLength(s[1..])
  }

  /** `s.split()`: the maximal runs of non-whitespace characters, in order. */
  function Split(s: string): (ws: seq<string>)
    ensures forall i :: 0 <= i < |ws| ==> IsWord(ws[i])
    decreases |s|
  {
    if s == [] then []
    else if IsSpace(s[0]) then Split(s[1..])
    else
      var n := WordLength(s);
      [s[..n]] + Split(s[n..])
  }

  /** `sep.join(parts)`. */
  function Join(sep: string, parts: seq<string>): string
  {
    if parts == [] then ""
    else if |parts| == 1 then parts[0]
    else parts[0] + sep + Join(sep, parts[1..])
  }

  /** Number of occurrences of `x` in `s` (`s.count(x)`, or `Counter(s)[x]`). */
  function Count<T(==)>(s: seq<T>, x: T): nat
  {
    if s == [] then 0 else Count(s[..|s| - 1], x) + (if s[|s| - 1] == x then 1 else 0)
  }

  /** No element of `s` occurs twice. */
  predicate Distinct<T(==)>(s: seq<T>) {
    forall i, j :: 0 <= i < j < |s| ==> s[i] != s[j]
  }

  /** `Counter(ws)`: every element of `ws` with its number of occurrences. */
  function Counts(ws: seq<string>): (c: map<string, nat>)
    ensures forall w :: w in c <==> w in ws
  {
    map w | w in ws :: Count(ws, w)
  }

  /** Counting one more element raises its count by one. */
  lemma CountsSnoc(ws: seq<string>, w: string)
    ensures Counts(ws + [w]) == Counts(ws)[w := (if w in Counts(ws) then Counts(ws)[w] else 0) + 1]
  {
    assert (ws + [w])[..|ws|] == ws;
    forall x | x in ws ensures Count(ws + [w], x) == Count(ws, x) + (if x == w then 1 else 0) {
    }
    CountZeroNotIn(ws, w);
  }

  /** The counts add up to the number of elements. */
  lemma {:induction false} CountsTotal(ws: seq<string>)
    ensures Sum(Counts(ws)) == |ws|
  {
    if ws != [] {
      var prefix := ws[..|ws| - 1];
      var last := ws[|ws| - 1];
      CountsTotal(prefix);
      assert ws == prefix + [last];
      CountsSnoc(prefix, last);
      SumUpdate(Counts(prefix), last, (if last in Counts(prefix) then Counts(prefix)[last] else 0) + 1);
    }
  }

  /** `s.lower()` restricted to ASCII letters. */
  function Lower(s: string): (r: string)
    ensures |r| == |s|
    ensures forall i :: 0 <= i < |s| ==> r[i] == LowerChar(s[i])
  {
    seq(|s|, i requires 0 <= i < |s| => LowerChar(s[i]))
  }

  function LowerChar(c: char): char {
    if 'A' <= c <= 'Z' then (c as int + 32) as char else c
  }

  /** Python's clamping of a slice bound `i` into `[0, n]` (bounds are never negative here). */
  function Clamp(i: int, n: nat): (r: nat)
    ensures r <= n
    ensures 0 <= i <= n ==> r == i
  {
    if i < 0 then 0 else if i > n then n else i
  }

  /** `s[lo:hi]` for non-negative or clamped bounds: empty when `lo >= hi`. */
  function Slice<T>(s: seq<T>, lo: int, hi: int): (r: seq<T>)
    ensures |r| <= |s|
    ensures 0 <= lo <= hi <= |s| ==> r == s[lo..hi]
    ensures hi <= lo ==> r == []
  {
    var a := Clamp(lo, |s|);
    var b := Clamp(hi, |s|);
    if a <= b then s[a..b] else []
  }

  /** First position of `x` in `s` (`s.index(x)`), for an `x` that occurs. */
  function IndexOf<T(==)>(s: seq<T>, x: T): (i: nat)
    requires x in s
    ensures i < |s| && s[i] == x
    ensures forall j :: 0 <= j < i ==> s[j] != x
  {
    if s[0] == x then 0 else 1 + IndexOf(s[1..], x)
  }

  lemma {:induction false} CountZeroNotIn<T>(s: seq<T>, x: T)
    ensures Count(s, x) == 0 <==> x !in s
  {
    if s != [] {
      CountZeroNotIn(s[..|s| - 1], x);
      assert s == s[..|s| - 1] + [s[|s| - 1]];
    }
  }

  /** The prefix of a word, up to its first whitespace, is the whole word. */
  lemma {:induction false} WordLengthOfWord(w: string, rest: string)
    requires forall i :: 0 <= i < |w| ==> !IsSpace(w[i])
    requires rest == [] || IsSpace(rest[0])
    ensures WordLength(w + rest) == |w|
  {
    if w != [] {
      assert (w + rest)[1..] == w[1..] + rest;
      WordLengthOfWord(w[1..], rest);
    }
  }

  /** Joining words with single spaces and splitting again gives the words back. */
  lemma {:induction false} SplitJoin(ws: seq<string>)
    requires forall i :: 0 <= i < |ws| ==> IsWord(ws[i])
    ensures Split(Join(" ", ws)) == ws
  {
    if ws == [] {
    } else if |ws| == 1 {
      var w := ws[0];
      WordLengthOfWord(w, []);
      assert w + [] == w;
      assert w[|w|..] == [];
      assert w[..|w|] == w;
    } else {
      var w := ws[0];
      var tail := Join(" ", ws[1..]);
      var s := w + " " + tail;
      assert Join(" ", ws) == s;
      WordLengthOfWord(w, " " + tail);
      assert s == w + (" " + tail);
      assert s[..|w|] == w;
      assert s[|w|..] == " " + tail;
      assert (" " + tail)[1..] == tail;
      SplitJoin(ws[1..]);
      assert ws == [w] + ws[1..];
    }
  }

  /** Splitting a string with no whitespace at all gives that one word. */
  lemma SplitWord(w: string)
    requires IsWord(w)
    ensures Split(w) == [w]
  {
    SplitJoin([w]);
  }

  /** A sequence has no repeats exactly when its front has none and its last element is not in the front. */
  lemma DistinctSnoc<T>(s: seq<T>)
    requires s != []
    ensures Distinct(s) <==> Distinct(s[..|s| - 1]) && s[|s| - 1] !in s[..|s| - 1]
  {
    var front, last := s[..|s| - 1], s[|s| - 1];
    if Distinct(front) && last !in front {
      forall i, j | 0 <= i < j < |s| ensures s[i] != s[j] {
        if j < |s| - 1 {
          assert s[i] == front[i] && s[j] == front[j];
        } else {
          assert s[i] == front[i];
        }
      }
    }
    if Distinct(s) {
      forall i, j | 0 <= i < j < |front| ensures front[i] != front[j] {
        assert front[i] == s[i] && front[j] == s[j];
      }
    }
  }

  /** Concatenation regroups freely. */
  lemma ConcatAssoc<T>(a: seq<T>, b: seq<T>, c: seq<T>)
    ensures a + b + c == a + (b + c)
  {
  }

  /** Two different elements form a sequence without repeats. */
  lemma DistinctPair<T>(a: T, b: T)
    requires a != b
    ensures Distinct([a, b])
  {
  }

  /** Cutting `b` at `k` and gluing it back after `a` gives `a + b`. */
  lemma ConcatSplitAt<T>(a: seq<T>, b: seq<T>, k: int)
    requires 0 <= k <= |b|
    ensures a + b[..k] + b[k..] == a + b
  {
    assert b[..k] + b[k..] == b;
  }

  /** Growing the cut of `b` by one element appends that element. */
  lemma ConcatPrefixes<T>(a: seq<T>, b: seq<T>, j: int)
    requires 0 <= j <= |b|
    ensures a + b[..0] == a
    ensures j < |b| ==> a + b[..j + 1] == a + b[..j] + [b[j]]
  {
    assert b[..0] == [];
    if j < |b| {
      assert b[..j + 1] == b[..j] + [b[j]];
    }
  }

  /** The last element of `a + b`, for non-empty `b`, is the last of `b`, and what precedes it is `a` and the rest of `b`. */
  lemma ConcatLast<T>(a: seq<T>, b: seq<T>)
    requires b != []
    ensures (a + b)[..|a + b| - 1] == a + b[..|b| - 1]
    ensures (a + b)[|a + b| - 1] == b[|b| - 1]
  {
  }

  /** One more element of `s` extends the prefix `s[..i]` by `s[i]`. */
  lemma PrefixStep<T>(s: seq<T>, i: int)
    requires 0 <= i < |s|
    ensures s[..i + 1][..i] == s[..i]
    ensures s[..i + 1] == s[..i] + [s[i]]
  {
  }

  /** A non-empty sequence is its front followed by its last element. */
  lemma SnocLast<T>(s: seq<T>)
    requires s != []
    ensures s[..|s| - 1] + [s[|s| - 1]] == s
  {
  }

  lemma {:induction false} CountAppend<T>(s: seq<T>, t: seq<T>, x: T)
    ensures Count(s + t, x) == Count(s, x) + Count(t, x)
  {
    if t != [] {
      assert (s + t)[..|s + t| - 1] == s + t[..|t| - 1];
      CountAppend(s, t[..|t| - 1], x);
    } else {
      assert s + t == s;
    }
  }
}
