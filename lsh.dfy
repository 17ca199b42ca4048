/**
  Near-duplicate detection by min-hashing and locality-sensitive hashing
  (Logic/core/indexer/LSH.py). The documents are shingled into 2-shingles;
  the characteristic matrix has one row per distinct shingle and one column
  per document; each min-hash row assigns every column the smallest row index
  of a shingle the document contains; the signature is cut into bands and
  every (document, band) pair is appended to the bucket named by a key of the
  band's values.

  The random permutations and the md5 digest are parameters: `perms` holds
  one permutation per hash row, and `key` stands for the digest of the
  comma-joined band values.
 */
module Lsh {
  import opened Results
  import opened Sums
  import opened Text
  import opened Shingling

  /** The shingle size `build_characteristic_matrix` uses (the default `k=2`). */
  const ShingleSize: nat := 2

  /** The number of bands `perform_lsh` uses. */
  const Bands: nat := 10

  /** Every shingle of any of the documents. */
  function AllShingles(documents: seq<string>): (r: set<string>)
    ensures forall x :: x in r <==> exists d :: 0 <= d < |documents| && x in Shingles(documents[d], ShingleSize)
  {
    if documents == [] then {}
    else
      var n := |documents| - 1;
      var r := AllShingles(documents[..n]) + Shingles(documents[n], ShingleSize);
      assert forall d :: 0 <= d < n ==> documents[..n][d] == documents[d];
      r
  }

  /** The shingles of `doc` at positions `i` and later. */
  function ShinglesFrom(doc: string, i: nat): set<string> {
    set j: nat | i <= j && j + ShingleSize <= |doc| :: Shingle(doc, j, ShingleSize)
  }

  /** Appends the shingles of `doc` from position `i` on to `seen`, each the first time it appears. */
  function AddShingles(seen: seq<string>, doc: string, i: nat): seq<string>
    decreases |doc| - i
  {
    if i + ShingleSize > |doc| then seen
    else
      var s := Shingle(doc, i, ShingleSize);
      AddShingles(if s in seen then seen else seen + [s], doc, i + 1)
  }

  /**
    The row labels of the characteristic matrix: the distinct shingles of all
    documents, in order of first occurrence (the source's `np.unique` sorts
    them instead; see the README).
   */
  function Rows(documents: seq<string>): seq<string> {
    if documents == [] then []
    else AddShingles(Rows(documents[..|documents| - 1]), documents[|documents| - 1], 0)
  }

  lemma {:induction false} AddShinglesSpec(seen: seq<string>, doc: string, i: nat)
    requires Distinct(seen)
    ensures Distinct(AddShingles(seen, doc, i))
    ensures forall x :: x in AddShingles(seen, doc, i) <==> x in seen || x in ShinglesFrom(doc, i)
    decreases |doc| - i
  {
    if i + ShingleSize <= |doc| {
      var s := Shingle(doc, i, ShingleSize);
      var next := if s in seen then seen else seen + [s];
      AddShinglesSpec(next, doc, i + 1);
      assert ShinglesFrom(doc, i) == {s} + ShinglesFrom(doc, i + 1);
    } else {
      assert ShinglesFrom(doc, i) == {};
    }
  }

  /** The rows are distinct and are exactly the shingles of the documents. */
  lemma {:induction false} RowsSpec(documents: seq<string>)
    ensures Distinct(Rows(documents))
    ensures forall x :: x in Rows(documents) <==> x in AllShingles(documents)
  {
    if documents != [] {
      var n := |documents| - 1;
      RowsSpec(documents[..n]);
      AddShinglesSpec(Rows(documents[..n]), documents[n], 0);
      assert ShinglesFrom(documents[n], 0) == Shingles(documents[n], ShingleSize);
    }
  }

  /** `i` is the smallest row whose shingle occurs in `doc`: the min-hash value of its column. */
  ghost predicate IsFirstRow(rows: seq<string>, doc: string, i: int) {
    && 0 <= i < |rows|
    && rows[i] in Shingles(doc, ShingleSize)
    && forall j :: 0 <= j < i ==> rows[j] !in Shingles(doc, ShingleSize)
  }

  /** The first row from `i` on whose shingle is in `shingles`; `|rows|` when there is none. */
  function FirstRowFrom(rows: seq<string>, shingles: set<string>, i: nat): (r: nat)
    requires i <= |rows|
    ensures i <= r <= |rows|
    decreases |rows| - i
  {
    if i == |rows| then i
    else if rows[i] in shingles then i
    else FirstRowFrom(rows, shingles, i + 1)
  }

  /** The first row of a document is the one the search from row 0 finds. */
  lemma {:induction false} FirstRowFound(rows: seq<string>, doc: string, i: nat, x: int)
    requires i <= x && IsFirstRow(rows, doc, x)
    ensures FirstRowFrom(rows, Shingles(doc, ShingleSize), i) == x
    decreases x - i
  {
    if i < x {
      FirstRowFound(rows, doc, i + 1, x);
    }
  }

  /**
    The min-hash columns of `num_hashes` permutations that each keep the rows
    in their order: every entry of document `d`'s column is its first row.
   */
  function MinHashColumns(documents: seq<string>, numHashes: nat): (cs: seq<seq<int>>)
    ensures |cs| == |documents|
    ensures forall d :: 0 <= d < |documents| ==> |cs[d]| == numHashes
  {
    seq(|documents|, d requires 0 <= d < |documents| =>
      seq(numHashes, h => FirstRowFrom(Rows(documents), Shingles(documents[d], ShingleSize), 0)))
  }

  /** Some cell of column `col` is set. */
  ghost predicate HasSetCell(c: array2<bool>, col: nat)
    reads c
  {
    exists i :: 0 <= i < c.Length0 && col < c.Length1 && c[i, col]
  }

  /** `i` is the first set cell of column `col`. */
  ghost predicate FirstSet(c: array2<bool>, col: nat, i: int)
    reads c
  {
    && col < c.Length1
    && 0 <= i < c.Length0
    && c[i, col]
    && forall j :: 0 <= j < i ==> !c[j, col]
  }

  /** `perm` is a permutation of `0 .. n - 1` (what `np.random.permutation(n)` returns). */
  predicate IsPermutation(perm: seq<nat>, n: nat) {
    && |perm| == n
    && (forall j :: 0 <= j < |perm| ==> perm[j] < n)
    && (forall i :: 0 <= i < n ==> i in perm)
  }

  /** Column `d` of a matrix (`signature[:, d]`). */
  function Column(m: array2<int>, d: nat): (c: seq<int>)
    requires d < m.Length1
    reads m
    ensures |c| == m.Length0
    ensures forall h :: 0 <= h < m.Length0 ==> c[h] == m[h, d]
  {
    seq(m.Length0, h requires 0 <= h < m.Length0 reads m => m[h, d])
  }

  /** All columns of a matrix, one per document. */
  function Columns(m: array2<int>): (cs: seq<seq<int>>)
    reads m
    ensures |cs| == m.Length1
    ensures forall d :: 0 <= d < m.Length1 ==> cs[d] == Column(m, d)
  {
    seq(m.Length1, d requires 0 <= d < m.Length1 reads m => Column(m, d))
  }

  /** The values of band `band` in a column (`signature[i:i + rows_per_band, doc]` with `i = band * rows_per_band`). */
  function Band(column: seq<int>, band: nat, rowsPerBand: nat): seq<int> {
    Slice(column, band * rowsPerBand, band * rowsPerBand + rowsPerBand)
  }

  /** `buckets[k].append(d)` on a `defaultdict(list)`. */
  function Append(m: map<string, seq<nat>>, k: string, d: nat): map<string, seq<nat>> {
    m[k := (if k in m then m[k] else []) + [d]]
  }

  /** The buckets after document `d`'s first `bands` bands are appended to `m`. */
  function DocBuckets(m: map<string, seq<nat>>, column: seq<int>, d: nat, bands: nat, rowsPerBand: nat,
                      key: seq<int> -> string): map<string, seq<nat>>
  {
    if bands == 0 then m
    else Append(DocBuckets(m, column, d, bands - 1, rowsPerBand, key), key(Band(column, bands - 1, rowsPerBand)), d)
  }

  /** The buckets of a signature given by its columns, documents visited in order. */
  function Buckets(columns: seq<seq<int>>, bands: nat, rowsPerBand: nat, key: seq<int> -> string): map<string, seq<nat>> {
    if columns == [] then map[]
    else
      var n := |columns| - 1;
      DocBuckets(Buckets(columns[..n], bands, rowsPerBand, key), columns[n], n, bands, rowsPerBand, key)
  }

  /** Document `d` is listed in bucket `k`. */
  predicate InBucket(m: map<string, seq<nat>>, k: string, d: nat) {
    k in m && d in m[k]
  }

  /** The number of entries in each bucket. */
  function Sizes(m: map<string, seq<nat>>): (r: map<string, int>)
    ensures r.Keys == m.Keys
  {
    map k | k in m :: |m[k]|
  }

  lemma {:induction false} DocBucketsIn(m: map<string, seq<nat>>, column: seq<int>, d: nat, bands: nat, rowsPerBand: nat,
                                        key: seq<int> -> string, k: string, e: nat)
    ensures InBucket(DocBuckets(m, column, d, bands, rowsPerBand, key), k, e) <==>
      InBucket(m, k, e) || (e == d && exists b :: 0 <= b < bands && key(Band(column, b, rowsPerBand)) == k)
  {
    if bands > 0 {
      DocBucketsIn(m, column, d, bands - 1, rowsPerBand, key, k, e);
    }
  }

  /** Appending a document to bucket `k` makes that bucket one longer and leaves the others. */
  lemma SizesAppend(m: map<string, seq<nat>>, k: string, d: nat)
    ensures Sizes(Append(m, k, d)) == Sizes(m)[k := (if k in m then |m[k]| else 0) + 1]
  {
    var a, b := Sizes(Append(m, k, d)), Sizes(m)[k := (if k in m then |m[k]| else 0) + 1];
    assert forall j :: j in a ==> a[j] == b[j];
  }

  lemma {:induction false} DocBucketsTotal(m: map<string, seq<nat>>, column: seq<int>, d: nat, bands: nat, rowsPerBand: nat,
                                           key: seq<int> -> string)
    ensures Sum(Sizes(DocBuckets(m, column, d, bands, rowsPerBand, key))) == Sum(Sizes(m)) + bands
  {
    if bands > 0 {
      var before := DocBuckets(m, column, d, bands - 1, rowsPerBand, key);
      var k := key(Band(column, bands - 1, rowsPerBand));
      DocBucketsTotal(m, column, d, bands - 1, rowsPerBand, key);
      SizesAppend(before, k, d);
      SumUpdate(Sizes(before), k, (if k in before then |before[k]| else 0) + 1);
    }
  }

  /**
    Document `e` is in bucket `k` exactly when `e` is one of the documents and
    the key of one of its bands is `k`.
   */
  lemma {:induction false} BucketsIn(columns: seq<seq<int>>, bands: nat, rowsPerBand: nat, key: seq<int> -> string, k: string, e: nat)
    ensures InBucket(Buckets(columns, bands, rowsPerBand, key), k, e) <==>
      e < |columns| && exists b :: 0 <= b < bands && key(Band(columns[e], b, rowsPerBand)) == k
  {
    if columns != [] {
      var n := |columns| - 1;
      BucketsIn(columns[..n], bands, rowsPerBand, key, k, e);
      DocBucketsIn(Buckets(columns[..n], bands, rowsPerBand, key), columns[n], n, bands, rowsPerBand, key, k, e);
      if e < n {
        assert columns[..n][e] == columns[e];
      }
    }
  }

  /** Every document is appended once per band: the buckets hold `bands * |columns|` entries in all. */
  lemma {:induction false} BucketsTotal(columns: seq<seq<int>>, bands: nat, rowsPerBand: nat, key: seq<int> -> string)
    ensures Sum(Sizes(Buckets(columns, bands, rowsPerBand, key))) == bands * |columns|
  {
    if columns == [] {
      assert Sizes(map[]) == map[];
    } else {
      var n := |columns| - 1;
      var before := Buckets(columns[..n], bands, rowsPerBand, key);
      BucketsTotal(columns[..n], bands, rowsPerBand, key);
      DocBucketsTotal(before, columns[n], n, bands, rowsPerBand, key);
      assert Buckets(columns, bands, rowsPerBand, key) == DocBuckets(before, columns[n], n, bands, rowsPerBand, key);
      MulStep(n, bands);
    }
  }

  /**
    Two documents whose columns agree on a band's values share that band's
    bucket; the key does not include the band number, so the bands need not
    be the same one (equal slices of different bands collide too).
   */
  lemma SharedBucket(columns: seq<seq<int>>, bands: nat, rowsPerBand: nat, key: seq<int> -> string,
                     d1: nat, b1: nat, d2: nat, b2: nat)
    requires d1 < |columns| && d2 < |columns| && b1 < bands && b2 < bands
    requires Band(columns[d1], b1, rowsPerBand) == Band(columns[d2], b2, rowsPerBand)
    ensures var k := key(Band(columns[d1], b1, rowsPerBand));
      InBucket(Buckets(columns, bands, rowsPerBand, key), k, d1) && InBucket(Buckets(columns, bands, rowsPerBand, key), k, d2)
  {
    var k := key(Band(columns[d1], b1, rowsPerBand));
    BucketsIn(columns, bands, rowsPerBand, key, k, d1);
    BucketsIn(columns, bands, rowsPerBand, key, k, d2);
  }

  /** Documents with identical columns share every one of their buckets. */
  lemma IdenticalColumnsShareBuckets(columns: seq<seq<int>>, bands: nat, rowsPerBand: nat, key: seq<int> -> string,
                                     d1: nat, d2: nat, k: string)
    requires d1 < |columns| && d2 < |columns| && columns[d1] == columns[d2]
    ensures InBucket(Buckets(columns, bands, rowsPerBand, key), k, d1) <==> InBucket(Buckets(columns, bands, rowsPerBand, key), k, d2)
  {
    BucketsIn(columns, bands, rowsPerBand, key, k, d1);
    BucketsIn(columns, bands, rowsPerBand, key, k, d2);
  }

  /** Documents with the same shingles share every bucket of the min-hash LSH. */
  lemma SameShinglesShareBuckets(documents: seq<string>, numHashes: nat, key: seq<int> -> string,
                                 d1: nat, d2: nat, k: string)
    requires d1 < |documents| && d2 < |documents|
    requires Shingles(documents[d1], ShingleSize) == Shingles(documents[d2], ShingleSize)
    ensures var bs := Buckets(MinHashColumns(documents, numHashes), Bands, numHashes / Bands, key);
      InBucket(bs, k, d1) <==> InBucket(bs, k, d2)
  {
    var cs := MinHashColumns(documents, numHashes);
    assert cs[d1] == cs[d2];
    IdenticalColumnsShareBuckets(cs, Bands, numHashes / Bands, key, d1, d2, k);
  }

  /**
    `','.join(band_signature)` on the numeric band values: `str.join` accepts
    only strings, so every non-empty slice raises `TypeError`.
   */
  function JoinAsWritten(values: seq<int>): (r: Result<string>)
    ensures r.Ok? ==> r.value == ""
  {
    if values == [] then Ok("") else Err(TypeError)
  }

  class MinHashLsh {
    const documents: seq<string>
    const numHashes: nat

    constructor (documents: seq<string>, numHashes: nat)
      ensures this.documents == documents && this.numHashes == numHashes
    {
      this.documents := documents;
      this.numHashes := numHashes;
    }

    /** `build_characteristic_matrix()`: cell `(i, d)` is set iff shingle `i` occurs in document `d`. */
    method BuildCharacteristicMatrix() returns (matrix: array2<bool>)
      ensures matrix.Length0 == |Rows(documents)| && matrix.Length1 == |documents|
      ensures forall i, d :: 0 <= i < matrix.Length0 && 0 <= d < matrix.Length1 ==>
        (matrix[i, d] <==> Rows(documents)[i] in Shingles(documents[d], ShingleSize))
    {
      var rows := Rows(documents);
      matrix := new bool[|rows|, |documents|];
      for i := 0 to |rows|
        invariant forall i', d :: 0 <= i' < i && 0 <= d < |documents| ==>
          (matrix[i', d] <==> rows[i'] in Shingles(documents[d], ShingleSize))
      {
        for d := 0 to |documents|
          invariant forall i', d' :: 0 <= i' < i && 0 <= d' < |documents| ==>
            (matrix[i', d'] <==> rows[i'] in Shingles(documents[d'], ShingleSize))
          invariant forall d' :: 0 <= d' < d ==> (matrix[i, d'] <==> rows[i] in Shingles(documents[d'], ShingleSize))
        {
          matrix[i, d] := rows[i] in Shingles(documents[d], ShingleSize);
        }
      }
    }

    /**
      `np.min(np.intersect1d(perm, ones))` for column `col`: the smallest row
      listed in `perm` whose cell is set, or `None` where `np.min` of the empty
      intersection raises. Since `perm` lists every row, that is the smallest
      set row whatever the permutation.
     */
    static method MinOverOnes(c: array2<bool>, col: nat, perm: seq<nat>) returns (m: Option<nat>)
      requires col < c.Length1 && IsPermutation(perm, c.Length0)
      ensures m.None? <==> !HasSetCell(c, col)
      ensures m.Some? ==> FirstSet(c, col, m.value)
    {
      m := None;
      for j := 0 to |perm|
        invariant m.None? <==> forall j' :: 0 <= j' < j ==> !c[perm[j'], col]
        invariant m.Some? ==> m.value < c.Length0 && c[m.value, col]
        invariant m.Some? ==> forall j' :: 0 <= j' < j && c[perm[j'], col] ==> m.value <= perm[j']
      {
        var row := perm[j];
        if c[row, col] && (m.None? || row < m.value) {
          m := Some(row);
        }
      }
      if m.None? {
        forall i | 0 <= i < c.Length0 ensures !c[i, col] {
          assert i in perm;
          var j :| 0 <= j < |perm| && perm[j] == i;
        }
      } else {
        forall i | 0 <= i < m.value ensures !c[i, col] {
          assert i in perm;
          var j :| 0 <= j < |perm| && perm[j] == i;
        }
      }
    }

    /**
      `min_hash_signature()` with the permutations drawn for each hash row
      passed in. Each cell is the first row whose shingle the document
      contains, so the permutations do not affect the result; a document
      without any 2-shingle makes `np.min` raise `ValueError`.
     */
    method MinHashSignature(perms: seq<seq<nat>>) returns (r: Result<array2<int>>)
      requires |perms| == numHashes
      requires forall h :: 0 <= h < numHashes ==> IsPermutation(perms[h], |Rows(documents)|)
      ensures r.Err? <==> numHashes > 0 && exists d :: 0 <= d < |documents| && |documents[d]| < ShingleSize
      ensures r.Err? ==> r.error == ValueError
      ensures r.Ok? ==> r.value.Length0 == numHashes && r.value.Length1 == |documents|
      ensures r.Ok? ==> forall h, d :: 0 <= h < numHashes && 0 <= d < |documents| ==>
        IsFirstRow(Rows(documents), documents[d], r.value[h, d])
    {
      var c := BuildCharacteristicMatrix();
      var sig := new int[numHashes, |documents|];
      for row := 0 to numHashes
        modifies sig
        invariant forall h, d :: 0 <= h < row && 0 <= d < |documents| ==> FirstSet(c, d, sig[h, d])
      {
        var ok := FillRow(c, sig, row, perms[row]);
        if !ok {
          ghost var d :| 0 <= d < |documents| && !HasSetCell(c, d);
          EmptyColumn(documents, d);
          return Err(ValueError);
        }
      }
      if numHashes > 0 {
        forall d | 0 <= d < |documents| ensures |documents[d]| >= ShingleSize {
          assert FirstSet(c, d, sig[0, d]);
          ShinglesSpec(documents[d], ShingleSize, Rows(documents)[sig[0, d]]);
        }
      }
      forall h, d | 0 <= h < numHashes && 0 <= d < |documents|
        ensures IsFirstRow(Rows(documents), documents[d], sig[h, d])
      {
        assert FirstSet(c, d, sig[h, d]);
      }
      return Ok(sig);
    }

    /** One row of `min_hash_signature`: `false` where a column has no set cell and `np.min` raises. */
    static method FillRow(c: array2<bool>, sig: array2<int>, row: nat, perm: seq<nat>) returns (ok: bool)
      requires row < sig.Length0 && sig.Length1 == c.Length1 && IsPermutation(perm, c.Length0)
      modifies sig
      ensures ok <==> forall d :: 0 <= d < c.Length1 ==> HasSetCell(c, d)
      ensures ok ==> forall d :: 0 <= d < c.Length1 ==> FirstSet(c, d, sig[row, d])
      ensures forall h, d :: 0 <= h < sig.Length0 && h != row && 0 <= d < sig.Length1 ==> sig[h, d] == old(sig[h, d])
    {
      for col := 0 to c.Length1
        invariant forall d :: 0 <= d < col ==> HasSetCell(c, d) && FirstSet(c, d, sig[row, d])
        invariant forall h, d :: 0 <= h < sig.Length0 && h != row && 0 <= d < sig.Length1 ==> sig[h, d] == old(sig[h, d])
      {
        var m := MinOverOnes(c, col, perm);
        if m.None? {
          return false;
        }
        sig[row, col] := m.value;
      }
      return true;
    }

    /** `lsh_buckets(signature, bands, rows_per_band)` with the md5 digest of the joined values as `key`. */
    method LshBuckets(signature: array2<int>, bands: nat, rowsPerBand: nat, key: seq<int> -> string)
      returns (r: Result<map<string, seq<nat>>>)
      ensures r.Err? <==> bands * rowsPerBand != numHashes
      ensures r.Err? ==> r.error == ValueError
      ensures r.Ok? ==> r.value == Buckets(Columns(signature), bands, rowsPerBand, key)
    {
      if bands * rowsPerBand != numHashes {
        return Err(ValueError);
      }
      ghost var columns := Columns(signature);
      var buckets: map<string, seq<nat>> := map[];
      for doc := 0 to signature.Length1
        invariant buckets == Buckets(columns[..doc], bands, rowsPerBand, key)
      {
        ghost var before := buckets;
        var column := Column(signature, doc);
        for band := 0 to bands
          invariant buckets == DocBuckets(before, column, doc, band, rowsPerBand, key)
        {
          var bandSignature := Band(column, band, rowsPerBand);
          var bucketId := key(bandSignature);
          buckets := Append(buckets, bucketId, doc);
        }
        assert columns[..doc + 1][..doc] == columns[..doc];
      }
      assert columns[..signature.Length1] == columns;
      return Ok(buckets);
    }

    /** A signature whose every cell is its column's first row has the min-hash columns. */
    lemma MinHashColumnsOf(sig: array2<int>)
      requires sig.Length0 == numHashes && sig.Length1 == |documents|
      requires forall h, d :: 0 <= h < numHashes && 0 <= d < |documents| ==>
        IsFirstRow(Rows(documents), documents[d], sig[h, d])
      ensures Columns(sig) == MinHashColumns(documents, numHashes)
    {
      var cs := Columns(sig);
      var ms := MinHashColumns(documents, numHashes);
      forall d | 0 <= d < |documents| ensures cs[d] == ms[d] {
        forall h | 0 <= h < numHashes ensures cs[d][h] == ms[d][h] {
          FirstRowFound(Rows(documents), documents[d], 0, sig[h, d]);
        }
      }
    }

    /**
      `perform_lsh()`: 10 bands of `num_hashes // 10` rows. It raises
      `ValueError` when a document has no 2-shingle or when `num_hashes` is
      not a multiple of 10; otherwise every document is listed once per band.
     */
    method PerformLsh(perms: seq<seq<nat>>, key: seq<int> -> string) returns (r: Result<map<string, seq<nat>>>)
      requires |perms| == numHashes
      requires forall h :: 0 <= h < numHashes ==> IsPermutation(perms[h], |Rows(documents)|)
      ensures r.Err? <==>
        (numHashes > 0 && exists d :: 0 <= d < |documents| && |documents[d]| < ShingleSize) || numHashes % Bands != 0
      ensures r.Err? ==> r.error == ValueError
      ensures r.Ok? ==> Sum(Sizes(r.value)) == Bands * |documents|
      ensures r.Ok? ==> forall k, d: nat :: InBucket(r.value, k, d) ==> d < |documents|
      ensures r.Ok? ==> r.value == Buckets(MinHashColumns(documents, numHashes), Bands, numHashes / Bands, key)
    {
      var signature := MinHashSignature(perms);
      if signature.Err? {
        return Err(signature.error);
      }
      var bands := Bands;
      var rowsPerBand := numHashes / bands;
      r := LshBuckets(signature.value, bands, rowsPerBand, key);
      if r.Ok? {
        MinHashColumnsOf(signature.value);
        BucketsTotal(Columns(signature.value), bands, rowsPerBand, key);
        forall k, d: nat | InBucket(r.value, k, d) ensures d < |documents| {
          BucketsIn(Columns(signature.value), bands, rowsPerBand, key, k, d);
        }
      }
    }
  }

  /** Every shingle of a document labels a row of the characteristic matrix. */
  lemma ShingleInRows(documents: seq<string>, d: nat, x: string)
    ensures d < |documents| && x in Shingles(documents[d], ShingleSize) ==> x in Rows(documents)
  {
    RowsSpec(documents);
  }

  /**
    A document none of whose shingles is a row of the characteristic matrix
    has no 2-shingle, so it is shorter than two characters.
   */
  lemma EmptyColumn(documents: seq<string>, d: nat)
    requires d < |documents|
    requires forall i :: 0 <= i < |Rows(documents)| ==> Rows(documents)[i] !in Shingles(documents[d], ShingleSize)
    ensures |documents[d]| < ShingleSize
  {
    if |documents[d]| >= ShingleSize {
      ShingleInRows(documents, d, documents[d][..ShingleSize]);
      ShinglesNonEmpty(documents[d], ShingleSize);
      assert false;
    }
  }

  /**
    `lsh_buckets` as written, once the band check passes: the key of the first
    document's first band joins its values with `','`, which raises
    `TypeError` unless the slice is empty.
   */
  function LshBucketsAsWritten(signature: array2<int>, numHashes: nat, bands: nat, rowsPerBand: nat, key: seq<int> -> string)
    : (r: Result<map<string, seq<nat>>>)
    reads signature
    ensures r.Ok? ==> r.value == Buckets(Columns(signature), bands, rowsPerBand, key)
  {
    if bands * rowsPerBand != numHashes then Err(ValueError)
    else if signature.Length1 > 0 && bands > 0 && JoinAsWritten(Band(Column(signature, 0), 0, rowsPerBand)).Err? then Err(TypeError)
    else Ok(Buckets(Columns(signature), bands, rowsPerBand, key))
  }

  /**
    As written, a signature with at least one hash row and one document never
    reaches a bucket: `lsh_buckets` raises `TypeError` on the first slice.
   */
  lemma LshBucketsAsWrittenRaises(signature: array2<int>, numHashes: nat, bands: nat, rowsPerBand: nat, key: seq<int> -> string)
    requires bands * rowsPerBand == numHashes && numHashes > 0
    requires signature.Length0 == numHashes && signature.Length1 > 0
    ensures LshBucketsAsWritten(signature, numHashes, bands, rowsPerBand, key) == Err(TypeError)
  {
    var column := Column(signature, 0);
    assert bands > 0 && rowsPerBand > 0;
    assert |Band(column, 0, rowsPerBand)| > 0;
  }
}
