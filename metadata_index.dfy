/**
  The metadata index (Logic/core/indexer/metadata_index.py): for the stored
  documents (the documents sub-index, id -> document), the average number of
  entries of each field and the number of documents.
 */
module DocumentMetadata {
  import opened Results
  import opened Sums
  import opened InvertedIndex

  /** `{'averge_document_length': {'stars': .., 'genres': .., 'summaries': ..}, 'document_count': ..}`. */
  datatype FieldAverages = FieldAverages(stars: real, genres: real, summaries: real)
  datatype Metadata = Metadata(averageDocumentLength: FieldAverages, documentCount: nat)

  /** `len` of a list field when it is a non-empty list, otherwise 0. */
  function ValuesLength(f: FieldValue): nat {
    if Truthy(f) then |f.items| else 0
  }

  /**
    What one document adds for field `where`: `len(doc.get(where))` when that
    value is truthy, 0 when the field is absent, `None` or empty.
   */
  function FieldLength(doc: Document, where: string): nat {
    if where == "id" then |doc.id|
    else if where == "stars" then ValuesLength(doc.stars)
    else if where == "genres" then ValuesLength(doc.genres)
    else if where == "summaries" then ValuesLength(doc.summaries)
    else if where in doc.extra then |doc.extra[where]|
    else 0
  }

  /** The per-document lengths of field `where`. */
  function Lengths(documents: map<string, Document>, where: string): (m: map<string, int>)
    ensures m.Keys == documents.Keys
  {
    map id | id in documents :: FieldLength(documents[id], where)
  }

  /** The sum of the field's lengths over all stored documents. */
  ghost function TotalLength(documents: map<string, Document>, where: string): int {
    Sum(Lengths(documents, where))
  }

  /** The average the source computes: total length divided by the number of documents. */
  ghost function Average(documents: map<string, Document>, where: string): real
    requires |documents| > 0
  {
    TotalLength(documents, where) as real / |documents| as real
  }

  /** The average lies between 0 and the largest length of the field in any document. */
  lemma AverageBounds(documents: map<string, Document>, where: string, bound: nat)
    requires |documents| > 0
    requires forall id :: id in documents ==> FieldLength(documents[id], where) <= bound
    ensures 0.0 <= Average(documents, where) <= bound as real
  {
    var m := Lengths(documents, where);
    SumNonNegative(m);
    SumAtMost(m, bound);
    assert |m| == |documents| by {
      assert m.Keys == documents.Keys;
    }
    RatioAtMost(Sum(m), |documents|, bound);
  }

  /** A non-negative total of at most `count * bound` averages to at most `bound`. */
  lemma RatioAtMost(total: int, count: int, bound: int)
    requires count > 0 && 0 <= total <= count * bound
    ensures 0.0 <= total as real / count as real <= bound as real
  {
    var n := count as real;
    assert (count * bound) as real == n * bound as real;
    assert total as real / n * n == total as real;
  }

  /**
    A new document whose field is absent, `None` or empty adds nothing to the
    total but is still counted: the average becomes total / (count + 1).
   */
  lemma EmptyFieldStillCounted(documents: map<string, Document>, id: string, doc: Document, where: string)
    requires id !in documents && FieldLength(doc, where) == 0
    ensures TotalLength(documents[id := doc], where) == TotalLength(documents, where)
    ensures Average(documents[id := doc], where) == TotalLength(documents, where) as real / (|documents| + 1) as real
  {
    var m := Lengths(documents, where);
    assert Lengths(documents[id := doc], where) == m[id := 0];
    SumUpdate(m, id, 0);
  }

  class MetadataIndex {
    var documents: map<string, Document>
    /** The metadata, or the `ZeroDivisionError` that building it raises on an empty collection. */
    var metadataIndex: Result<Metadata>

    constructor (documents: map<string, Document>)
      ensures this.documents == documents
      ensures metadataIndex.Ok? <==> |documents| > 0
      ensures metadataIndex.Err? ==> metadataIndex.error == ZeroDivisionError
      ensures metadataIndex.Ok? ==> Describes(metadataIndex.value)
    {
      this.documents := documents;
      new;
      metadataIndex := CreateMetadataIndex();
    }

    /** `m` holds the document count and the average of each of the three fields. */
    ghost predicate Describes(m: Metadata)
      reads this
      requires |documents| > 0
    {
      && m.documentCount == |documents|
      && m.averageDocumentLength.stars == Average(documents, "stars")
      && m.averageDocumentLength.genres == Average(documents, "genres")
      && m.averageDocumentLength.summaries == Average(documents, "summaries")
    }

    /** `create_metadata_index()`. */
    method CreateMetadataIndex() returns (r: Result<Metadata>)
      ensures r.Ok? <==> |documents| > 0
      ensures r.Err? ==> r.error == ZeroDivisionError
      ensures r.Ok? ==> Describes(r.value)
    {
      var stars := GetAverageDocumentFieldLength("stars");
      if stars.Err? {
        return Err(stars.error);
      }
      var genres := GetAverageDocumentFieldLength("genres");
      var summaries := GetAverageDocumentFieldLength("summaries");
      r := Ok(Metadata(FieldAverages(stars.value, genres.value, summaries.value), |documents|));
    }

    /** `get_average_document_field_length(where)`: raises `ZeroDivisionError` when there are no documents. */
    method GetAverageDocumentFieldLength(where: string) returns (r: Result<real>)
      ensures |documents| == 0 <==> r == Err(ZeroDivisionError)
      ensures |documents| > 0 ==> r == Ok(Average(documents, where))
    {
      ghost var lengths := Lengths(documents, where);
      var length := 0;
      var rest := documents.Keys;
      assert Restrict(lengths, rest) == lengths;
      while rest != {}
        invariant rest <= documents.Keys
        invariant length + Sum(Restrict(lengths, rest)) == Sum(lengths)
        decreases rest
      {
        var docId :| docId in rest;
        var doc := documents[docId];
        SumRemove(Restrict(lengths, rest), docId);
        assert Restrict(lengths, rest - {docId}) == Restrict(lengths, rest) - {docId};
        var value := FieldLength(doc, where);
        if value > 0 {
          length := length + value;
        }
        rest := rest - {docId};
      }
      assert Restrict(lengths, rest) == map[];
      if |documents| == 0 {
        return Err(ZeroDivisionError);
      }
      return Ok(length as real / |documents| as real);
    }
  }
}
