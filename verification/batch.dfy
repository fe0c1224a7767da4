/**
 * The per-file loop of `main` (app.py:189-224): clean each extracted text,
 * skip the file when nothing is left, otherwise classify it, pick the
 * relevance value and generate the comment. The classifier is an opaque
 * function of the cleaned text; `None` stands for an exception it raised.
 */
module Batch {
  import opened Seqs
  import opened CharClasses
  import Cleaning
  import Comments
  import opened Batching

  /**
   * An uploaded file: its name and the text the PDF extraction returned. On a
   * failure that is the text read before it, empty if no page was read.
   */
  datatype Upload = Upload(name: string, text: string)

  /** What predict and predict_proba return for one text: a classId and a probability per class. */
  datatype Prediction<P> = Prediction(classId: nat, proba: seq<P>)

  /** The relevance column: the model's probability for the classId, or the literal 0.5. */
  datatype Relevance<P> = ModelProbability(p: P) | DefaultHalf

  /** One row of the results table. */
  datatype Record<P> = Record(file: string, predictedClass: nat, relevance: Relevance<P>, comment: string)

  /** app.py:209-213: index the probability vector when the classId is in range, else fall back to 0.5. */
  function RelevanceOf<P>(pred: Prediction<P>): (r: Relevance<P>)
    ensures r.ModelProbability? <==> pred.classId < |pred.proba|
    ensures r.ModelProbability? ==> r.p == pred.proba[pred.classId]
  {
    if |pred.proba| <= pred.classId then DefaultHalf else ModelProbability(pred.proba[pred.classId])
  }

  function Cleaned(u: Tables, f: Upload): (r: string)
    ensures f.text == [] ==> r == []
    ensures forall i :: 0 <= i < |r| ==> !IsPunctuation(r[i])
  {
    Cleaning.CleanText(u, Some(f.text))
  }

  /** app.py:194-226: the record one file contributes, if any. */
  function ProcessFile<P>(u: Tables, classify: string -> Option<Prediction<P>>, f: Upload, d: Comments.Draw): (r: Option<Record<P>>)
    requires Comments.DrawFits(u, f.text, d)
    ensures r.Some? <==> Cleaned(u, f) != [] && classify(Cleaned(u, f)).Some?
    ensures r.Some? ==>
      var pred := classify(Cleaned(u, f)).value;
      && r.value.file == f.name
      && r.value.predictedClass == pred.classId
      && r.value.relevance == RelevanceOf(pred)
      && Comments.ClassComment(pred.classId, d.choice) <= r.value.comment
      && (r.value.comment in Comments.ClassSentences(pred.classId) <==>
          forall c :: !Comments.Detected(c, Comments.Sample(u, f.text)))
  {
    var clean := Cleaned(u, f);
    if clean == [] then None
    else
      match classify(clean)
      case None => None
      case Some(pred) =>
        Comments.NothingMatchedIffNothingDetected(Comments.Sample(u, f.text));
        Some(Record(f.name, pred.classId, RelevanceOf(pred), Comments.GenerateComment(u, f.text, pred.classId, d)))
  }

  /** The random draws fit each upload they are paired with. */
  predicate DrawsFit(u: Tables, files: seq<Upload>, draws: seq<Comments.Draw>) {
    |draws| == |files| && forall i :: 0 <= i < |files| ==> Comments.DrawFits(u, files[i].text, draws[i])
  }

  /** `ProcessFile` as a step over (upload, draw) pairs; a draw that does not fit yields no row. */
  function FileStep<P>(u: Tables, classify: string -> Option<Prediction<P>>): (Upload, Comments.Draw) -> Option<Record<P>> {
    (f: Upload, d: Comments.Draw) => if Comments.DrawFits(u, f.text, d) then ProcessFile(u, classify, f, d) else None
  }

  /** The results table for a batch: each file's record, in upload order, skipped files left out. */
  function Results<P>(u: Tables, classify: string -> Option<Prediction<P>>, files: seq<Upload>, draws: seq<Comments.Draw>): (r: seq<Record<P>>)
    requires DrawsFit(u, files, draws)
    ensures |r| <= |files|
  {
    Collect(FileStep(u, classify), files, draws)
  }

  /** Draws that fit two batches fit their concatenation. */
  lemma DrawsFitAppend(u: Tables, a: seq<Upload>, b: seq<Upload>, da: seq<Comments.Draw>, db: seq<Comments.Draw>)
    requires DrawsFit(u, a, da) && DrawsFit(u, b, db)
    ensures DrawsFit(u, a + b, da + db)
  {
    forall i | 0 <= i < |a + b|
      ensures Comments.DrawFits(u, (a + b)[i].text, (da + db)[i])
    {
      if i < |a| {
        assert (a + b)[i] == a[i] && (da + db)[i] == da[i];
      } else {
        assert (a + b)[i] == b[i - |a|] && (da + db)[i] == db[i - |a|];
      }
    }
  }

  /** A batch splits into independent parts: one file's failure never removes another's row. */
  lemma ResultsAppend<P>(u: Tables, classify: string -> Option<Prediction<P>>,
                         a: seq<Upload>, b: seq<Upload>, da: seq<Comments.Draw>, db: seq<Comments.Draw>)
    requires DrawsFit(u, a, da) && DrawsFit(u, b, db)
    ensures DrawsFit(u, a + b, da + db)
    ensures Results(u, classify, a + b, da + db) == Results(u, classify, a, da) + Results(u, classify, b, db)
  {
    DrawsFitAppend(u, a, b, da, db);
    CollectAppend(FileStep(u, classify), a, b, da, db);
  }

  /** A file whose cleaned text is empty contributes no row. */
  lemma EmptyTextSkipped<P>(u: Tables, classify: string -> Option<Prediction<P>>, f: Upload, d: Comments.Draw)
    requires Comments.DrawFits(u, f.text, d)
    requires f.text == []
    ensures ProcessFile(u, classify, f, d).None?
    ensures Results(u, classify, [f], [d]) == []
  {
    assert FileStep(u, classify)(f, d).None?;
  }

  /** app.py:191-224: the results table, with each row traced back to the upload it came from. */
  method ProcessUploads<P>(u: Tables, classify: string -> Option<Prediction<P>>, files: seq<Upload>, draws: seq<Comments.Draw>)
    returns (records: seq<Record<P>>, sources: seq<nat>)
    requires DrawsFit(u, files, draws)
    ensures |sources| == |records|
    ensures forall k :: 0 <= k < |sources| ==>
      sources[k] < |files| && ProcessFile(u, classify, files[sources[k]], draws[sources[k]]) == Some(records[k])
    ensures forall k, l :: 0 <= k < l < |sources| ==> sources[k] < sources[l]
    ensures forall i :: 0 <= i < |files| && i !in sources ==> ProcessFile(u, classify, files[i], draws[i]).None?
    ensures records == Results(u, classify, files, draws)
  {
    records, sources := CollectLoop(FileStep(u, classify), files, draws);
  }
}
