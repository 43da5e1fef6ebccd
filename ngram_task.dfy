/** The background job run when a translation run is created: it stores
    the n-grams of every translated segment next to those of its reference.
    The text normaliser is a parameter. */
module NGramTask {
  import opened Common
  import opened Store
  import opened NGrams

  const TokenizerName := "v1_case"

  /** The n-grams of a sentence as the job computes them: normalised,
      then tokenised case-sensitively. */
  function SentenceNGrams(sentence: string, normalize: string -> string): map<int, seq<string>>
  {
    NGramsOf(Tokenize(normalize(sentence), true))
  }

  /** The row of order n for translation t against the reference text. */
  function RowOf(runId: int, t: SegmentTranslation, refText: string, n: int, normalize: string -> string): (row: NGramRow)
    requires 1 <= n <= MaxOrder
  {
    NGramRow(runId, t.id, TokenizerName, n, SentenceNGrams(t.tgt, normalize)[n], SentenceNGrams(refText, normalize)[n])
  }

  /** The rows of one (translation, reference segment) pair: one per order
      1..4. A reference segment without text cannot be normalised. */
  function PairRows(runId: int, t: SegmentTranslation, refText: Option<string>, normalize: string -> string): (r: Result<seq<NGramRow>>)
    ensures r.Err? <==> refText.None?
    ensures r.Err? ==> r.error == TypeError
    ensures r.Ok? ==> |r.value| == 4 && forall k :: 0 <= k < 4 ==> r.value[k] == RowOf(runId, t, refText.value, k + 1, normalize)
  {
    if refText.None? then Err(TypeError)
    else Ok(seq(4, k requires 0 <= k < 4 => RowOf(runId, t, refText.value, k + 1, normalize)))
  }

  /** The rows of the first k pairs, in order; the first failing pair's
      error wins. */
  function PrefixRows(runId: int, tgts: seq<SegmentTranslation>, refs: seq<Segment>, k: nat, normalize: string -> string): Result<seq<NGramRow>>
    requires k <= |tgts| && k <= |refs|
  {
    if k == 0 then Ok([])
    else
      var prev :- PrefixRows(runId, tgts, refs, k - 1, normalize);
      var last :- PairRows(runId, tgts[k - 1], refs[k - 1].tgt, normalize);
      Ok(prev + last)
  }

  function Min(a: int, b: int): int
  {
    if a <= b then a else b
  }

  /** The strict zip of the run's translations with the dataset's segments:
      the pairs are processed in order, and a length mismatch is found once
      the shorter side is exhausted. */
  function TaskRows(runId: int, tgts: seq<SegmentTranslation>, refs: seq<Segment>, normalize: string -> string): Result<seq<NGramRow>>
  {
    var rows :- PrefixRows(runId, tgts, refs, Min(|tgts|, |refs|), normalize);
    if |tgts| != |refs| then Err(ValueError) else Ok(rows)
  }

  /** What the job stores for run runId, read from the tables. */
  function NGramTaskRows(runs: map<int, TranslationRun>, datasets: seq<Dataset>, segments: seq<Segment>,
                         translations: seq<SegmentTranslation>, runId: int, normalize: string -> string): Result<seq<NGramRow>>
  {
    if runId !in runs then Err(NotFound)
    else
      var run := runs[runId];
      var dataset := First(datasets, (d: Dataset) => d.id == run.datasetId);
      if dataset.None? then Err(ServerError)
      else if !dataset.value.hasReference then Ok([])
      else TaskRows(runId, TranslationsOf(translations, runId), SegmentsOf(segments, run.datasetId), normalize)
  }

  /** The job: computes every row first and adds them in one commit, so a
      failure adds nothing. */
  method ComputeNGramsOnRunCreated(tx: Session, runId: int, normalize: string -> string) returns (r: Result<()>)
    modifies tx`ngramRows
    ensures var expected := NGramTaskRows(old(tx.runs), old(tx.datasets), old(tx.segments), old(tx.translations), runId, normalize);
      && (expected.Ok? ==> r.Ok? && tx.ngramRows == old(tx.ngramRows) + expected.value)
      && (expected.Err? ==> r == Err(expected.error) && tx.ngramRows == old(tx.ngramRows))
  {
    if runId !in tx.runs {
      return Err(NotFound);
    }
    var run := tx.runs[runId];
    var dataset := First(tx.datasets, (d: Dataset) => d.id == run.datasetId);
    if dataset.None? {
      return Err(ServerError);
    }
    if !dataset.value.hasReference {
      return Ok(());
    }
    var refs := SegmentsOf(tx.segments, run.datasetId);
    var tgts := TranslationsOf(tx.translations, runId);
    var rows := ZipRows(runId, tgts, refs, normalize);
    if rows.Err? {
      return Err(rows.error);
    }
    tx.ngramRows := tx.ngramRows + rows.value;
    r := Ok(());
  }

  /** The loop over the strict zip of translations and reference segments. */
  method ZipRows(runId: int, tgts: seq<SegmentTranslation>, refs: seq<Segment>, normalize: string -> string)
    returns (result: Result<seq<NGramRow>>)
    ensures result == TaskRows(runId, tgts, refs, normalize)
  {
    var rows: seq<NGramRow> := [];
    var i := 0;
    while i < |tgts| && i < |refs|
      invariant 0 <= i <= |tgts| && 0 <= i <= |refs|
      invariant PrefixRows(runId, tgts, refs, i, normalize) == Ok(rows)
    {
      if refs[i].tgt.None? {
        PrefixErrorPersists(runId, tgts, refs, i + 1, Min(|tgts|, |refs|), normalize);
        return Err(TypeError);
      }
      var pairRows := RowsForPair(runId, tgts[i], refs[i].tgt.value, normalize);
      rows := rows + pairRows;
      i := i + 1;
    }
    if |tgts| != |refs| {
      return Err(ValueError);
    }
    result := Ok(rows);
  }

  /** One pair: both texts normalised and turned into n-grams, then one
      row per order. */
  method RowsForPair(runId: int, t: SegmentTranslation, refText: string, normalize: string -> string)
    returns (pairRows: seq<NGramRow>)
    ensures PairRows(runId, t, Some(refText), normalize) == Ok(pairRows)
  {
    var tgtNGrams := GetNGrams(normalize(t.tgt), true);
    var refNGrams := GetNGrams(normalize(refText), true);
    pairRows := [];
    var n := 1;
    while n <= MaxOrder
      invariant 1 <= n <= MaxOrder + 1 && |pairRows| == n - 1
      invariant forall k :: 0 <= k < n - 1 ==> pairRows[k] == RowOf(runId, t, refText, k + 1, normalize)
    {
      pairRows := pairRows + [NGramRow(runId, t.id, TokenizerName, n, tgtNGrams[n], refNGrams[n])];
      n := n + 1;
    }
    var expected := PairRows(runId, t, Some(refText), normalize).value;
    assert |expected| == |pairRows|;
    assert forall k :: 0 <= k < 4 ==> expected[k] == pairRows[k];
    assert expected == pairRows;
  }

  lemma {:induction false} PrefixErrorPersists(runId: int, tgts: seq<SegmentTranslation>, refs: seq<Segment>, k: nat, m: nat, normalize: string -> string)
    requires k <= m <= |tgts| && m <= |refs|
    requires PrefixRows(runId, tgts, refs, k, normalize).Err?
    ensures PrefixRows(runId, tgts, refs, m, normalize) == PrefixRows(runId, tgts, refs, k, normalize)
    decreases m - k
  {
    if k < m {
      PrefixErrorPersists(runId, tgts, refs, k, m - 1, normalize);
    }
  }

  /** When the job succeeds on a dataset with references, the translations
      and reference segments pair up one to one, every reference has text,
      and the rows are four per pair, in pair order and then by order n. */
  lemma {:induction false} PrefixRowsShape(runId: int, tgts: seq<SegmentTranslation>, refs: seq<Segment>, k: nat, normalize: string -> string)
    requires k <= |tgts| && k <= |refs|
    requires PrefixRows(runId, tgts, refs, k, normalize).Ok?
    ensures var rows := PrefixRows(runId, tgts, refs, k, normalize).value;
      && |rows| == 4 * k
      && (forall i :: 0 <= i < k ==> refs[i].tgt.Some?)
      && (forall i, n :: 0 <= i < k && 1 <= n <= 4 ==>
            rows[4 * i + n - 1] == RowOf(runId, tgts[i], refs[i].tgt.value, n, normalize))
  {
    if k > 0 {
      PrefixRowsShape(runId, tgts, refs, k - 1, normalize);
      var prev := PrefixRows(runId, tgts, refs, k - 1, normalize).value;
      var last := PairRows(runId, tgts[k - 1], refs[k - 1].tgt, normalize).value;
      var rows := PrefixRows(runId, tgts, refs, k, normalize).value;
      assert rows == prev + last;
      forall i, n | 0 <= i < k && 1 <= n <= 4
        ensures rows[4 * i + n - 1] == RowOf(runId, tgts[i], refs[i].tgt.value, n, normalize)
      {
        if i < k - 1 {
          assert rows[4 * i + n - 1] == prev[4 * i + n - 1];
        } else {
          assert rows[4 * i + n - 1] == last[n - 1];
        }
      }
    }
  }

  lemma TaskRowsShape(runId: int, tgts: seq<SegmentTranslation>, refs: seq<Segment>, normalize: string -> string)
    requires TaskRows(runId, tgts, refs, normalize).Ok?
    ensures var rows := TaskRows(runId, tgts, refs, normalize).value;
      && |tgts| == |refs| && |rows| == 4 * |tgts|
      && (forall i :: 0 <= i < |refs| ==> refs[i].tgt.Some?)
      && (forall i, n :: 0 <= i < |tgts| && 1 <= n <= 4 ==>
            rows[4 * i + n - 1] == RowOf(runId, tgts[i], refs[i].tgt.value, n, normalize))
  {
    PrefixRowsShape(runId, tgts, refs, Min(|tgts|, |refs|), normalize);
  }

  /** The job fails exactly when the two sides differ in length or a paired
      reference has no text; a missing reference text is reported first. */
  lemma {:induction false} PrefixRowsFailIff(runId: int, tgts: seq<SegmentTranslation>, refs: seq<Segment>, k: nat, normalize: string -> string)
    requires k <= |tgts| && k <= |refs|
    ensures PrefixRows(runId, tgts, refs, k, normalize).Err? <==> exists i :: 0 <= i < k && refs[i].tgt.None?
    ensures PrefixRows(runId, tgts, refs, k, normalize).Err? ==> PrefixRows(runId, tgts, refs, k, normalize).error == TypeError
  {
    if k > 0 {
      PrefixRowsFailIff(runId, tgts, refs, k - 1, normalize);
    }
  }

  lemma TaskRowsFailIff(runId: int, tgts: seq<SegmentTranslation>, refs: seq<Segment>, normalize: string -> string)
    ensures TaskRows(runId, tgts, refs, normalize).Err? <==>
      |tgts| != |refs| || exists i :: 0 <= i < |tgts| && i < |refs| && refs[i].tgt.None?
    ensures (exists i :: 0 <= i < |tgts| && i < |refs| && refs[i].tgt.None?) ==>
      TaskRows(runId, tgts, refs, normalize) == Err(TypeError)
    ensures (forall i :: 0 <= i < |tgts| && i < |refs| ==> refs[i].tgt.Some?) && |tgts| != |refs| ==>
      TaskRows(runId, tgts, refs, normalize) == Err(ValueError)
  {
    PrefixRowsFailIff(runId, tgts, refs, Min(|tgts|, |refs|), normalize);
  }

  /** A missing run is reported as not found, and a dataset without
      references yields no rows. */
  lemma TaskEarlyExits(runs: map<int, TranslationRun>, datasets: seq<Dataset>, segments: seq<Segment>,
                       translations: seq<SegmentTranslation>, runId: int, normalize: string -> string)
    ensures runId !in runs ==> NGramTaskRows(runs, datasets, segments, translations, runId, normalize) == Err(NotFound)
    ensures (runId in runs && (exists i :: 0 <= i < |datasets| && datasets[i].id == runs[runId].datasetId) &&
             (forall i :: 0 <= i < |datasets| && datasets[i].id == runs[runId].datasetId ==> !datasets[i].hasReference)) ==>
      NGramTaskRows(runs, datasets, segments, translations, runId, normalize) == Ok([])
    ensures runId in runs && (forall i :: 0 <= i < |datasets| ==> datasets[i].id != runs[runId].datasetId) ==>
      NGramTaskRows(runs, datasets, segments, translations, runId, normalize) == Err(ServerError)
  {
  }
}
