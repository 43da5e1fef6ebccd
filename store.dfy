/** The rows of the server's tables, and the database session that holds
    them. Worker and job rows are maps keyed by id; the other tables are
    sequences of rows in storage order, so that "the first row that
    matches" is defined. */
module Store {
  import opened Common

  datatype WorkerStatus = Waiting | Working | TimedOut | Finished

  datatype JobStatus = Pending | Running | Completed

  /** A registered worker. metric and lastHeartbeat are nullable columns:
      registration fills in neither. */
  datatype Worker = Worker(
    id: int,
    namespaceId: int,
    userId: int,
    metric: Option<string>,
    status: WorkerStatus,
    lastHeartbeat: Option<int>)

  /** One (run, metric) unit of scoring work. */
  datatype Job = Job(
    id: int,
    namespaceId: int,
    userId: int,
    runId: int,
    workerId: Option<int>,
    queue: string,
    priority: int,
    status: JobStatus,
    metric: Option<string>,
    payload: map<string, string>)

  datatype Namespace = Namespace(id: int, name: string)

  datatype User = User(id: int, username: string, apiKey: string, isAdmin: bool)

  datatype TranslationRun = TranslationRun(id: int, datasetId: int, namespaceId: int)

  datatype Dataset = Dataset(
    id: int,
    namespaceId: int,
    dataHash: string,
    sourceLang: string,
    targetLang: string,
    hasReference: bool)

  datatype DatasetName = DatasetName(datasetId: int, name: string)

  /** A source segment of a dataset; tgt holds the reference translation. */
  datatype Segment = Segment(id: int, datasetId: int, idx: int, src: string, tgt: Option<string>)

  /** The translation of one segment within a run. */
  datatype SegmentTranslation = SegmentTranslation(id: int, runId: int, segmentId: int, segmentIdx: int, tgt: string)

  /** A SegmentTranslationNGrams row. */
  datatype NGramRow = NGramRow(
    runId: int,
    translationId: int,
    tokenizer: string,
    n: int,
    ngrams: seq<string>,
    ngramsRef: seq<string>)

  /** A posted segment: source, translation and an optional reference. */
  datatype SegmentPostData = SegmentPostData(src: string, tgt: string, ref: Option<string>)

  /** The segments of a dataset, in storage order (the dataset's
      segments relationship). */
  function SegmentsOf(segments: seq<Segment>, datasetId: int): (r: seq<Segment>)
    ensures forall i :: 0 <= i < |r| ==> r[i] in segments && r[i].datasetId == datasetId
    ensures forall i :: 0 <= i < |segments| && segments[i].datasetId == datasetId ==> segments[i] in r
  {
    Filter(segments, (s: Segment) => s.datasetId == datasetId)
  }

  /** The translations of a run, in storage order (the run's translations
      relationship). */
  function TranslationsOf(translations: seq<SegmentTranslation>, runId: int): (r: seq<SegmentTranslation>)
    ensures forall i :: 0 <= i < |r| ==> r[i] in translations && r[i].runId == runId
    ensures forall i :: 0 <= i < |translations| && translations[i].runId == runId ==> translations[i] in r
  {
    Filter(translations, (t: SegmentTranslation) => t.runId == runId)
  }

  predicate SegmentIdsBelow(segments: seq<Segment>, n: int)
  {
    forall i :: 0 <= i < |segments| ==> segments[i].id < n
  }

  predicate TranslationIdsBelow(translations: seq<SegmentTranslation>, n: int)
  {
    forall i :: 0 <= i < |translations| ==> translations[i].id < n
  }

  ghost predicate KeyedById(workers: map<int, Worker>, jobs: map<int, Job>, runs: map<int, TranslationRun>)
  {
    && (forall k :: k in workers ==> workers[k].id == k)
    && (forall k :: k in jobs ==> jobs[k].id == k)
    && (forall k :: k in runs ==> runs[k].id == k)
  }

  /** The database session of one request. Every table is a field that the
      operations reassign; nextId stands for the id sequence. */
  class Session {
    var nextId: int
    var namespaces: seq<Namespace>
    var users: seq<User>
    var runs: map<int, TranslationRun>
    var workers: map<int, Worker>
    var jobs: map<int, Job>
    var datasets: seq<Dataset>
    var datasetNames: seq<DatasetName>
    var segments: seq<Segment>
    var translations: seq<SegmentTranslation>
    var ngramRows: seq<NGramRow>

    /** Every id in use is below nextId, and map keys are the rows' ids. */
    ghost predicate Valid()
      reads this
    {
      && nextId >= 2
      && KeyedById(workers, jobs, runs)
      && (forall k :: k in workers ==> k < nextId)
      && (forall k :: k in jobs ==> k < nextId)
      && (forall k :: k in runs ==> k < nextId)
      && (forall i :: 0 <= i < |datasets| ==> datasets[i].id < nextId)
      && SegmentIdsBelow(segments, nextId)
      && TranslationIdsBelow(translations, nextId)
    }

    constructor ()
      ensures Valid() && nextId == 2
      ensures namespaces == [] && users == [] && runs == map[] && workers == map[] && jobs == map[]
      ensures datasets == [] && datasetNames == [] && segments == [] && translations == [] && ngramRows == []
    {
      nextId := 2;
      namespaces, users := [], [];
      runs, workers, jobs := map[], map[], map[];
      datasets, datasetNames, segments, translations, ngramRows := [], [], [], [], [];
    }
  }
}
