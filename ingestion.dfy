/** Posting a translation run: finding or creating its namespace and
    dataset, creating the dataset's segments and the run's translations,
    and reading a run back with its segments paired up. */
module Ingestion {
  import opened Common
  import opened Store
  import opened Sorting
  import Fingerprint

  /** The body of a run upload (its uuid and config are not modelled). */
  datatype TranslationRunPostData = TranslationRunPostData(
    namespaceName: string,
    datasetName: string,
    sourceLang: string,
    targetLang: string,
    segments: seq<SegmentPostData>)

  /** What a successful upload answers with. */
  datatype RunCreated = RunCreated(runId: int, datasetId: int, namespaceName: string)

  /** One segment of a run as the run's detail view shows it. */
  datatype ReadSegment = ReadSegment(idx: int, src: string, tgt: string, ref: Option<string>)

  /** A run's detail view. */
  datatype RunDetail = RunDetail(id: int, datasetId: int, namespaceName: string, segments: seq<ReadSegment>)

  const DefaultNamespaceName := "default"
  const DefaultNamespaceId := 1

  // ---------------------------------------------------------------------------
  // Unique lookups

  /** scalar_one() over the rows of rows that satisfy p: the single match,
      NotFound when there is none, Conflict when there are several. */
  function ScalarOne<T>(rows: seq<T>, p: T -> bool): (r: Result<T>)
    ensures (r.Err? && r.error == NotFound) <==> forall i :: 0 <= i < |rows| ==> !p(rows[i])
    ensures (r.Err? && r.error == Conflict) <==> exists i, j :: 0 <= i < j < |rows| && p(rows[i]) && p(rows[j])
    ensures r.Ok? ==> exists i :: 0 <= i < |rows| && rows[i] == r.value && p(rows[i]) &&
                                 forall j :: 0 <= j < |rows| && j != i ==> !p(rows[j])
    ensures r.Err? ==> r.error == NotFound || r.error == Conflict
  {
    if rows == [] then Err(NotFound)
    else
      var rest := ScalarOne(rows[1..], p);
      if !p(rows[0]) then
        SkipNonMatching(rows, p, rest);
        rest
      else if rest.Err? && rest.error == NotFound then
        OnlyFirstMatches(rows, p);
        Ok(rows[0])
      else
        FirstAndLaterMatch(rows, p);
        Err(Conflict)
  }

  /** What scalar_one answers for rows filtered by p. */
  ghost predicate IsScalarOne<T>(rows: seq<T>, p: T -> bool, r: Result<T>)
  {
    && ((r.Err? && r.error == NotFound) <==> forall i :: 0 <= i < |rows| ==> !p(rows[i]))
    && ((r.Err? && r.error == Conflict) <==> exists i, j :: 0 <= i < j < |rows| && p(rows[i]) && p(rows[j]))
    && (r.Ok? ==> exists i :: 0 <= i < |rows| && rows[i] == r.value && p(rows[i]) &&
                              forall j :: 0 <= j < |rows| && j != i ==> !p(rows[j]))
    && (r.Err? ==> r.error == NotFound || r.error == Conflict)
  }

  lemma SkipNonMatching<T>(rows: seq<T>, p: T -> bool, rest: Result<T>)
    requires rows != [] && !p(rows[0]) && IsScalarOne(rows[1..], p, rest)
    ensures IsScalarOne(rows, p, rest)
  {
    var tail := rows[1..];
    assert forall i :: 0 < i < |rows| ==> rows[i] == tail[i - 1];
    if rest.Err? && rest.error == Conflict {
      var i, j :| 0 <= i < j < |tail| && p(tail[i]) && p(tail[j]);
      assert rows[i + 1] == tail[i] && rows[j + 1] == tail[j];
    }
    if exists i, j :: 0 <= i < j < |rows| && p(rows[i]) && p(rows[j]) {
      var i, j :| 0 <= i < j < |rows| && p(rows[i]) && p(rows[j]);
      assert tail[i - 1] == rows[i] && tail[j - 1] == rows[j];
    }
    if rest.Ok? {
      var i :| 0 <= i < |tail| && tail[i] == rest.value && p(tail[i]) &&
               forall j :: 0 <= j < |tail| && j != i ==> !p(tail[j]);
      assert rows[i + 1] == tail[i];
    }
  }

  lemma OnlyFirstMatches<T>(rows: seq<T>, p: T -> bool)
    requires rows != [] && p(rows[0]) && forall i :: 0 <= i < |rows| - 1 ==> !p(rows[1..][i])
    ensures IsScalarOne(rows, p, Ok(rows[0]))
  {
    assert forall i :: 0 < i < |rows| ==> rows[i] == rows[1..][i - 1];
  }

  lemma FirstAndLaterMatch<T>(rows: seq<T>, p: T -> bool)
    requires rows != [] && p(rows[0]) && exists j :: 0 <= j < |rows| - 1 && p(rows[1..][j])
    ensures IsScalarOne(rows, p, Err(Conflict))
  {
    var j :| 0 <= j < |rows| - 1 && p(rows[1..][j]);
    assert p(rows[j + 1]);
  }


  predicate HasDefaultId(n: Namespace) { n.id == DefaultNamespaceId }

  /** The namespace with the given name, NotFound if there is none and
      Conflict if several share it. */
  function GetNamespaceByName(namespaces: seq<Namespace>, name: string): (r: Result<Namespace>)
    ensures (r.Err? && r.error == NotFound) <==> forall i :: 0 <= i < |namespaces| ==> namespaces[i].name != name
    ensures (r.Err? && r.error == Conflict) <==>
      exists i, j :: 0 <= i < j < |namespaces| && namespaces[i].name == name && namespaces[j].name == name
    ensures r.Ok? ==> r.value in namespaces && r.value.name == name &&
                      (forall i :: 0 <= i < |namespaces| && namespaces[i].name == name ==> namespaces[i] == r.value)
  {
    ScalarOne(namespaces, (n: Namespace) => n.name == name)
  }

  /** The dataset with the given fingerprint, in any namespace; NotFound if
      there is none and Conflict if several share it. */
  function GetDatasetByHash(datasets: seq<Dataset>, hash: string): (r: Result<Dataset>)
    ensures (r.Err? && r.error == NotFound) <==> forall i :: 0 <= i < |datasets| ==> datasets[i].dataHash != hash
    ensures (r.Err? && r.error == Conflict) <==>
      exists i, j :: 0 <= i < j < |datasets| && datasets[i].dataHash == hash && datasets[j].dataHash == hash
    ensures r.Ok? ==> r.value in datasets && r.value.dataHash == hash &&
                      (forall i :: 0 <= i < |datasets| && datasets[i].dataHash == hash ==> datasets[i] == r.value)
  {
    ScalarOne(datasets, (d: Dataset) => d.dataHash == hash)
  }

  /** The namespace with id 1, added as "default" when there is none. Two
      rows with id 1 make the lookup raise, which the handler does not
      catch. */
  method GetOrCreateDefaultNamespace(tx: Session) returns (r: Result<Namespace>)
    modifies tx`namespaces
    ensures var found := ScalarOne(old(tx.namespaces), HasDefaultId);
      && (found.Ok? ==> r == found && tx.namespaces == old(tx.namespaces))
      && (found.Err? && found.error == NotFound ==>
            r == Ok(Namespace(DefaultNamespaceId, DefaultNamespaceName)) &&
            tx.namespaces == old(tx.namespaces) + [Namespace(DefaultNamespaceId, DefaultNamespaceName)])
      && (found.Err? && found.error == Conflict ==> r == Err(ServerError) && tx.namespaces == old(tx.namespaces))
    ensures r.Ok? ==> r.value.id == DefaultNamespaceId && r.value in tx.namespaces
  {
    var found := ScalarOne(tx.namespaces, HasDefaultId);
    if found.Ok? {
      r := found;
    } else if found.error == NotFound {
      var ns := Namespace(DefaultNamespaceId, DefaultNamespaceName);
      tx.namespaces := tx.namespaces + [ns];
      r := Ok(ns);
    } else {
      r := Err(ServerError);
    }
  }

  /** The dataset row that get_or_create_dataset adds. */
  function NewDataset(id: int, namespaceId: int, hash: string, sourceLang: string, targetLang: string, hasReference: bool): Dataset
  {
    Dataset(id, namespaceId, hash, sourceLang, targetLang, hasReference)
  }

  /** The dataset with the given fingerprint, or a new one with one name
      when there is none. */
  method GetOrCreateDataset(tx: Session, hash: string, namespaceId: int, name: string,
                            sourceLang: string, targetLang: string, hasReference: bool)
    returns (r: Result<Dataset>)
    requires tx.Valid()
    modifies tx`datasets, tx`datasetNames, tx`nextId
    ensures tx.Valid()
    ensures var found := GetDatasetByHash(old(tx.datasets), hash);
      && (found.Ok? || found.error == Conflict ==>
            r == found && tx.datasets == old(tx.datasets) &&
            tx.datasetNames == old(tx.datasetNames) && tx.nextId == old(tx.nextId))
      && (found.Err? && found.error == NotFound ==>
            var d := NewDataset(old(tx.nextId), namespaceId, hash, sourceLang, targetLang, hasReference);
            && r == Ok(d)
            && tx.datasets == old(tx.datasets) + [d]
            && tx.datasetNames == old(tx.datasetNames) + [DatasetName(d.id, name)]
            && tx.nextId == old(tx.nextId) + 1)
    ensures r.Ok? ==> r.value.dataHash == hash && r.value in tx.datasets
  {
    var found := GetDatasetByHash(tx.datasets, hash);
    if found.Ok? || found.error == Conflict {
      return found;
    }
    var d := NewDataset(tx.nextId, namespaceId, hash, sourceLang, targetLang, hasReference);
    tx.datasets := tx.datasets + [d];
    tx.datasetNames := tx.datasetNames + [DatasetName(d.id, name)];
    tx.nextId := tx.nextId + 1;
    r := Ok(d);
  }

  // ---------------------------------------------------------------------------
  // Segments and translations

  /** Some posted segment carries a reference. */
  predicate AnyReference(segments: seq<SegmentPostData>)
  {
    exists i :: 0 <= i < |segments| && segments[i].ref.Some?
  }

  /** The flag loop of the upload: stops at the first reference. */
  method HasReference(segments: seq<SegmentPostData>) returns (hasReference: bool)
    ensures hasReference <==> AnyReference(segments)
  {
    hasReference := false;
    for i := 0 to |segments|
      invariant !hasReference
      invariant forall k :: 0 <= k < i ==> segments[k].ref.None?
    {
      if segments[i].ref.Some? {
        hasReference := true;
        break;
      }
    }
  }

  predicate NoSegmentsOf(segments: seq<Segment>, datasetId: int)
  {
    forall i :: 0 <= i < |segments| ==> segments[i].datasetId != datasetId
  }

  function IdxOf(s: Segment): int { s.idx }

  function SegmentIdxOf(t: SegmentTranslation): int { t.segmentIdx }

  /** The segments of a dataset ordered by idx. */
  function DatasetSegments(segments: seq<Segment>, datasetId: int): (r: seq<Segment>)
    ensures SortedBy(r, IdxOf)
    ensures multiset(r) == multiset(SegmentsOf(segments, datasetId))
  {
    SortByIsSorted(SegmentsOf(segments, datasetId), IdxOf);
    SortBy(SegmentsOf(segments, datasetId), IdxOf)
  }

  /** The segments created for a new dataset: one per posted segment, its
      idx the position and its tgt the posted reference. */
  function NewSegments(posted: seq<SegmentPostData>, datasetId: int, firstId: int): (r: seq<Segment>)
    ensures |r| == |posted|
    ensures forall i :: 0 <= i < |r| ==> firstId <= r[i].id < firstId + |posted|
  {
    seq(|posted|, i requires 0 <= i < |posted| => Segment(firstId + i, datasetId, i, posted[i].src, posted[i].ref))
  }

  function Min(a: int, b: int): int { if a <= b then a else b }

  /** The translations of zip(posted, dbSegments): the k-th posted
      translation belongs to the k-th segment, as many as the shorter side. */
  function Pairings(posted: seq<SegmentPostData>, dbSegments: seq<Segment>, runId: int, firstId: int): (r: seq<SegmentTranslation>)
    ensures |r| == Min(|posted|, |dbSegments|)
    ensures forall k :: 0 <= k < |r| ==> firstId <= r[k].id < firstId + |r|
  {
    seq(Min(|posted|, |dbSegments|), k requires 0 <= k < Min(|posted|, |dbSegments|) =>
      SegmentTranslation(firstId + k, runId, dbSegments[k].id, dbSegments[k].idx, posted[k].tgt))
  }

  /** Creates the dataset's segments when it has none yet, then one
      translation per pair of posted segment and dataset segment. */
  method CreateSegmentsAndTranslations(tx: Session, posted: seq<SegmentPostData>, datasetId: int, runId: int)
    requires tx.Valid()
    modifies tx`segments, tx`translations, tx`nextId
    ensures tx.Valid()
    ensures IsPosting(old(tx.segments), old(tx.translations), old(tx.nextId), tx.segments, tx.translations, tx.nextId,
                      posted, datasetId, runId)
  {
    var segments, translations, next := PostSegments(tx.segments, tx.translations, tx.nextId, posted, datasetId, runId);
    tx.segments, tx.translations, tx.nextId := segments, translations, next;
  }

  /** The tables after posting: the created segments (none if the dataset
      had some) appended, then the pairings with the dataset's segments
      ordered by idx, all numbered from next0 on. */
  ghost predicate IsPosting(segments0: seq<Segment>, translations0: seq<SegmentTranslation>, next0: int,
                            segments: seq<Segment>, translations: seq<SegmentTranslation>, next: int,
                            posted: seq<SegmentPostData>, datasetId: int, runId: int)
  {
    && SegmentsPosted(segments0, next0, posted, datasetId, segments)
    && PairsPosted(segments, translations0, next0 + |CreatedSegments(segments0, posted, datasetId, next0)|,
                   posted, datasetId, runId, translations, next)
  }

  /** The segments table after the first step of posting. */
  ghost predicate SegmentsPosted(segments0: seq<Segment>, next0: int, posted: seq<SegmentPostData>, datasetId: int,
                                 segments: seq<Segment>)
  {
    segments == segments0 + CreatedSegments(segments0, posted, datasetId, next0)
  }

  /** The translations table and the next free id after the second step
      of posting, its ids numbered from firstId on. */
  ghost predicate PairsPosted(segments: seq<Segment>, translations0: seq<SegmentTranslation>, firstId: int,
                              posted: seq<SegmentPostData>, datasetId: int, runId: int,
                              translations: seq<SegmentTranslation>, next: int)
  {
    var pairs := PostedPairs(segments, posted, datasetId, runId, firstId);
    translations == translations0 + pairs && next == firstId + |pairs|
  }

  /** The segments a posting creates: one per posted segment when the
      dataset has none yet, else none. */
  function CreatedSegments(segments0: seq<Segment>, posted: seq<SegmentPostData>, datasetId: int, next0: int): seq<Segment>
  {
    if NoSegmentsOf(segments0, datasetId) then NewSegments(posted, datasetId, next0) else []
  }

  /** The translations a posting adds: the posted ones paired with the
      dataset's segments ordered by idx. */
  function PostedPairs(segments: seq<Segment>, posted: seq<SegmentPostData>, datasetId: int, runId: int, firstId: int): seq<SegmentTranslation>
  {
    Pairings(posted, DatasetSegments(segments, datasetId), runId, firstId)
  }


  /** The work of CreateSegmentsAndTranslations on the two tables, with
      next the next free id. */
  method PostSegments(segments0: seq<Segment>, translations0: seq<SegmentTranslation>, next0: int,
                      posted: seq<SegmentPostData>, datasetId: int, runId: int)
    returns (segments: seq<Segment>, translations: seq<SegmentTranslation>, next: int)
    requires SegmentIdsBelow(segments0, next0) && TranslationIdsBelow(translations0, next0)
    ensures next >= next0 && SegmentIdsBelow(segments, next) && TranslationIdsBelow(translations, next)
    ensures IsPosting(segments0, translations0, next0, segments, translations, next, posted, datasetId, runId)
  {
    var firstId;
    segments, firstId := AddSegmentsIfNew(segments0, next0, posted, datasetId);
    translations, next := AddPostedPairs(segments, translations0, next0, firstId, posted, datasetId, runId);
    PostingInTwoSteps(segments0, translations0, next0, segments, translations, firstId, next, posted, datasetId, runId);
  }

  lemma PostingInTwoSteps(segments0: seq<Segment>, translations0: seq<SegmentTranslation>, next0: int,
                          segments: seq<Segment>, translations: seq<SegmentTranslation>, firstId: int, next: int,
                          posted: seq<SegmentPostData>, datasetId: int, runId: int)
    requires SegmentsPosted(segments0, next0, posted, datasetId, segments)
    requires firstId == next0 + |CreatedSegments(segments0, posted, datasetId, next0)|
    requires PairsPosted(segments, translations0, firstId, posted, datasetId, runId, translations, next)
    ensures IsPosting(segments0, translations0, next0, segments, translations, next, posted, datasetId, runId)
  {
  }

  /** The second step of posting: the posted translations paired with the
      dataset's segments, numbered from firstId on. */
  method AddPostedPairs(segments: seq<Segment>, translations0: seq<SegmentTranslation>, bound: int, firstId: int,
                        posted: seq<SegmentPostData>, datasetId: int, runId: int)
    returns (translations: seq<SegmentTranslation>, next: int)
    requires SegmentIdsBelow(segments, firstId) && TranslationIdsBelow(translations0, bound) && bound <= firstId
    ensures PairsPosted(segments, translations0, firstId, posted, datasetId, runId, translations, next)
    ensures next >= firstId && SegmentIdsBelow(segments, next) && TranslationIdsBelow(translations, next)
  {
    var pairs := PostedPairs(segments, posted, datasetId, runId, firstId);
    AppendTranslationIdsBelow(translations0, pairs, bound, firstId + |pairs|);
    translations := translations0 + pairs;
    next := firstId + |pairs|;
  }

  /** The first step of posting: a dataset without segments gets one per
      posted segment, numbered from next0 on. */
  method AddSegmentsIfNew(segments0: seq<Segment>, next0: int, posted: seq<SegmentPostData>, datasetId: int)
    returns (segments: seq<Segment>, next: int)
    requires SegmentIdsBelow(segments0, next0)
    ensures SegmentsPosted(segments0, next0, posted, datasetId, segments)
    ensures next == next0 + |CreatedSegments(segments0, posted, datasetId, next0)| && SegmentIdsBelow(segments, next)
  {
    var created := [];
    var existing := First(segments0, (s: Segment) => s.datasetId == datasetId);
    if existing.None? {
      created := NewSegments(posted, datasetId, next0);
    }
    AppendIdsBelow(segments0, created, next0, next0 + |created|);
    segments := segments0 + created;
    next := next0 + |created|;
  }

  lemma AppendTranslationIdsBelow(translations: seq<SegmentTranslation>, added: seq<SegmentTranslation>, n: int, m: int)
    requires TranslationIdsBelow(translations, n) && n <= m
    requires forall i :: 0 <= i < |added| ==> added[i].id < m
    ensures TranslationIdsBelow(translations + added, m)
  {
    var all := translations + added;
    assert forall i :: 0 <= i < |translations| ==> all[i] == translations[i];
    assert forall i :: |translations| <= i < |all| ==> all[i] == added[i - |translations|];
  }

  lemma AppendIdsBelow(segments: seq<Segment>, created: seq<Segment>, n: int, m: int)
    requires SegmentIdsBelow(segments, n) && n <= m
    requires forall i :: 0 <= i < |created| ==> created[i].id < m
    ensures SegmentIdsBelow(segments + created, m)
  {
    var all := segments + created;
    assert forall i :: 0 <= i < |segments| ==> all[i] == segments[i];
    assert forall i :: |segments| <= i < |all| ==> all[i] == created[i - |segments|];
  }

  /** Every translation of a posting points at a segment of the dataset
      and carries that segment's idx, and they come in ascending idx. */
  lemma PairingsFollowDataset(segments: seq<Segment>, posted: seq<SegmentPostData>, datasetId: int, runId: int, firstId: int)
    ensures var ts := Pairings(posted, DatasetSegments(segments, datasetId), runId, firstId);
      && SortedBy(ts, SegmentIdxOf)
      && forall k :: 0 <= k < |ts| ==>
           ts[k].runId == runId && ts[k].tgt == posted[k].tgt &&
           exists i :: 0 <= i < |segments| && segments[i].datasetId == datasetId &&
             segments[i].id == ts[k].segmentId && segments[i].idx == ts[k].segmentIdx
  {
    var ds := DatasetSegments(segments, datasetId);
    var ts := Pairings(posted, ds, runId, firstId);
    forall k | 0 <= k < |ts|
      ensures exists i :: 0 <= i < |segments| && segments[i].datasetId == datasetId &&
                segments[i].id == ts[k].segmentId && segments[i].idx == ts[k].segmentIdx
    {
      assert ds[k] in multiset(SegmentsOf(segments, datasetId));
      var of := SegmentsOf(segments, datasetId);
      var m :| 0 <= m < |of| && of[m] == ds[k];
      assert of[m] in segments;
    }
  }

  /** A new dataset's segments are exactly the created ones, already in idx
      order, so the k-th posted segment becomes the segment with idx k and
      its translation. */
  lemma FreshDatasetPairsByPosition(segments: seq<Segment>, posted: seq<SegmentPostData>, datasetId: int, firstId: int)
    requires NoSegmentsOf(segments, datasetId)
    ensures DatasetSegments(segments + NewSegments(posted, datasetId, firstId), datasetId) ==
            NewSegments(posted, datasetId, firstId)
  {
    var created := NewSegments(posted, datasetId, firstId);
    FreshSegmentsOf(segments, created, datasetId);
    NewSegmentsSorted(posted, datasetId, firstId);
    SortBySortedIsIdentity(created, IdxOf);
  }

  lemma FreshSegmentsOf(segments: seq<Segment>, created: seq<Segment>, datasetId: int)
    requires NoSegmentsOf(segments, datasetId)
    requires forall i :: 0 <= i < |created| ==> created[i].datasetId == datasetId
    ensures SegmentsOf(segments + created, datasetId) == created
  {
    var p := (s: Segment) => s.datasetId == datasetId;
    FilterAppend(segments, created, p);
    FilterNone(segments, p);
    FilterAll(created, p);
    assert [] + created == created;
  }

  lemma NewSegmentsSorted(posted: seq<SegmentPostData>, datasetId: int, firstId: int)
    ensures SortedBy(NewSegments(posted, datasetId, firstId), IdxOf)
  {
    var created := NewSegments(posted, datasetId, firstId);
    assert forall i :: 0 <= i < |created| ==> IdxOf(created[i]) == i;
  }

  // ---------------------------------------------------------------------------
  // The upload

  /** The tables an upload writes, as one value. */
  datatype UploadTables = UploadTables(
    namespaces: seq<Namespace>,
    datasets: seq<Dataset>,
    datasetNames: seq<DatasetName>,
    runs: map<int, TranslationRun>,
    segments: seq<Segment>,
    translations: seq<SegmentTranslation>,
    nextId: int)

  function TablesOf(tx: Session): UploadTables
    reads tx
  {
    UploadTables(tx.namespaces, tx.datasets, tx.datasetNames, tx.runs, tx.segments, tx.translations, tx.nextId)
  }

  /** What a successful upload leaves behind: one new run, of a dataset
      with the posting's fingerprint and of a namespace with the answered
      name. */
  ghost predicate IsUpload(before: UploadTables, after: UploadTables, hash: string, created: RunCreated)
  {
    && created.runId !in before.runs
    && created.runId in after.runs && after.runs[created.runId].datasetId == created.datasetId
    && after.runs == before.runs[created.runId := after.runs[created.runId]]
    && (exists i :: 0 <= i < |after.datasets| && after.datasets[i].id == created.datasetId &&
          after.datasets[i].dataHash == hash)
    && (exists i :: 0 <= i < |after.namespaces| && after.namespaces[i].id == after.runs[created.runId].namespaceId &&
          after.namespaces[i].name == created.namespaceName)
  }

  /** The namespace an upload names: for "default" the namespace with id
      1, or the namespace (1, "default") created when there is none, or a
      server error when several have id 1; for any other name the unique
      namespace with that name. */
  function ResolvedNamespace(namespaces: seq<Namespace>, name: string): (r: Result<Namespace>)
    ensures r.Ok? ==> r.value in NamespacesAfter(namespaces, name)
    ensures name == DefaultNamespaceName ==> (r.Ok? ==> r.value.id == DefaultNamespaceId)
    ensures name != DefaultNamespaceName ==> (r.Ok? ==> r.value.name == name)
  {
    if name == DefaultNamespaceName then
      var found := ScalarOne(namespaces, HasDefaultId);
      if found.Ok? then found
      else if found.error == NotFound then Ok(Namespace(DefaultNamespaceId, DefaultNamespaceName))
      else Err(ServerError)
    else GetNamespaceByName(namespaces, name)
  }

  /** "default" resolves unless several namespaces have id 1; when none
      has, it resolves to (1, "default") and adds that namespace, and
      otherwise it adds nothing. */
  lemma DefaultNamespaceResolves(namespaces: seq<Namespace>)
    ensures ResolvedNamespace(namespaces, DefaultNamespaceName).Ok? <==>
      !exists i, j :: 0 <= i < j < |namespaces| && namespaces[i].id == DefaultNamespaceId &&
                                                   namespaces[j].id == DefaultNamespaceId
    ensures (forall i :: 0 <= i < |namespaces| ==> namespaces[i].id != DefaultNamespaceId) ==>
      && ResolvedNamespace(namespaces, DefaultNamespaceName) == Ok(Namespace(DefaultNamespaceId, DefaultNamespaceName))
      && NamespacesAfter(namespaces, DefaultNamespaceName) ==
         namespaces + [Namespace(DefaultNamespaceId, DefaultNamespaceName)]
    ensures (exists i :: 0 <= i < |namespaces| && namespaces[i].id == DefaultNamespaceId) ==>
      NamespacesAfter(namespaces, DefaultNamespaceName) == namespaces
  {
    var found := ScalarOne(namespaces, HasDefaultId);
    assert forall i :: 0 <= i < |namespaces| ==> (HasDefaultId(namespaces[i]) <==> namespaces[i].id == DefaultNamespaceId);
  }

  /** The namespaces after resolving name: "default" adds (1, "default")
      when no namespace has id 1. */
  function NamespacesAfter(namespaces: seq<Namespace>, name: string): seq<Namespace>
  {
    var found := ScalarOne(namespaces, HasDefaultId);
    if name == DefaultNamespaceName && found.Err? && found.error == NotFound then
      namespaces + [Namespace(DefaultNamespaceId, DefaultNamespaceName)]
    else namespaces
  }

  /** The tables after the dataset step of an upload: a new dataset, with
      the reference flag of the posted segments and one name, under the
      next free id when no dataset has the fingerprint; otherwise the
      tables as they were. */
  function WithDataset(t: UploadTables, data: TranslationRunPostData, hash: string, namespaceId: int): UploadTables
  {
    var found := GetDatasetByHash(t.datasets, hash);
    if found.Err? && found.error == NotFound then
      var d := NewDataset(t.nextId, namespaceId, hash, data.sourceLang, data.targetLang, AnyReference(data.segments));
      t.(datasets := t.datasets + [d], datasetNames := t.datasetNames + [DatasetName(d.id, data.datasetName)],
         nextId := t.nextId + 1)
    else t
  }

  /** The dataset an upload files its run under: the one with the
      fingerprint, or the new one under the next free id. */
  function UploadDatasetId(t: UploadTables, hash: string): int
  {
    var found := GetDatasetByHash(t.datasets, hash);
    if found.Ok? then found.value.id else t.nextId
  }

  /** After the dataset step the fingerprint finds the upload's dataset,
      so uploading the same segments again reuses it and adds no dataset. */
  lemma ReuploadFindsDataset(t: UploadTables, data: TranslationRunPostData, hash: string, namespaceId: int,
                             data': TranslationRunPostData, namespaceId': int)
    requires !DatasetConflict(t.datasets, hash)
    ensures var t' := WithDataset(t, data, hash, namespaceId);
      && GetDatasetByHash(t'.datasets, hash).Ok?
      && GetDatasetByHash(t'.datasets, hash).value.id == UploadDatasetId(t, hash)
      && WithDataset(t', data', hash, namespaceId') == t'
  {
    var found := GetDatasetByHash(t.datasets, hash);
    var t' := WithDataset(t, data, hash, namespaceId);
    if found.Err? {
      var d := NewDataset(t.nextId, namespaceId, hash, data.sourceLang, data.targetLang, AnyReference(data.segments));
      var ds := t'.datasets;
      assert ds == t.datasets + [d];
      assert forall i :: 0 <= i < |ds| - 1 ==> ds[i] == t.datasets[i];
      assert ds[|ds| - 1] == d;
    }
  }

  /** The run step of an upload: the run added under the next free id, then
      the dataset's segments (when it has none) and the run's translations
      posted after it; namespaces, datasets and names untouched. */
  ghost predicate RunPosted(before: UploadTables, after: UploadTables, posted: seq<SegmentPostData>,
                            namespaceId: int, created: RunCreated)
  {
    && created.runId == before.nextId
    && after.namespaces == before.namespaces && after.datasets == before.datasets
    && after.datasetNames == before.datasetNames
    && after.runs == before.runs[created.runId := TranslationRun(created.runId, created.datasetId, namespaceId)]
    && IsPosting(before.segments, before.translations, before.nextId + 1, after.segments, after.translations,
                 after.nextId, posted, created.datasetId, created.runId)
  }

  /** Uploads a run: fingerprints the segments, resolves the namespace,
      finds or creates the dataset, adds the run and then the segments and
      translations. The whole request is one transaction: on any error
      every table is as before. */
  method AddTranslationRun(tx: Session, data: TranslationRunPostData, h: Fingerprint.Hasher) returns (r: Result<RunCreated>)
    requires tx.Valid()
    modifies tx`namespaces, tx`datasets, tx`datasetNames, tx`runs, tx`segments, tx`translations, tx`nextId
    ensures tx.Valid()
    ensures r.Err? ==> TablesOf(tx) == old(TablesOf(tx))
    ensures var hash := Fingerprint.DatasetHash(h, data.segments, data.sourceLang, data.targetLang);
      var ns := ResolvedNamespace(old(tx.namespaces), data.namespaceName);
      && (r.Ok? <==> hash.Ok? && ns.Ok? && !DatasetConflict(old(tx.datasets), hash.value))
      && (hash.Err? ==> r == Err(LanguageNotFound))
      && (hash.Ok? && ns.Err? ==> r == Err(ns.error))
      && (hash.Ok? && ns.Ok? && DatasetConflict(old(tx.datasets), hash.value) ==> r == Err(Conflict))
    ensures r.Ok? ==>
      var hash := Fingerprint.DatasetHash(h, data.segments, data.sourceLang, data.targetLang).value;
      var ns := ResolvedNamespace(old(tx.namespaces), data.namespaceName).value;
      var t1 := old(TablesOf(tx)).(namespaces := NamespacesAfter(old(tx.namespaces), data.namespaceName));
      && r.value.namespaceName == ns.name
      && r.value.datasetId == UploadDatasetId(t1, hash)
      && RunPosted(WithDataset(t1, data, hash, ns.id), TablesOf(tx), data.segments, ns.id, r.value)
      && IsUpload(old(TablesOf(tx)), TablesOf(tx), hash, r.value)
      && (data.namespaceName != DefaultNamespaceName ==> r.value.namespaceName == data.namespaceName)
  {
    var before := TablesOf(tx);
    var hash := Fingerprint.DatasetHash(h, data.segments, data.sourceLang, data.targetLang);
    if hash.Err? {
      return Err(hash.error);
    }
    var namespace := ResolveNamespace(tx, data.namespaceName);
    if namespace.Err? {
      return Err(namespace.error);
    }
    ghost var t1 := TablesOf(tx);
    assert t1 == before.(namespaces := NamespacesAfter(before.namespaces, data.namespaceName));
    r := AddRunToDataset(tx, data, hash.value, namespace.value);
    if r.Err? {
      tx.namespaces := before.namespaces;  // rollback
    } else {
      UploadKeepsOld(before, t1, TablesOf(tx), hash.value, r.value);
    }
  }

  /** Several datasets share the fingerprint. */
  predicate DatasetConflict(datasets: seq<Dataset>, hash: string)
  {
    GetDatasetByHash(datasets, hash).Err? && GetDatasetByHash(datasets, hash).error == Conflict
  }

  /** An upload from the tables after the namespace step is an upload
      from the tables before it: the runs are the same. */
  lemma UploadKeepsOld(before: UploadTables, mid: UploadTables, after: UploadTables, hash: string, created: RunCreated)
    requires mid.runs == before.runs
    requires IsUpload(mid, after, hash, created)
    ensures IsUpload(before, after, hash, created)
  {
  }

  /** The namespace of an upload: the name "default" stands for the
      namespace with id 1, created when missing. */
  method ResolveNamespace(tx: Session, name: string) returns (r: Result<Namespace>)
    modifies tx`namespaces
    ensures r == ResolvedNamespace(old(tx.namespaces), name)
    ensures tx.namespaces == NamespacesAfter(old(tx.namespaces), name)
    ensures r.Err? ==> tx.namespaces == old(tx.namespaces)
    ensures r.Ok? ==> r.value in tx.namespaces
  {
    if name == DefaultNamespaceName {
      r := GetOrCreateDefaultNamespace(tx);
    } else {
      r := GetNamespaceByName(tx.namespaces, name);
    }
  }

  /** The part of an upload after the namespace is known. */
  method AddRunToDataset(tx: Session, data: TranslationRunPostData, hash: string, namespace: Namespace)
    returns (r: Result<RunCreated>)
    requires tx.Valid() && namespace in tx.namespaces
    modifies tx`datasets, tx`datasetNames, tx`runs, tx`segments, tx`translations, tx`nextId
    ensures tx.Valid()
    ensures r.Err? <==> DatasetConflict(old(tx.datasets), hash)
    ensures r.Err? ==> r == Err(Conflict) && TablesOf(tx) == old(TablesOf(tx))
    ensures r.Ok? ==>
      && r.value.datasetId == UploadDatasetId(old(TablesOf(tx)), hash)
      && r.value.namespaceName == namespace.name
      && RunPosted(WithDataset(old(TablesOf(tx)), data, hash, namespace.id), TablesOf(tx), data.segments, namespace.id, r.value)
      && IsUpload(old(TablesOf(tx)), TablesOf(tx), hash, r.value)
  {
    ghost var before := TablesOf(tx);
    var hasReference := HasReference(data.segments);
    var dataset := GetOrCreateDataset(tx, hash, namespace.id, data.datasetName,
                                      data.sourceLang, data.targetLang, hasReference);
    if dataset.Err? {
      return Err(dataset.error);
    }
    ghost var mid := TablesOf(tx);
    assert mid == WithDataset(before, data, hash, namespace.id);
    assert dataset.value.id == UploadDatasetId(before, hash);
    r := AddRunOfDataset(tx, data.segments, dataset.value, hash, namespace);
    UploadKeepsOld(before, mid, TablesOf(tx), hash, r.value);
  }

  /** Adds the run of a dataset already in the table, with its segments
      and translations. */
  method AddRunOfDataset(tx: Session, posted: seq<SegmentPostData>, dataset: Dataset, hash: string, namespace: Namespace)
    returns (r: Result<RunCreated>)
    requires tx.Valid() && namespace in tx.namespaces && dataset in tx.datasets && dataset.dataHash == hash
    modifies tx`runs, tx`segments, tx`translations, tx`nextId
    ensures tx.Valid()
    ensures r.Ok? && r.value.datasetId == dataset.id && r.value.namespaceName == namespace.name
    ensures RunPosted(old(TablesOf(tx)), TablesOf(tx), posted, namespace.id, r.value)
    ensures IsUpload(old(TablesOf(tx)), TablesOf(tx), hash, r.value)
  {
    ghost var before := TablesOf(tx);
    ghost var di :| 0 <= di < |tx.datasets| && tx.datasets[di] == dataset;
    ghost var ni :| 0 <= ni < |tx.namespaces| && tx.namespaces[ni] == namespace;
    var runId := AddRun(tx, dataset.id, namespace.id);
    r := Ok(RunCreated(runId, dataset.id, namespace.name));
    ghost var mid := TablesOf(tx);
    UploadOfNewRun(before, mid, hash, r.value, namespace.id, di, ni);
    CreateSegmentsAndTranslations(tx, posted, dataset.id, runId);
    ghost var after := TablesOf(tx);
    UploadKeepsRuns(before, mid, after, hash, r.value);
    RunPostedInTwoSteps(before, mid, after, posted, namespace.id, r.value);
  }

  /** Adding the run and then posting make the run step of an upload. */
  lemma RunPostedInTwoSteps(before: UploadTables, mid: UploadTables, after: UploadTables,
                            posted: seq<SegmentPostData>, namespaceId: int, created: RunCreated)
    requires created.runId == before.nextId && mid.nextId == before.nextId + 1
    requires mid.runs == before.runs[created.runId := TranslationRun(created.runId, created.datasetId, namespaceId)]
    requires mid.namespaces == before.namespaces && mid.datasets == before.datasets
    requires mid.datasetNames == before.datasetNames
    requires mid.segments == before.segments && mid.translations == before.translations
    requires after.namespaces == mid.namespaces && after.datasets == mid.datasets
    requires after.datasetNames == mid.datasetNames && after.runs == mid.runs
    requires IsPosting(mid.segments, mid.translations, mid.nextId, after.segments, after.translations, after.nextId,
                       posted, created.datasetId, created.runId)
    ensures RunPosted(before, after, posted, namespaceId, created)
  {
  }

  /** Posting segments and translations leaves an upload an upload. */
  lemma UploadKeepsRuns(before: UploadTables, mid: UploadTables, after: UploadTables, hash: string, created: RunCreated)
    requires IsUpload(before, mid, hash, created)
    requires after.runs == mid.runs && after.datasets == mid.datasets && after.namespaces == mid.namespaces
    ensures IsUpload(before, after, hash, created)
  {
  }

  /** A run added under a fresh id, for a dataset with the hash and a
      namespace that exist, makes an upload. */
  lemma UploadOfNewRun(before: UploadTables, after: UploadTables, hash: string, created: RunCreated,
                       namespaceId: int, di: int, ni: int)
    requires created.runId !in before.runs
    requires after.runs == before.runs[created.runId := TranslationRun(created.runId, created.datasetId, namespaceId)]
    requires 0 <= di < |after.datasets| && after.datasets[di].id == created.datasetId && after.datasets[di].dataHash == hash
    requires 0 <= ni < |after.namespaces| && after.namespaces[ni].id == namespaceId
    requires after.namespaces[ni].name == created.namespaceName
    ensures IsUpload(before, after, hash, created)
  {
  }

  method AddRun(tx: Session, datasetId: int, namespaceId: int) returns (runId: int)
    requires tx.Valid()
    modifies tx`runs, tx`nextId
    ensures tx.Valid()
    ensures runId == old(tx.nextId) && runId !in old(tx.runs) && tx.nextId == runId + 1
    ensures tx.runs == old(tx.runs)[runId := TranslationRun(runId, datasetId, namespaceId)]
  {
    runId := tx.nextId;
    tx.runs := tx.runs[runId := TranslationRun(runId, datasetId, namespaceId)];
    tx.nextId := tx.nextId + 1;
  }

  // ---------------------------------------------------------------------------
  // Reading a run back

  /** zip(dataset segments, translations): src and ref from the segment,
      tgt from the translation, as many as the shorter side. */
  function ReadSegments(ds: seq<Segment>, ts: seq<SegmentTranslation>): (r: seq<ReadSegment>)
    ensures |r| == Min(|ds|, |ts|)
  {
    seq(Min(|ds|, |ts|), k requires 0 <= k < Min(|ds|, |ts|) => ReadSegment(ds[k].idx, ds[k].src, ts[k].tgt, ds[k].tgt))
  }

  /** The detail of run runId in the named namespace, its segments paired
      after sorting the dataset's segments and the run's translations by
      segment idx. */
  function GetTranslationRun(namespaces: seq<Namespace>, runs: map<int, TranslationRun>, segments: seq<Segment>,
                             translations: seq<SegmentTranslation>, namespaceName: string, runId: int): (r: Result<RunDetail>)
    ensures r.Err? ==> r.error == NotFound || r.error == Conflict
    ensures (r.Err? && r.error == Conflict) <==>
              (GetNamespaceByName(namespaces, namespaceName).Err? &&
               GetNamespaceByName(namespaces, namespaceName).error == Conflict)
    ensures r.Ok? <==> GetNamespaceByName(namespaces, namespaceName).Ok? && runId in runs &&
                       runs[runId].namespaceId == GetNamespaceByName(namespaces, namespaceName).value.id
    ensures r.Ok? ==> r.value.id == runId && r.value.datasetId == runs[runId].datasetId &&
                      r.value.namespaceName == namespaceName
  {
    var ns :- GetNamespaceByName(namespaces, namespaceName);
    if runId !in runs || runs[runId].namespaceId != ns.id then Err(NotFound)
    else
      var run := runs[runId];
      var ds := DatasetSegments(segments, run.datasetId);
      var ts := SortBy(TranslationsOf(translations, runId), SegmentIdxOf);
      Ok(RunDetail(runId, run.datasetId, ns.name, ReadSegments(ds, ts)))
  }

  /** r shows a segment of dataset datasetId: its idx, source and reference. */
  predicate ShowsSegmentOf(segments: seq<Segment>, datasetId: int, r: ReadSegment)
  {
    exists i :: 0 <= i < |segments| && segments[i].datasetId == datasetId &&
      segments[i].idx == r.idx && segments[i].src == r.src && segments[i].tgt == r.ref
  }

  /** r shows the translation of a segment within run runId. */
  predicate ShowsTranslationOf(translations: seq<SegmentTranslation>, runId: int, r: ReadSegment)
  {
    exists j :: 0 <= j < |translations| && translations[j].runId == runId && translations[j].tgt == r.tgt
  }

  /** The segments of a run's detail come in ascending idx; each shows a
      segment of the run's dataset and a translation of the run. */
  lemma ReadSegmentsFromRun(namespaces: seq<Namespace>, runs: map<int, TranslationRun>, segments: seq<Segment>,
                            translations: seq<SegmentTranslation>, namespaceName: string, runId: int)
    requires GetTranslationRun(namespaces, runs, segments, translations, namespaceName, runId).Ok?
    ensures var rs := GetTranslationRun(namespaces, runs, segments, translations, namespaceName, runId).value.segments;
      && (forall k, l :: 0 <= k < l < |rs| ==> rs[k].idx <= rs[l].idx)
      && (forall k :: 0 <= k < |rs| ==>
            ShowsSegmentOf(segments, runs[runId].datasetId, rs[k]) && ShowsTranslationOf(translations, runId, rs[k]))
  {
    var datasetId := runs[runId].datasetId;
    var ds := DatasetSegments(segments, datasetId);
    var ts := SortBy(TranslationsOf(translations, runId), SegmentIdxOf);
    var rs := ReadSegments(ds, ts);
    forall k | 0 <= k < |rs|
      ensures ShowsSegmentOf(segments, datasetId, rs[k]) && ShowsTranslationOf(translations, runId, rs[k])
    {
      SegmentShown(segments, datasetId, ts, k);
      TranslationShown(translations, runId, ds, k);
    }
  }

  lemma SegmentShown(segments: seq<Segment>, datasetId: int, ts: seq<SegmentTranslation>, k: int)
    requires 0 <= k < |ReadSegments(DatasetSegments(segments, datasetId), ts)|
    ensures ShowsSegmentOf(segments, datasetId, ReadSegments(DatasetSegments(segments, datasetId), ts)[k])
  {
    var of := SegmentsOf(segments, datasetId);
    var ds := DatasetSegments(segments, datasetId);
    assert ds[k] in multiset(of);
    assert ds[k] in of;
    assert ds[k] in segments;
    var i :| 0 <= i < |segments| && segments[i] == ds[k];
  }

  lemma TranslationShown(translations: seq<SegmentTranslation>, runId: int, ds: seq<Segment>, k: int)
    requires 0 <= k < |ReadSegments(ds, SortBy(TranslationsOf(translations, runId), SegmentIdxOf))|
    ensures ShowsTranslationOf(translations, runId, ReadSegments(ds, SortBy(TranslationsOf(translations, runId), SegmentIdxOf))[k])
  {
    var tf := TranslationsOf(translations, runId);
    var ts := SortBy(tf, SegmentIdxOf);
    assert ts[k] in multiset(tf);
    assert ts[k] in tf;
    assert ts[k] in translations;
    var j :| 0 <= j < |translations| && translations[j] == ts[k];
  }

  /** What reading back a freshly posted run should show: the k-th posted
      segment at idx k, with its source, translation and reference. */
  function Posted(posted: seq<SegmentPostData>): (r: seq<ReadSegment>)
    ensures |r| == |posted|
  {
    seq(|posted|, k requires 0 <= k < |posted| => ReadSegment(k, posted[k].src, posted[k].tgt, posted[k].ref))
  }

  /** Round trip: posting segments to a dataset that has none and a run
      that has no translations, then reading the run back, shows exactly
      the posted segments in order. */
  lemma PostThenRead(segments: seq<Segment>, translations: seq<SegmentTranslation>, posted: seq<SegmentPostData>,
                     datasetId: int, runId: int, firstId: int)
    requires NoSegmentsOf(segments, datasetId)
    requires forall j :: 0 <= j < |translations| ==> translations[j].runId != runId
    ensures var segments' := segments + NewSegments(posted, datasetId, firstId);
      var translations' := translations + Pairings(posted, DatasetSegments(segments', datasetId), runId, firstId + |posted|);
      ReadSegments(DatasetSegments(segments', datasetId), SortBy(TranslationsOf(translations', runId), SegmentIdxOf)) == Posted(posted)
  {
    var created := NewSegments(posted, datasetId, firstId);
    FreshDatasetPairsByPosition(segments, posted, datasetId, firstId);
    var pairs := Pairings(posted, created, runId, firstId + |posted|);
    FreshRunTranslations(translations, pairs, runId);
    FreshPairingsSorted(posted, datasetId, firstId, runId);
    SortBySortedIsIdentity(pairs, SegmentIdxOf);
    FreshReadSegments(posted, datasetId, firstId, runId);
  }

  lemma FreshRunTranslations(translations: seq<SegmentTranslation>, pairs: seq<SegmentTranslation>, runId: int)
    requires forall j :: 0 <= j < |translations| ==> translations[j].runId != runId
    requires forall j :: 0 <= j < |pairs| ==> pairs[j].runId == runId
    ensures TranslationsOf(translations + pairs, runId) == pairs
  {
    var q := (t: SegmentTranslation) => t.runId == runId;
    FilterAppend(translations, pairs, q);
    FilterNone(translations, q);
    FilterAll(pairs, q);
    assert [] + pairs == pairs;
  }

  lemma FreshPairingsSorted(posted: seq<SegmentPostData>, datasetId: int, firstId: int, runId: int)
    ensures SortedBy(Pairings(posted, NewSegments(posted, datasetId, firstId), runId, firstId + |posted|), SegmentIdxOf)
  {
    var pairs := Pairings(posted, NewSegments(posted, datasetId, firstId), runId, firstId + |posted|);
    assert forall k :: 0 <= k < |pairs| ==> SegmentIdxOf(pairs[k]) == k;
  }

  lemma FreshReadSegments(posted: seq<SegmentPostData>, datasetId: int, firstId: int, runId: int)
    ensures var created := NewSegments(posted, datasetId, firstId);
      ReadSegments(created, Pairings(posted, created, runId, firstId + |posted|)) == Posted(posted)
  {
    var created := NewSegments(posted, datasetId, firstId);
    var rs := ReadSegments(created, Pairings(posted, created, runId, firstId + |posted|));
    assert |rs| == |Posted(posted)|;
    assert forall k :: 0 <= k < |rs| ==> rs[k] == Posted(posted)[k];
  }
}
