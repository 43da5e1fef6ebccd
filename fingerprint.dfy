/** The dataset fingerprint: a digest of the canonical JSON form of the
    segments' sources and references and of the two languages' ISO 639-1
    codes. The language matcher, the JSON canonicaliser (RFC 8785) and
    BLAKE2b (RFC 7693) are parameters of the model. */
module Fingerprint {
  import opened Common
  import opened Store

  /** What the ISO 639 matcher answers for a language name: no language,
      or a language and its two-letter code, which some languages lack. */
  datatype LanguageMatch = NoMatch | Matched(part1: Option<string>)

  /** One segment of the pre-image. */
  datatype Entry = Entry(src: string, ref: string)

  /** The JSON object that is canonicalised and hashed. */
  datatype PreImage = PreImage(segments: seq<Entry>, sourceLang: Option<string>, targetLang: Option<string>)

  /** The external functions the fingerprint is built from. */
  datatype Hasher = Hasher(
    matchLanguage: string -> LanguageMatch,
    canonicalize: PreImage -> seq<bv8>,
    blake2bHex: seq<bv8> -> string)

  /** A reference as the pre-image records it: a missing one is "". */
  function RefText(ref: Option<string>): string
  {
    if ref.Some? then ref.value else ""
  }

  /** The segment list of the pre-image: each posted segment's source and
      reference, in order; the translation is not part of it. */
  function Entries(segments: seq<SegmentPostData>): (r: seq<Entry>)
    ensures |r| == |segments|
    ensures forall i :: 0 <= i < |r| ==> r[i] == Entry(segments[i].src, RefText(segments[i].ref))
  {
    seq(|segments|, i requires 0 <= i < |segments| => Entry(segments[i].src, RefText(segments[i].ref)))
  }

  /** The fingerprint of a dataset; an unknown language fails the request. */
  function DatasetHash(h: Hasher, segments: seq<SegmentPostData>, sourceLang: string, targetLang: string): (r: Result<string>)
    ensures r.Err? <==> h.matchLanguage(sourceLang).NoMatch? || h.matchLanguage(targetLang).NoMatch?
    ensures r.Err? ==> r.error == LanguageNotFound
    ensures r.Ok? ==> r.value == h.blake2bHex(h.canonicalize(PreImage(
      Entries(segments), h.matchLanguage(sourceLang).part1, h.matchLanguage(targetLang).part1)))
  {
    var source := h.matchLanguage(sourceLang);
    if source.NoMatch? then Err(LanguageNotFound)
    else
      var target := h.matchLanguage(targetLang);
      if target.NoMatch? then Err(LanguageNotFound)
      else
        var data := PreImage(Entries(segments), source.part1, target.part1);
        Ok(h.blake2bHex(h.canonicalize(data)))
  }

  /** Two postings with the same sources, the same references (a missing
      reference counting as "") and languages that map to the same codes
      have the same fingerprint, whatever their translations. */
  lemma SamePreImageSameHash(h: Hasher, a: seq<SegmentPostData>, b: seq<SegmentPostData>,
                             sourceA: string, sourceB: string, targetA: string, targetB: string)
    requires |a| == |b|
    requires forall i :: 0 <= i < |a| ==> a[i].src == b[i].src && RefText(a[i].ref) == RefText(b[i].ref)
    requires h.matchLanguage(sourceA) == h.matchLanguage(sourceB)
    requires h.matchLanguage(targetA) == h.matchLanguage(targetB)
    ensures DatasetHash(h, a, sourceA, targetA) == DatasetHash(h, b, sourceB, targetB)
  {
    var ea, eb := Entries(a), Entries(b);
    assert forall i :: 0 <= i < |ea| ==> ea[i] == eb[i];
    assert ea == eb;
  }

  /** The translations alone never change the fingerprint. */
  lemma TranslationsDoNotCount(h: Hasher, segments: seq<SegmentPostData>, tgts: seq<string>, sourceLang: string, targetLang: string)
    requires |tgts| == |segments|
    ensures var retranslated := seq(|segments|, i requires 0 <= i < |segments| => segments[i].(tgt := tgts[i]));
      DatasetHash(h, retranslated, sourceLang, targetLang) == DatasetHash(h, segments, sourceLang, targetLang)
  {
    var retranslated := seq(|segments|, i requires 0 <= i < |segments| => segments[i].(tgt := tgts[i]));
    SamePreImageSameHash(h, retranslated, segments, sourceLang, sourceLang, targetLang, targetLang);
  }

  /** A segment posted without a reference and one posted with the empty
      reference give the same fingerprint. */
  lemma MissingRefIsEmptyRef(h: Hasher, segments: seq<SegmentPostData>, i: int, sourceLang: string, targetLang: string)
    requires 0 <= i < |segments| && segments[i].ref.None?
    ensures DatasetHash(h, segments[i := segments[i].(ref := Some(""))], sourceLang, targetLang) ==
            DatasetHash(h, segments, sourceLang, targetLang)
  {
    SamePreImageSameHash(h, segments[i := segments[i].(ref := Some(""))], segments, sourceLang, sourceLang, targetLang, targetLang);
  }
}
