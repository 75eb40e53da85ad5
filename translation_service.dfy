/** The response-to-result assembly of `translateText`: the parsed reply of the
    translation endpoint is turned into a `TranslationResult`. The HTTP request, the JSON
    decoding and the clock are outside the model: the decoded reply (or its absence, when
    fetching or decoding threw) and the current time are parameters. */
module TranslationService {
  import opened Wrappers

  /** A record of one translation, as kept in the history. */
  datatype TranslationResult = TranslationResult(
    originalText: string,
    translatedText: string,
    sourceLanguage: string,
    targetLanguage: string,
    timestamp: int)

  /** One entry `item` of `data[0]`. `Chunk(first)` is an array whose element 0 is the
      string `first`, or is missing (`None`: `undefined`, which `join` renders as "").
      `Malformed` is an entry (`null` or `undefined`) on which `item[0]` throws. */
  datatype Segment = Chunk(first: Option<string>) | Malformed

  /** The decoded reply `data`. `sentences` is `data[0]` when it is an array (`None`
      otherwise, where `.map` throws); `detected` is `data[2]` when it is a string. */
  datatype Response = Response(sentences: Option<seq<Segment>>, detected: Option<string>)

  const DEFAULT_TARGET_LANGUAGE: string := "en"
  const DEFAULT_SOURCE_LANGUAGE: string := "auto"
  const TRANSLATE_FAILED: string := "Failed to translate text"

  /** `item[0]` as `join` renders it: a missing element contributes nothing. */
  function SegmentText(seg: Segment): (text: string)
    requires seg.Chunk?
    ensures seg.first.None? ==> text == ""
    ensures seg.first.Some? ==> text == seg.first.value
  {
    seg.first.GetOr("")
  }

  /** No entry of `data[0]` makes `item[0]` throw. */
  predicate WellFormed(segments: seq<Segment>): (wf: bool)
    ensures wf <==> Malformed !in segments
  {
    forall i :: 0 <= i < |segments| ==> segments[i].Chunk?
  }

  /** `data[0].map(item => item[0]).join("")`. */
  function JoinSegments(segments: seq<Segment>): (text: string)
    requires WellFormed(segments)
    ensures segments == [] ==> text == ""
    ensures |segments| == 1 ==> text == SegmentText(segments[0])
  {
    if |segments| == 0 then "" else SegmentText(segments[0]) + JoinSegments(segments[1..])
  }

  /** Joining is in order: the text of a concatenation of segment lists is the
      concatenation of their texts. */
  lemma {:induction false} JoinSegmentsAppend(a: seq<Segment>, b: seq<Segment>)
    requires WellFormed(a) && WellFormed(b)
    ensures WellFormed(a + b)
    ensures JoinSegments(a + b) == JoinSegments(a) + JoinSegments(b)
    decreases |a|
  {
    if |a| == 0 {
      assert a + b == b;
    } else {
      assert (a + b)[0] == a[0];
      assert (a + b)[1..] == a[1..] + b;
      JoinSegmentsAppend(a[1..], b);
    }
  }

  /** The total length of the segments' texts. */
  function TextLength(segments: seq<Segment>): nat
    requires WellFormed(segments)
  {
    if |segments| == 0 then 0 else |SegmentText(segments[0])| + TextLength(segments[1..])
  }

  /** Joining adds no separator: the joined text is exactly as long as its pieces. */
  lemma {:induction false} JoinSegmentsLength(segments: seq<Segment>)
    requires WellFormed(segments)
    ensures |JoinSegments(segments)| == TextLength(segments)
    decreases |segments|
  {
    if |segments| > 0 { JoinSegmentsLength(segments[1..]); }
  }

  /** JavaScript truthiness of `data[2]`: present and not the empty string. */
  predicate Truthy(d: Option<string>): (truthy: bool)
    ensures !truthy <==> d == None || d == Some("")
  {
    d.Some? && d.value != ""
  }

  /** `translateText(text, targetLanguage, sourceLanguage)` once the reply is in hand.
      `reply` is `None` when `fetch` or `response.json()` threw (or `data` is not an
      object), and `now` stands for `Date.now()`. Every failure becomes the single error
      "Failed to translate text". */
  function TranslateText(text: string, reply: Option<Response>, now: int,
                         targetLanguage: string := DEFAULT_TARGET_LANGUAGE,
                         sourceLanguage: string := DEFAULT_SOURCE_LANGUAGE): (r: Result<TranslationResult>)
    ensures r.Failure? <==> reply.None? || reply.value.sentences.None? || !WellFormed(reply.value.sentences.value)
    ensures r.Failure? ==> r.message == TRANSLATE_FAILED
    ensures r.Success? ==> && r.value.originalText == text
                           && r.value.targetLanguage == targetLanguage
                           && r.value.timestamp == now
                           && r.value.translatedText == JoinSegments(reply.value.sentences.value)
    ensures r.Success? ==>
              r.value.sourceLanguage == (if Truthy(reply.value.detected) then reply.value.detected.value else sourceLanguage)
  {
    match reply
    case None => Failure(TRANSLATE_FAILED)
    case Some(data) =>
      match data.sentences
      case None => Failure(TRANSLATE_FAILED)
      case Some(segments) =>
        if !WellFormed(segments) then Failure(TRANSLATE_FAILED)
        else
          var detectedSourceLang := if Truthy(data.detected) then data.detected.value else sourceLanguage;
          Success(TranslationResult(text, JoinSegments(segments), detectedSourceLang, targetLanguage, now))
  }

  /** When the reply names no language, the result keeps the caller's source language,
      so a call with the defaults yields source "auto" and target "en". */
  lemma DefaultsKeepAuto(text: string, segments: seq<Segment>, now: int)
    requires WellFormed(segments)
    ensures TranslateText(text, Some(Response(Some(segments), None)), now)
            == Success(TranslationResult(text, JoinSegments(segments), "auto", "en", now))
  {
  }

  /** `translateText` itself accepts the empty text: only the caller guards against it. */
  lemma EmptyTextIsTranslated(reply: Response, now: int, targetLanguage: string, sourceLanguage: string)
    requires reply.sentences.Some? && WellFormed(reply.sentences.value)
    ensures TranslateText("", Some(reply), now, targetLanguage, sourceLanguage).Success?
    ensures TranslateText("", Some(reply), now, targetLanguage, sourceLanguage).value.originalText == ""
  {
  }
}
