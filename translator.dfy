/** The translator panel's rules: the language swap, the guard and busy-flag handling of
    `handleTranslate` around its calls to `translateText` and `saveTranslation`, the
    button-disabled predicates, and the record written by the manual save button. The
    network reply, the clock and the storage outcomes are parameters. */
module Translator {
  import opened Wrappers
  import opened Text
  import opened Constants
  import opened TranslationService
  import opened StorageService

  const EMPTY_TEXT_ERROR: string := "Please enter text to translate"
  const TRANSLATION_FAILED: string := "Translation failed. Please try again."

  /** The arguments of one `translateText` call, in its parameter order. */
  datatype TranslateCall = TranslateCall(text: string, targetLanguage: string, sourceLanguage: string)

  /** The language pair after `swapLanguages`: exchanged unless the source is auto-detect. */
  function SwapPair(source: string, target: string): (pair: (string, string))
    ensures source == AUTO ==> pair == (source, target)
    ensures source != AUTO ==> pair.0 == target && pair.1 == source
  {
    if source != AUTO then (target, source) else (source, target)
  }

  /** While the target is never auto-detect, swapping twice restores the pair. */
  lemma SwapTwiceRestores(source: string, target: string)
    requires target != AUTO
    ensures SwapPair(SwapPair(source, target).0, SwapPair(source, target).1) == (source, target)
  {
  }

  /** The translator panel's component state. */
  class TranslatorPanel {
    var inputText: string
    var translatedText: string
    var sourceLanguage: string
    var targetLanguage: string
    var isTranslating: bool
    var error: string

    /** The target language is never auto-detect: it starts as "en", the target
        selector offers no "auto", and a swap only happens from a non-auto source. */
    ghost predicate Valid()
      reads this
    {
      targetLanguage != AUTO
    }

    constructor ()
      ensures Valid()
      ensures inputText == "" && translatedText == "" && sourceLanguage == AUTO
      ensures targetLanguage == "en" && !isTranslating && error == ""
    {
      inputText := "";
      translatedText := "";
      sourceLanguage := AUTO;
      targetLanguage := "en";
      isTranslating := false;
      error := "";
    }

    /** The swap button is disabled exactly while the source is auto-detect; when it is
        disabled a swap would leave the pair as it is, and when it is enabled a swap
        exchanges the two languages. */
    predicate SwapDisabled(): (disabled: bool)
      reads this
      ensures disabled <==> sourceLanguage == AUTO
      ensures disabled ==> SwapPair(sourceLanguage, targetLanguage) == (sourceLanguage, targetLanguage)
      ensures !disabled ==> SwapPair(sourceLanguage, targetLanguage) == (targetLanguage, sourceLanguage)
    {
      sourceLanguage == AUTO
    }

    /** The Translate button is disabled while a translation is in flight or the input is
        blank. */
    predicate TranslateDisabled(): (disabled: bool)
      reads this
      ensures disabled <==> isTranslating || IsBlank(inputText)
    {
      TrimEmptyIffBlank(inputText);
      isTranslating || Trim(inputText) == ""
    }

    /** `swapLanguages`. */
    method SwapLanguages()
      requires Valid()
      modifies this
      ensures Valid()
      ensures (sourceLanguage, targetLanguage) == SwapPair(old(sourceLanguage), old(targetLanguage))
      ensures inputText == old(inputText) && translatedText == old(translatedText)
      ensures isTranslating == old(isTranslating) && error == old(error)
    {
      if sourceLanguage != AUTO {
        var temp := sourceLanguage;
        sourceLanguage := targetLanguage;
        targetLanguage := temp;
      }
    }

    /** `handleTranslate`, with the update of the (undeclared) history state left out.
        `call` is the `translateText` call made (`None` when the guard returns early) and
        `busyDuringCall` the value of `isTranslating` while it is awaited; `reply` and
        `now` feed that call, `readFails` and `writeFails` the `saveTranslation` call.
        `errorDuringCall` is the error shown while `translateText` is awaited. */
    method HandleTranslate(history: HistoryStore, reply: Option<Response>, now: int, readFails: bool, writeFails: bool)
      returns (call: Option<TranslateCall>, busyDuringCall: bool, errorDuringCall: string)
      modifies this, history
      ensures inputText == old(inputText) && sourceLanguage == old(sourceLanguage) && targetLanguage == old(targetLanguage)
      ensures IsBlank(old(inputText)) ==>
                && call == None && error == EMPTY_TEXT_ERROR
                && isTranslating == old(isTranslating) && translatedText == old(translatedText)
                && history.stored == old(history.stored)
      ensures !IsBlank(old(inputText)) ==>
                && call == Some(TranslateCall(old(inputText), old(targetLanguage), old(sourceLanguage)))
                && busyDuringCall && errorDuringCall == "" && !isTranslating
      ensures !IsBlank(old(inputText)) ==>
                var res := TranslateText(old(inputText), reply, now, old(targetLanguage), old(sourceLanguage));
                && (res.Failure? ==> && error == TRANSLATION_FAILED && translatedText == old(translatedText)
                                     && history.stored == old(history.stored))
                && (res.Success? && writeFails ==> && error == TRANSLATION_FAILED
                                                   && translatedText == res.value.translatedText
                                                   && history.stored == old(history.stored))
                && (res.Success? && !writeFails ==> && error == ""
                                                    && translatedText == res.value.translatedText
                                                    && history.stored == Some([res.value] + ReadHistory(old(history.stored), readFails)))
    {
      TrimEmptyIffBlank(inputText);
      call, busyDuringCall, errorDuringCall := None, isTranslating, error;
      if Trim(inputText) == "" {
        error := EMPTY_TEXT_ERROR;
        return;
      }
      error := "";
      isTranslating := true;
      call, busyDuringCall, errorDuringCall := Some(TranslateCall(inputText, targetLanguage, sourceLanguage)), isTranslating, error;
      var res := TranslateText(inputText, reply, now, targetLanguage, sourceLanguage);
      if res.Failure? {
        error := TRANSLATION_FAILED;
      } else {
        translatedText := res.value.translatedText;
        var status := history.SaveTranslation(res.value, readFails, writeFails);
        if status.Failed? {
          error := TRANSLATION_FAILED;
        }
      }
      isTranslating := false;
    }

    /** `handleTranslate` as written: after a successful save the handler reads the
        undeclared `setHistory`, which throws a `ReferenceError` inside the `try`, so the
        `catch` reports a failure even though the text was translated and saved. */
    method HandleTranslateAsWritten(history: HistoryStore, reply: Option<Response>, now: int, readFails: bool, writeFails: bool)
      returns (call: Option<TranslateCall>, busyDuringCall: bool, errorDuringCall: string)
      modifies this, history
      ensures inputText == old(inputText) && sourceLanguage == old(sourceLanguage) && targetLanguage == old(targetLanguage)
      ensures IsBlank(old(inputText)) ==>
                && call == None && error == EMPTY_TEXT_ERROR
                && isTranslating == old(isTranslating) && translatedText == old(translatedText)
                && history.stored == old(history.stored)
      ensures !IsBlank(old(inputText)) ==>
                && call == Some(TranslateCall(old(inputText), old(targetLanguage), old(sourceLanguage)))
                && busyDuringCall && errorDuringCall == "" && !isTranslating && error == TRANSLATION_FAILED
      ensures !IsBlank(old(inputText)) ==>
                var res := TranslateText(old(inputText), reply, now, old(targetLanguage), old(sourceLanguage));
                && (res.Failure? ==> translatedText == old(translatedText) && history.stored == old(history.stored))
                && (res.Success? ==> translatedText == res.value.translatedText)
                && (res.Success? && writeFails ==> history.stored == old(history.stored))
                && (res.Success? && !writeFails ==>
                      history.stored == Some([res.value] + ReadHistory(old(history.stored), readFails)))
    {
      call, busyDuringCall, errorDuringCall := HandleTranslate(history, reply, now, readFails, writeFails);
      if call.Some? && error == "" {
        error := TRANSLATION_FAILED;
      }
    }

    /** The record the manual save button writes: the panel's current input, output and
        selected languages, the source possibly still "auto". */
    function ShownRecord(now: int): (t: TranslationResult)
      reads this
      ensures t.originalText == inputText && t.translatedText == translatedText
      ensures t.sourceLanguage == sourceLanguage && t.targetLanguage == targetLanguage && t.timestamp == now
    {
      TranslationResult(inputText, translatedText, sourceLanguage, targetLanguage, now)
    }

    /** The manual save button: saves `ShownRecord(now)` without awaiting the result, so
        a failed save changes neither the store nor the panel. */
    method SaveShown(history: HistoryStore, now: int, readFails: bool, writeFails: bool)
      modifies history
      ensures writeFails ==> history.stored == old(history.stored)
      ensures !writeFails ==> history.stored == Some([ShownRecord(now)] + ReadHistory(old(history.stored), readFails))
    {
      var status := history.SaveTranslation(ShownRecord(now), readFails, writeFails);
    }
  }

  /** A translation that succeeds and is saved is still reported as failed by the
      handler as written, and not by the corrected one. The panel keeps its initial
      language pair, the only one its selectors leave it in. */
  method SuccessfulTranslationReportsFailure()
  {
    var reply := Some(Response(Some([Chunk(Some("bonjour"))]), Some("en")));
    var store := new HistoryStore();
    var panel := new TranslatorPanel();
    panel.inputText := "hello";
    assert !IsBlank(panel.inputText) by { assert !IsWhitespace(panel.inputText[0]); }
    var expected := TranslationResult("hello", "bonjour", "en", "en", 1);
    assert TranslateText("hello", reply, 1, "en", AUTO) == Success(expected);
    var call, busy, shown := panel.HandleTranslateAsWritten(store, reply, 1, false, false);
    assert panel.translatedText == "bonjour";
    assert [expected] + ReadHistory(None, false) == [expected];
    assert store.stored == Some([expected]);
    assert panel.error == TRANSLATION_FAILED;

    var fixedStore := new HistoryStore();
    var fixedPanel := new TranslatorPanel();
    fixedPanel.inputText := "hello";
    assert !IsBlank(fixedPanel.inputText) by { assert !IsWhitespace(fixedPanel.inputText[0]); }
    call, busy, shown := fixedPanel.HandleTranslate(fixedStore, reply, 1, false, false);
    assert fixedPanel.error == "";
  }
}
