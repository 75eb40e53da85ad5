/** The translation history kept by `storageService.ts`: one list of records, newest
    first, persisted under the single key "translation_history". The extension storage is
    the field `stored` of a `HistoryStore` (`None` while the key is absent); whether a
    storage read or write throws is a parameter of each operation. */
module StorageService {
  import opened Wrappers
  import opened TranslationService

  /** The storage key whose value `HistoryStore.stored` stands for; kept as a name only. */
  const HISTORY_KEY: string := "translation_history"
  const SAVE_FAILED: string := "Failed to save translation"
  const CLEAR_FAILED: string := "Failed to clear translation history"
  const DELETE_FAILED: string := "Failed to delete translation"

  /** What `getTranslationHistory` returns from the stored value: the stored list, or
      `[]` when the key is absent or the read throws. */
  function ReadHistory(stored: Option<seq<TranslationResult>>, readFails: bool): (h: seq<TranslationResult>)
    ensures !readFails && stored.Some? ==> h == stored.value
    ensures readFails || stored.None? ==> h == []
  {
    if readFails then [] else stored.GetOr([])
  }

  /** `history.filter(item => item.timestamp !== timestamp)`. */
  function WithoutTimestamp(history: seq<TranslationResult>, timestamp: int): (kept: seq<TranslationResult>)
    ensures |kept| <= |history|
    ensures forall i :: 0 <= i < |kept| ==> kept[i] in history && kept[i].timestamp != timestamp
  {
    if |history| == 0 then []
    else if history[0].timestamp != timestamp then [history[0]] + WithoutTimestamp(history[1..], timestamp)
    else WithoutTimestamp(history[1..], timestamp)
  }

  /** The filter distributes over concatenation: entries keep their relative order. */
  lemma {:induction false} WithoutTimestampAppend(a: seq<TranslationResult>, b: seq<TranslationResult>, timestamp: int)
    ensures WithoutTimestamp(a + b, timestamp) == WithoutTimestamp(a, timestamp) + WithoutTimestamp(b, timestamp)
    decreases |a|
  {
    if |a| == 0 {
      assert a + b == b;
    } else {
      assert (a + b)[0] == a[0];
      assert (a + b)[1..] == a[1..] + b;
      WithoutTimestampAppend(a[1..], b, timestamp);
    }
  }

  /** All and only the entries with the timestamp go: each record keeps all of its
      occurrences when its timestamp differs, and loses all of them otherwise. */
  lemma {:induction false} WithoutTimestampCounts(history: seq<TranslationResult>, timestamp: int)
    ensures forall t :: multiset(WithoutTimestamp(history, timestamp))[t]
                        == if t.timestamp == timestamp then 0 else multiset(history)[t]
    decreases |history|
  {
    if |history| > 0 {
      WithoutTimestampCounts(history[1..], timestamp);
      assert history == [history[0]] + history[1..];
    }
  }

  /** Nothing left has the timestamp, and every entry without it is kept. */
  lemma WithoutTimestampMembers(history: seq<TranslationResult>, timestamp: int)
    ensures forall t :: t in WithoutTimestamp(history, timestamp) <==> t in history && t.timestamp != timestamp
  {
    WithoutTimestampCounts(history, timestamp);
    forall t ensures t in WithoutTimestamp(history, timestamp) <==> t in history && t.timestamp != timestamp {
      assert t in WithoutTimestamp(history, timestamp) <==> multiset(WithoutTimestamp(history, timestamp))[t] > 0;
      assert t in history <==> multiset(history)[t] > 0;
    }
  }

  /** With no entry carrying the timestamp, the filter changes nothing. */
  lemma {:induction false} WithoutAbsentTimestamp(history: seq<TranslationResult>, timestamp: int)
    requires forall i :: 0 <= i < |history| ==> history[i].timestamp != timestamp
    ensures WithoutTimestamp(history, timestamp) == history
    decreases |history|
  {
    if |history| > 0 {
      WithoutAbsentTimestamp(history[1..], timestamp);
    }
  }

  /** Deleting twice is deleting once. */
  lemma WithoutTimestampIdempotent(history: seq<TranslationResult>, timestamp: int)
    ensures WithoutTimestamp(WithoutTimestamp(history, timestamp), timestamp) == WithoutTimestamp(history, timestamp)
  {
    var once := WithoutTimestamp(history, timestamp);
    WithoutTimestampMembers(history, timestamp);
    forall i | 0 <= i < |once| ensures once[i].timestamp != timestamp {
      assert once[i] in once;
    }
    WithoutAbsentTimestamp(once, timestamp);
  }

  /** Deleting the timestamp of a just-saved record whose timestamp is new gives back the
      history as it was before the save. */
  lemma DeleteUndoesSave(history: seq<TranslationResult>, t: TranslationResult)
    requires forall i :: 0 <= i < |history| ==> history[i].timestamp != t.timestamp
    ensures WithoutTimestamp([t] + history, t.timestamp) == history
  {
    WithoutTimestampAppend([t], history, t.timestamp);
    WithoutAbsentTimestamp(history, t.timestamp);
  }

  /** The persisted history. */
  class HistoryStore {
    /** The value under the history key, `None` while the key is absent. */
    var stored: Option<seq<TranslationResult>>

    /** A store in which the history key has never been written. */
    constructor ()
      ensures stored == None
    {
      stored := None;
    }

    /** `getTranslationHistory`: never throws; a failed read and an absent key both
        give `[]`. */
    method GetTranslationHistory(readFails: bool) returns (history: seq<TranslationResult>)
      ensures history == ReadHistory(stored, readFails)
    {
      history := ReadHistory(stored, readFails);
    }

    /** `saveTranslation`: prepends `translation` to the history as read (empty if the
        read failed) and writes the list back; a failed write throws and leaves the store
        as it was. */
    method SaveTranslation(translation: TranslationResult, readFails: bool, writeFails: bool)
      returns (status: Status)
      modifies this
      ensures writeFails ==> status == Failed(SAVE_FAILED) && stored == old(stored)
      ensures !writeFails ==> status == Done && stored == Some([translation] + ReadHistory(old(stored), readFails))
    {
      var history := GetTranslationHistory(readFails);
      var updatedHistory := [translation] + history;
      if writeFails {
        status := Failed(SAVE_FAILED);
      } else {
        stored := Some(updatedHistory);
        status := Done;
      }
    }

    /** `clearTranslationHistory`: writes the empty list. */
    method ClearTranslationHistory(writeFails: bool) returns (status: Status)
      modifies this
      ensures writeFails ==> status == Failed(CLEAR_FAILED) && stored == old(stored)
      ensures !writeFails ==> status == Done && stored == Some([])
    {
      if writeFails {
        status := Failed(CLEAR_FAILED);
      } else {
        stored := Some([]);
        status := Done;
      }
    }

    /** `deleteTranslation`: writes back the history as read, without the entries
        carrying `timestamp`. */
    method DeleteTranslation(timestamp: int, readFails: bool, writeFails: bool) returns (status: Status)
      modifies this
      ensures writeFails ==> status == Failed(DELETE_FAILED) && stored == old(stored)
      ensures !writeFails ==> status == Done && stored == Some(WithoutTimestamp(ReadHistory(old(stored), readFails), timestamp))
    {
      var history := GetTranslationHistory(readFails);
      var updatedHistory := WithoutTimestamp(history, timestamp);
      if writeFails {
        status := Failed(DELETE_FAILED);
      } else {
        stored := Some(updatedHistory);
        status := Done;
      }
    }
  }

  /** A client of the store: a save onto an absent key, then a read, then a clear. */
  method SaveReadClearScenario(t: TranslationResult)
  {
    var store := new HistoryStore();
    var status := store.SaveTranslation(t, false, false);
    var history := store.GetTranslationHistory(false);
    assert history == [t];
    status := store.ClearTranslationHistory(false);
    history := store.GetTranslationHistory(false);
    assert history == [];
  }
}
