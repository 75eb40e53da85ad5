/** The API-key handlers of the settings panel: `handleSaveApiKey` validates the typed
    key and hands its trimmed form to the credential store; `handleClearApiKey` removes
    the key after the user confirms. The credential store (`setApiKey`, `clearApiKey`) and
    the confirmation dialog are outside the model: whether each call throws, and what the
    user answers, are parameters, and each handler returns what it passed to the store. */
module Settings {
  import opened Wrappers
  import opened Text

  const API_KEY_PREFIX: string := "sk-or-v1-"
  const EMPTY_KEY_ERROR: string := "Please enter a valid API key"
  const PREFIX_ERROR: string := "Please enter a valid OpenRouter API key (should start with 'sk-or-v1-')"
  const SAVE_KEY_FAILED: string := "Failed to save API key. Please try again."
  const REMOVE_KEY_FAILED: string := "Failed to remove API key. Please try again."

  /** The two checks of `handleSaveApiKey`, in order: the trimmed input must not be
      empty, and the input as typed (not trimmed) must start with the prefix. On success,
      the key to store is the trimmed input. */
  function ValidateApiKey(input: string): (r: Result<string>)
    ensures r == Failure(EMPTY_KEY_ERROR) <==> IsBlank(input)
    ensures r == Failure(PREFIX_ERROR) <==> !IsBlank(input) && !StartsWith(input, API_KEY_PREFIX)
    ensures r.Success? <==> !IsBlank(input) && StartsWith(input, API_KEY_PREFIX)
    ensures r.Success? ==> r.value == Trim(input)
  {
    TrimEmptyIffBlank(input);
    if Trim(input) == "" then Failure(EMPTY_KEY_ERROR)
    else if !StartsWith(input, API_KEY_PREFIX) then Failure(PREFIX_ERROR)
    else Success(Trim(input))
  }

  /** No character of the prefix is whitespace. */
  lemma PrefixHasNoWhitespace()
    ensures forall k :: 0 <= k < |API_KEY_PREFIX| ==> !IsWhitespace(API_KEY_PREFIX[k])
  {
  }

  /** An accepted key is stored with the prefix and without surrounding whitespace: the
      prefix has no whitespace in it, so only trailing whitespace can have been dropped. */
  lemma AcceptedKeyKeepsPrefix(input: string)
    requires ValidateApiKey(input).Success?
    ensures StartsWith(ValidateApiKey(input).value, API_KEY_PREFIX)
    ensures ValidateApiKey(input).value == TrimEnd(input)
    ensures Trim(ValidateApiKey(input).value) == ValidateApiKey(input).value
  {
    var key := ValidateApiKey(input).value;
    assert key == Trim(input) && StartsWith(input, API_KEY_PREFIX);
    PrefixHasNoWhitespace();
    TrimKeepsSolidPrefix(input, API_KEY_PREFIX);
    TrimIdempotent(input);
  }

  /** The prefix check sees the input as typed: a key with the right prefix fails after
      leading whitespace (" sk-or-v1-x", say), although its trimmed form has the prefix. */
  lemma LeadingWhitespaceRejected(c: char, key: string)
    requires IsWhitespace(c) && StartsWith(key, API_KEY_PREFIX)
    ensures ValidateApiKey([c] + key) == Failure(PREFIX_ERROR)
    ensures StartsWith(Trim([c] + key), API_KEY_PREFIX)
  {
    var s := [c] + key;
    PrefixHasNoWhitespace();
    assert s[1..] == key;
    assert !IsBlank(s) by { assert s[1] == key[0] == API_KEY_PREFIX[0]; }
    assert !StartsWith(s, API_KEY_PREFIX) by { assert s[0] == c; }
    TrimKeepsSolidPrefix(key, API_KEY_PREFIX);
    assert TrimStart(s) == TrimStart(key) by {
      assert SkipForward(s, 0) == SkipForward(s, 1);
      assert SkipForward(s, 1) == SkipForward(key, 0) + 1 by { SkipShift(c, key, 0); }
    }
  }

  /** The settings panel's component state. */
  class SettingsPanel {
    var apiKey: string
    var isConfigured: bool
    var isSaving: bool
    var showApiKey: bool
    var error: string

    /** The state on mount, before the configured-check effect reports. */
    constructor ()
      ensures apiKey == "" && !isConfigured && !isSaving && !showApiKey && error == ""
    {
      apiKey := "";
      isConfigured := false;
      isSaving := false;
      showApiKey := false;
      error := "";
    }

    /** The Save button is disabled while a save is in flight or the input is blank. */
    predicate SaveDisabled(): (disabled: bool)
      reads this
      ensures disabled <==> isSaving || IsBlank(apiKey)
    {
      TrimEmptyIffBlank(apiKey);
      isSaving || Trim(apiKey) == ""
    }

    /** `handleSaveApiKey`. `sent` is the value passed to `setApiKey` (`None` when it is
        not called), and `savingDuringCall` and `errorDuringCall` the values of `isSaving` and
        `error` while that call is awaited; `setApiKeyFails` says whether it throws. */
    method HandleSaveApiKey(setApiKeyFails: bool)
      returns (sent: Option<string>, savingDuringCall: bool, errorDuringCall: string)
      modifies this
      ensures ValidateApiKey(old(apiKey)).Failure? ==>
                && sent == None
                && error == ValidateApiKey(old(apiKey)).message
                && apiKey == old(apiKey) && isConfigured == old(isConfigured)
                && isSaving == old(isSaving) && showApiKey == old(showApiKey)
      ensures ValidateApiKey(old(apiKey)).Success? ==>
                && sent == Some(Trim(old(apiKey)))
                && savingDuringCall && errorDuringCall == "" && !isSaving
      ensures ValidateApiKey(old(apiKey)).Success? && !setApiKeyFails ==>
                isConfigured && apiKey == "" && !showApiKey && error == ""
      ensures ValidateApiKey(old(apiKey)).Success? && setApiKeyFails ==>
                && error == SAVE_KEY_FAILED
                && apiKey == old(apiKey) && isConfigured == old(isConfigured) && showApiKey == old(showApiKey)
    {
      sent, savingDuringCall, errorDuringCall := None, isSaving, error;
      var verdict := ValidateApiKey(apiKey);
      if verdict.Failure? {
        error := verdict.message;
        return;
      }
      error := "";
      isSaving := true;
      sent, savingDuringCall, errorDuringCall := Some(verdict.value), isSaving, error;
      if !setApiKeyFails {
        isConfigured := true;
        apiKey := "";
        showApiKey := false;
      } else {
        error := SAVE_KEY_FAILED;
      }
      isSaving := false;
    }

    /** `handleClearApiKey`. `confirmed` is the user's answer to the confirmation dialog;
        the result says whether `clearApiKey` was called, and `clearApiKeyFails` whether
        it throws. */
    method HandleClearApiKey(confirmed: bool, clearApiKeyFails: bool) returns (called: bool)
      modifies this
      ensures called == confirmed
      ensures apiKey == old(apiKey) && isSaving == old(isSaving) && showApiKey == old(showApiKey)
      ensures !confirmed ==> isConfigured == old(isConfigured) && error == old(error)
      ensures confirmed && !clearApiKeyFails ==> !isConfigured && error == ""
      ensures confirmed && clearApiKeyFails ==> isConfigured == old(isConfigured) && error == REMOVE_KEY_FAILED
    {
      called := confirmed;
      if confirmed {
        if !clearApiKeyFails {
          isConfigured := false;
          error := "";
        } else {
          error := REMOVE_KEY_FAILED;
        }
      }
    }
  }
}
