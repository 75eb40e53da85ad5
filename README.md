# Translate Note side panel: a verified model of its core

Translate Note is a browser-extension side panel. The user types some text and picks a
source language ("auto" means detect it) and a target language. The panel asks a public
translation endpoint for a translation, shows the result, and keeps a newest-first history
of translations in the extension's local storage. A settings panel stores an OpenRouter
API key.

This project models the logic behind that and proves properties of it:

- `translation_service.dfy` (module `TranslationService`): the `TranslationResult` record
  and how `translateText` turns the decoded reply into a result. The text is the in-order
  join of each segment's first element. The source language is `data[2]` or, failing that,
  the caller's. Every failure becomes "Failed to translate text".
- `storage_service.dfy` (module `StorageService`): the history store. It is a class
  `HistoryStore` whose field `stored` stands for the value under the key
  "translation_history" (`None` while the key is absent). Save prepends, read degrades
  to `[]`, clear writes `[]`, and delete filters by timestamp.
- `constants.dfy` (module `Constants`): the language table, the code-to-name map folded
  from it, the name lookup with its fallback, and the source and target lists.
- `settings.dfy` (module `Settings`): validation of the typed API key and the state
  changes of the save and clear handlers.
- `translator.dfy` (module `Translator`): the language swap, the guard and busy flag of
  the Translate handler, the two button-disabled predicates, and the manual-save record.
- `text.dfy` (module `Text`) gives JavaScript's `trim` and `startsWith`.
  `wrappers.dfy` (module `Wrappers`) gives `Option`, `Result` and `Status`.

Every call to the outside world is a parameter: the network reply, `Date.now()`, whether
a storage read or write throws, the user's answer to the confirmation dialog, and whether
the credential store throws. `HandleSaveApiKey`, `HandleClearApiKey` and `HandleTranslate`
also return what they passed to the outside call they make.

Consequences of the code worth knowing:

- The result's source language can be "auto" (`TranslationService.DefaultsKeepAuto`).
- `translateText` accepts empty text (`TranslationService.EmptyTextIsTranslated`); only
  the panel's handler rejects blank input.
- The translated text can be empty: an empty segment list joins to "".
- The translator hands its two language selectors an `onValueChange` prop
  (entrypoints/components/translator/index.tsx:96, :117), but the `Selector` widget reads
  `onChange` (entrypoints/components/selector/index.tsx:13, :26). So the pair never
  leaves its initial ("auto", "en"), the swap button stays disabled, and
  `SwapLanguages` never runs from the interface. The model keeps the swap rule as the
  handler states it.
- A failed read inside save or delete counts as an empty history, so the write that
  follows replaces the whole stored list.

## Model

| member | source | states |
|---|---|---|
| `TranslationService.TranslateText` | entrypoints/services/translationService.ts:17-49 | Fails, always with "Failed to translate text", exactly when the reply is missing, `data[0]` is not an array, or a segment is malformed. On success: the original text and the target are the inputs verbatim, the timestamp is the clock value, the text is the joined segments, and the source is `data[2]` when truthy, otherwise the caller's source. |
| `TranslationService.SegmentText` | entrypoints/services/translationService.ts:33 | A segment's `item[0]` renders as its string, or as "" when it is missing. |
| `TranslationService.WellFormed` | entrypoints/services/translationService.ts:33 | `item[0]` throws for no entry exactly when no entry is a `null` item. |
| `TranslationService.Truthy` | entrypoints/services/translationService.ts:34 | `data[2]` is falsy exactly when it is absent or the empty string. |
| `TranslationService.JoinSegments` | entrypoints/services/translationService.ts:33 | No segments join to ""; one segment joins to its first element, or "" when that is missing. |
| `TranslationService.JoinSegmentsAppend` | entrypoints/services/translationService.ts:33 | The join is in order: joining `a + b` gives the join of `a` followed by the join of `b`. |
| `TranslationService.JoinSegmentsLength` | entrypoints/services/translationService.ts:33 | The join adds no separator: its length is the sum of the pieces' lengths. |
| `TranslationService.DefaultsKeepAuto` | entrypoints/services/translationService.ts:17-42 | With the default target "en" and source "auto", and no language in the reply, the result's source is "auto" and its target is "en". |
| `TranslationService.EmptyTextIsTranslated` | entrypoints/services/translationService.ts:17-30 | `translateText` does not reject empty text: a well-formed reply gives a result whose original text is "". |
| `StorageService.ReadHistory` | entrypoints/services/storageService.ts:21-29 | A read gives the stored list, or `[]` when the key is absent or the read fails. |
| `StorageService.HistoryStore.GetTranslationHistory` | entrypoints/services/storageService.ts:21-29 | The read never throws and changes nothing. It returns `ReadHistory` of the store: the stored list, or `[]` on an absent key or a failed read. |
| `StorageService.HistoryStore.SaveTranslation` | entrypoints/services/storageService.ts:5-19 | After a successful write, the stored list is `[t]` followed by the history as read (so exactly `[t]` onto an absent key). A failed write returns "Failed to save translation" and leaves the store as it was. |
| `StorageService.HistoryStore.ClearTranslationHistory` | entrypoints/services/storageService.ts:31-38 | After a successful write, the stored list is `[]`. A failed write returns "Failed to clear translation history" and changes nothing. |
| `StorageService.HistoryStore.DeleteTranslation` | entrypoints/services/storageService.ts:40-49 | After a successful write, the stored list is the history as read, filtered by timestamp. A failed write returns "Failed to delete translation" and changes nothing. |
| `StorageService.WithoutTimestamp` | entrypoints/services/storageService.ts:43 | The filter never lengthens the history, and every record it keeps comes from the history and has a different timestamp. |
| `StorageService.WithoutTimestampCounts` | entrypoints/services/storageService.ts:43 | The filter removes all and only the records with the timestamp. Every other record keeps its exact number of occurrences. |
| `StorageService.WithoutTimestampMembers` | entrypoints/services/storageService.ts:43 | A record survives the filter if and only if it was in the history and its timestamp differs. |
| `StorageService.WithoutTimestampAppend` | entrypoints/services/storageService.ts:43 | The filter keeps relative order: filtering `a + b` gives filtered `a` followed by filtered `b`. |
| `StorageService.WithoutAbsentTimestamp` | entrypoints/services/storageService.ts:43 | When no record carries the timestamp, the filter leaves the list unchanged. |
| `StorageService.WithoutTimestampIdempotent` | entrypoints/services/storageService.ts:42-44 | Deleting a timestamp twice is the same as deleting it once. |
| `StorageService.DeleteUndoesSave` | entrypoints/services/storageService.ts:8-44 | Deleting the timestamp of a just-prepended record with a new timestamp gives back the previous history. |
| `Constants.FoldLanguages` | lib/constants.ts:35-41 | The `reduce` fold only adds keys: every starting key is still present. |
| `Constants.FoldLastEntryWins` | lib/constants.ts:35-41 | Later entries overwrite earlier ones: the last entry's code maps to the last entry's name. |
| `Constants.FoldLanguagesKeys` | lib/constants.ts:35-41 | The `reduce` fold's keys are the starting keys plus every listed code. |
| `Constants.FoldLanguagesValues` | lib/constants.ts:35-41 | With distinct codes, the fold maps each listed code to its own entry's name and leaves the other starting keys alone. |
| `Constants.DistinctCodesCount` | lib/constants.ts:8-32 | A list with distinct codes has as many distinct codes as entries. |
| `Constants.LanguagesHaveDistinctCodes` | lib/constants.ts:8-32 | No code appears twice in `LANGUAGES`. |
| `Constants.LanguageMapKeys` | lib/constants.ts:35-41 | The keys of `LANGUAGE_MAP` are exactly the listed codes. |
| `Constants.LanguageMapSize` | lib/constants.ts:35-41 | `LANGUAGE_MAP` has one key per entry of `LANGUAGES`: 23 keys. |
| `Constants.LanguageMapValues` | lib/constants.ts:35-41 | Each listed code maps to its own entry's name in `LANGUAGE_MAP`. |
| `Constants.GetLanguageName` | lib/constants.ts:44-46 | Returns the non-empty name stored under the code when there is one, and otherwise the code itself; it never returns anything else. |
| `Constants.GetLanguageNameListed` | lib/constants.ts:8-46 | For every listed code, the lookup returns that entry's name. |
| `Constants.GetLanguageNameUnlisted` | lib/constants.ts:45 | For a code not in `LANGUAGES`, the lookup returns the code itself. |
| `Constants.GetLanguageNameAsWritten` | lib/constants.ts:35-46 | Reading a plain object also finds the members inherited from `Object.prototype`. An unlisted prototype key gives a non-string; every other code gives the corrected lookup's string. |
| `Constants.CodesAreShort` | lib/constants.ts:8-32 | Every listed code has at most five characters. |
| `Constants.PrototypeKeyEscapesFallback` | lib/constants.ts:40-45 | For every member of `Object.prototype` ("constructor", "toString", ...), the lookup as written returns the inherited member instead of the code. The corrected lookup returns the code itself. |
| `Constants.GetSourceLanguages` | lib/constants.ts:49-51 | The source list is the whole table, 23 entries, with "auto" first. |
| `Constants.WithoutCode` | lib/constants.ts:55 | The filter never lengthens the list, and no remaining entry has the removed code. |
| `Constants.GetTargetLanguages` | lib/constants.ts:54-56 | The target list is `LANGUAGES` without only its first ("auto") entry, in order: 22 entries, none with code "auto". |
| `Text.TrimStart` | entrypoints/components/settings/index.tsx:28 | The leading half of `trim`: a suffix of the input whose dropped part is all whitespace, starting with a non-whitespace character unless empty. |
| `Text.TrimEnd` | entrypoints/components/settings/index.tsx:28 | The trailing half of `trim`: a prefix of the input whose dropped part is all whitespace, ending with a non-whitespace character unless empty. |
| `Text.Trim` | entrypoints/components/settings/index.tsx:28 | `trim` never lengthens its input, and a non-empty result starts and ends with a non-whitespace character. |
| `Text.TrimIsMiddleSlice` | entrypoints/components/settings/index.tsx:28 | `trim` returns a contiguous slice of the input with only whitespace before and after it. |
| `Text.TrimIdempotent` | entrypoints/components/settings/index.tsx:28 | Trimming an already trimmed string changes nothing. |
| `Text.StartsWith` | entrypoints/components/settings/index.tsx:34 | `startsWith` holds exactly when the string is the prefix followed by the rest of the string. |
| `Text.TrimEmptyIffBlank` | entrypoints/components/translator/index.tsx:54 | `!s.trim()` holds exactly when every character of `s` is whitespace. |
| `Text.TrimKeepsSolidPrefix` | entrypoints/components/settings/index.tsx:34-42 | Trimming keeps a prefix that has no whitespace in it, and removes only trailing whitespace after it. |
| `Settings.ValidateApiKey` | entrypoints/components/settings/index.tsx:27-42 | Rejects a blank input with "Please enter a valid API key". Rejects a non-blank input that does not start with `sk-or-v1-` as typed with the prefix error. Otherwise accepts the trimmed input. Each verdict holds if and only if its condition does. |
| `Settings.AcceptedKeyKeepsPrefix` | entrypoints/components/settings/index.tsx:34-42 | An accepted key starts with `sk-or-v1-`, is the input without trailing whitespace, and trimming leaves it unchanged. |
| `Settings.LeadingWhitespaceRejected` | entrypoints/components/settings/index.tsx:34-42 | A key with the prefix but preceded by any whitespace character (`" sk-or-v1-x"`, say) is rejected with the prefix error, although its trimmed form has the prefix. |
| `Settings.SettingsPanel.constructor` | entrypoints/components/settings/index.tsx:8-12 | The panel starts with an empty key, not configured, not saving, the key hidden and no error. |
| `Settings.SettingsPanel.SaveDisabled` | entrypoints/components/settings/index.tsx:132 | The Save button is disabled exactly while saving or while the input is blank. |
| `Settings.SettingsPanel.HandleSaveApiKey` | entrypoints/components/settings/index.tsx:27-51 | A rejected input sets that error, skips `setApiKey` and changes nothing else. An accepted input passes its trimmed form to `setApiKey` with `isSaving` true and the error cleared during the call, and `isSaving` false afterwards. Success sets configured, clears the input and hides the key. Failure sets "Failed to save API key. Please try again." |
| `Settings.SettingsPanel.HandleClearApiKey` | entrypoints/components/settings/index.tsx:53-63 | `clearApiKey` is called only when confirmed. On success, configured becomes false and the error is cleared. On failure, the remove error is set. Without confirmation nothing changes. |
| `Translator.SwapPair` | entrypoints/components/translator/index.tsx:83-88 | The pair is exchanged when the source is not "auto" and left alone when it is. |
| `Translator.SwapTwiceRestores` | entrypoints/components/translator/index.tsx:83-88 | While the target is not "auto", swapping twice restores the original pair. |
| `Translator.TranslatorPanel.constructor` | entrypoints/components/translator/index.tsx:34-39 | The panel starts with empty input and output, source "auto", target "en", not translating and no error; so `Valid` (target never "auto") holds from the start. |
| `Translator.TranslatorPanel.SwapLanguages` | entrypoints/components/translator/index.tsx:83-89 | The new pair is the swapped pair and nothing else changes. The target is never "auto" before or after. |
| `Translator.TranslatorPanel.SwapDisabled` | entrypoints/components/translator/index.tsx:109 | The swap button is disabled exactly when the source is "auto". When it is disabled, a swap is a no-op; when it is enabled, a swap exchanges the two languages. |
| `Translator.TranslatorPanel.TranslateDisabled` | entrypoints/components/translator/index.tsx:148 | The Translate button is disabled exactly while translating or while the input is blank. |
| `Translator.TranslatorPanel.HandleTranslate` | entrypoints/components/translator/index.tsx:53-81 | Blank input sets "Please enter text to translate", skips `translateText` and changes nothing else. Otherwise `translateText` gets the input, target and source verbatim, `isTranslating` is true and the error is "" during the call, `isTranslating` is false afterwards, and the outcome is one of: failure sets "Translation failed. Please try again."; success shows the text and saves the result; a failed save also sets the failure message. |
| `Translator.TranslatorPanel.HandleTranslateAsWritten` | entrypoints/components/translator/index.tsx:53-81 | As written, every non-blank translation clears the error during the call and ends with "Translation failed. Please try again.", even after the text was shown and saved. |
| `Translator.TranslatorPanel.ShownRecord` | entrypoints/components/translator/index.tsx:190-196 | The record holds the panel's current input, output, source and target, and the clock value as timestamp. |
| `Translator.TranslatorPanel.SaveShown` | entrypoints/components/translator/index.tsx:189-197 | The manual save prepends the panel's current input, output, selected source (possibly "auto") and target, stamped with the clock value. A failed save changes nothing. |

## Findings

| source | as written | input that shows it | evidently intended | confidence | as-written member | corrected member |
|---|---|---|---|---|---|---|
| lib/constants.ts:35-45 | `LANGUAGE_MAP[code] \|\| code` reads a plain object, which also finds the members inherited from `Object.prototype` | `getLanguageName("constructor")` returns the `Object` function, not a string | an unlisted code falls back to the code itself | not executed; follows from JavaScript property lookup | `Constants.GetLanguageNameAsWritten` (exhibited by `Constants.PrototypeKeyEscapesFallback`) | `Constants.GetLanguageName` (`Constants.GetLanguageNameUnlisted`) |
| entrypoints/components/translator/index.tsx:40-74 | after a successful save, the `try` block calls `setHistory`, whose declaration is commented out, so a `ReferenceError` lands in the `catch` | input "hello", a well-formed reply and a working store: the text is shown and saved, and the error reads "Translation failed. Please try again." | no error after a successful translation and save | not executed; assumes the bundle is built without type checking and the credential exports exist | `Translator.TranslatorPanel.HandleTranslateAsWritten` (exhibited by `Translator.SuccessfulTranslationReportsFailure`) | `Translator.TranslatorPanel.HandleTranslate` |

## Left out

- The network request (`fetch`, URL building with `encodeURIComponent`, `response.json()`) is left out. The decoded reply is a parameter, and `None` stands for any throw before parsing.
- The JSON reply is abstracted. A segment is an array whose element 0 is a string or missing, or a `null` item on which `item[0]` throws. Non-string first elements, which `join` would stringify, and string items, whose `item[0]` is their first character, are not modelled. `data[2]` is a string or absent.
- `Date.now()` is left out: the timestamp is a parameter.
- `browser.storage.local` is left out: the stored value is the field `HistoryStore.stored`, and read and write failures are parameters. The non-atomic read-modify-write race between concurrent callers is not modelled, because it needs concurrency.
- `setApiKey`, `clearApiKey` and `isApiKeyConfigured` are left out. They are imported from `translationService.ts`, but that file does not define them. Their success or failure is a parameter, and the settings panel's mount-time configured check is not modelled.
- The `confirm` dialog is left out: its answer is a parameter.
- The translator's history state is left out: its load on mount, and `setHistory` and `history` at lines 44-51 and 74. Its effect on the handler's error is recorded under Findings.
- Also left out from the translator: the debug "11111" suffix, the clipboard copy, the text and selector change handlers, the panel's own 8-entry language list for the selectors, and all rendering.
- `HandleTranslate` runs as one uninterrupted step. Other events that could arrive while it awaits are not modelled; the Translate button is disabled during that time.
- `HandleSaveApiKey` and `HandleClearApiKey` also run as one uninterrupted step each. The key input's change handler, which could fire while `setApiKey` or `clearApiKey` is awaited, is not modelled.
- Also left out from the settings panel: the key input's change handler, the show/hide toggle and rendering.
- The unused `TranslationResponse` interface carries no logic. `TN_API_TOKEN` is a constant with no logic attached.
- The tab switching, theme listener, side-panel opening, model selector, `Selector` widget and build configuration are left out. They are interface plumbing with no rule the core uses.
- `console.error` logging is left out.
