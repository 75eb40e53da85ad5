/** The static language table of `lib/constants.ts`: the selectable languages, the
    code-to-name map folded from them, the name lookup with its fallback to the raw code,
    and the source and target lists. */
module Constants {
  datatype Language = Language(code: string, name: string)

  /** The source-language sentinel meaning "detect automatically". */
  const AUTO: string := "auto"

  /** Declared and exported; nothing reads it. */
  const TN_API_TOKEN: string := "TN_API_TOKEN"

  const LANGUAGES: seq<Language> := [
    Language("auto", "Detect Language"),
    Language("en", "English"),
    Language("zh-CN", "Chinese (Simplified)"),
    Language("zh-TW", "Chinese (Traditional)"),
    Language("ja", "Japanese"),
    Language("ko", "Korean"),
    Language("fr", "French"),
    Language("de", "German"),
    Language("es", "Spanish"),
    Language("ru", "Russian"),
    Language("ar", "Arabic"),
    Language("hi", "Hindi"),
    Language("pt", "Portuguese"),
    Language("it", "Italian"),
    Language("nl", "Dutch"),
    Language("th", "Thai"),
    Language("vi", "Vietnamese"),
    Language("tr", "Turkish"),
    Language("pl", "Polish"),
    Language("sv", "Swedish"),
    Language("da", "Danish"),
    Language("no", "Norwegian"),
    Language("fi", "Finnish")
  ]

  /** The set of codes listed in `langs`. */
  ghost function Codes(langs: seq<Language>): set<string> {
    set i | 0 <= i < |langs| :: langs[i].code
  }

  /** No code is listed twice. */
  ghost predicate DistinctCodes(langs: seq<Language>) {
    forall i, j :: 0 <= i < j < |langs| ==> langs[i].code != langs[j].code
  }

  /** The `reduce` callback folded left to right over `langs`: each entry writes its
      name under its code, so a later entry overwrites an earlier one with the same code. */
  function FoldLanguages(acc: map<string, string>, langs: seq<Language>): (m: map<string, string>)
    ensures acc.Keys <= m.Keys
    decreases |langs|
  {
    if |langs| == 0 then acc
    else FoldLanguages(acc[langs[0].code := langs[0].name], langs[1..])
  }

  /** A later entry overwrites an earlier one: the last entry's code always ends up
      mapped to the last entry's name, whatever came before. */
  lemma {:induction false} FoldLastEntryWins(acc: map<string, string>, langs: seq<Language>)
    requires |langs| > 0
    ensures langs[|langs| - 1].code in FoldLanguages(acc, langs)
    ensures FoldLanguages(acc, langs)[langs[|langs| - 1].code] == langs[|langs| - 1].name
    decreases |langs|
  {
    if |langs| > 1 {
      FoldLastEntryWins(acc[langs[0].code := langs[0].name], langs[1..]);
    }
  }

  /** `LANGUAGE_MAP`: the fold started from the empty record. */
  const LANGUAGE_MAP: map<string, string> := FoldLanguages(map[], LANGUAGES)

  /** The codes of a non-empty list: its head's code and the codes of its tail. */
  lemma CodesOfCons(langs: seq<Language>)
    requires |langs| > 0
    ensures Codes(langs) == {langs[0].code} + Codes(langs[1..])
  {
    forall c | c in Codes(langs) ensures c in {langs[0].code} + Codes(langs[1..]) {
      var i :| 0 <= i < |langs| && langs[i].code == c;
      if i > 0 { assert langs[1..][i - 1].code == c; }
    }
    forall c | c in Codes(langs[1..]) ensures c in Codes(langs) {
      var i :| 0 <= i < |langs[1..]| && langs[1..][i].code == c;
      assert langs[i + 1].code == c;
    }
  }

  /** With distinct codes, the head's code is not among the tail's. */
  lemma HeadCodeNotInTail(langs: seq<Language>)
    requires |langs| > 0 && DistinctCodes(langs)
    ensures langs[0].code !in Codes(langs[1..])
  {
    forall j | 0 <= j < |langs| - 1 ensures langs[1..][j].code != langs[0].code {
      assert langs[1..][j] == langs[j + 1];
    }
  }

  /** The fold's keys are the starting keys plus every listed code. */
  lemma {:induction false} FoldLanguagesKeys(acc: map<string, string>, langs: seq<Language>)
    ensures FoldLanguages(acc, langs).Keys == acc.Keys + Codes(langs)
    decreases |langs|
  {
    if |langs| > 0 {
      FoldLanguagesKeys(acc[langs[0].code := langs[0].name], langs[1..]);
      CodesOfCons(langs);
    }
  }

  /** With distinct codes, the fold maps each listed code to its entry's name, and
      leaves the other starting keys as they were. */
  lemma {:induction false} FoldLanguagesValues(acc: map<string, string>, langs: seq<Language>)
    requires DistinctCodes(langs)
    ensures forall i :: 0 <= i < |langs| ==>
              langs[i].code in FoldLanguages(acc, langs) && FoldLanguages(acc, langs)[langs[i].code] == langs[i].name
    ensures forall c :: c in acc && c !in Codes(langs) ==>
              c in FoldLanguages(acc, langs) && FoldLanguages(acc, langs)[c] == acc[c]
    decreases |langs|
  {
    if |langs| > 0 {
      var acc' := acc[langs[0].code := langs[0].name];
      var rest := langs[1..];
      assert DistinctCodes(rest) by {
        forall i, j | 0 <= i < j < |rest| ensures rest[i].code != rest[j].code {
          assert rest[i] == langs[i + 1] && rest[j] == langs[j + 1];
        }
      }
      FoldLanguagesValues(acc', rest);
      CodesOfCons(langs);
      HeadCodeNotInTail(langs);
      var m := FoldLanguages(acc', rest);
      forall i | 1 <= i < |langs|
        ensures langs[i].code in m && m[langs[i].code] == langs[i].name
      {
        assert rest[i - 1] == langs[i];
      }
    }
  }

  /** Distinct codes are as many as the entries. */
  lemma {:induction false} DistinctCodesCount(langs: seq<Language>)
    requires DistinctCodes(langs)
    ensures |Codes(langs)| == |langs|
    decreases |langs|
  {
    if |langs| > 0 {
      var rest := langs[1..];
      assert DistinctCodes(rest) by {
        forall i, j | 0 <= i < j < |rest| ensures rest[i].code != rest[j].code {
          assert rest[i] == langs[i + 1] && rest[j] == langs[j + 1];
        }
      }
      DistinctCodesCount(rest);
      CodesOfCons(langs);
      HeadCodeNotInTail(langs);
    }
  }

  /** The code in row `j` differs from every code above it. */
  lemma CodeDiffersFromEarlier(j: nat)
    requires j < |LANGUAGES|
    ensures forall i :: 0 <= i < j ==> LANGUAGES[i].code != LANGUAGES[j].code
  {
  }

  lemma LanguagesHaveDistinctCodes()
    ensures DistinctCodes(LANGUAGES)
  {
    forall j | 0 <= j < |LANGUAGES|
      ensures forall i :: 0 <= i < j ==> LANGUAGES[i].code != LANGUAGES[j].code
    {
      CodeDiffersFromEarlier(j);
    }
  }

  /** The keys of `LANGUAGE_MAP` are the listed codes. */
  lemma LanguageMapKeys()
    ensures LANGUAGE_MAP.Keys == Codes(LANGUAGES)
  {
    FoldLanguagesKeys(map[], LANGUAGES);
  }

  /** `LANGUAGE_MAP` has exactly one key per entry of `LANGUAGES`. */
  lemma LanguageMapSize()
    ensures |LANGUAGE_MAP| == |LANGUAGES| == 23
  {
    LanguageMapKeys();
    LanguagesHaveDistinctCodes();
    DistinctCodesCount(LANGUAGES);
  }

  /** Each listed code maps to its own entry's name in `LANGUAGE_MAP`. */
  lemma LanguageMapValues()
    ensures forall i :: 0 <= i < |LANGUAGES| ==>
              LANGUAGES[i].code in LANGUAGE_MAP && LANGUAGE_MAP[LANGUAGES[i].code] == LANGUAGES[i].name
  {
    LanguagesHaveDistinctCodes();
    FoldLanguagesValues(map[], LANGUAGES);
  }

  /** No listed name is empty, so `||` never falls back for a listed code. */
  lemma NamesNonEmpty()
    ensures forall i :: 0 <= i < |LANGUAGES| ==> LANGUAGES[i].name != ""
  {
  }

  /** `getLanguageName`: the name stored under `code`, falling back to `code` itself when
      there is none (or it is empty, which `||` treats as missing). The lookup consults
      the map's own keys only; see `GetLanguageNameAsWritten` for the source's
      plain-object lookup. */
  function GetLanguageName(code: string): (name: string)
    ensures code !in LANGUAGE_MAP ==> name == code
    ensures name == code || (code in LANGUAGE_MAP && name == LANGUAGE_MAP[code])
    ensures code in LANGUAGE_MAP && LANGUAGE_MAP[code] != "" ==> name == LANGUAGE_MAP[code]
  {
    if code in LANGUAGE_MAP && LANGUAGE_MAP[code] != "" then LANGUAGE_MAP[code] else code
  }

  /** For every listed code, the lookup returns that entry's name. */
  lemma GetLanguageNameListed(i: nat)
    requires i < |LANGUAGES|
    ensures GetLanguageName(LANGUAGES[i].code) == LANGUAGES[i].name
  {
    LanguageMapValues();
    NamesNonEmpty();
  }

  /** For a code not in the table, the lookup returns the code itself. */
  lemma GetLanguageNameUnlisted(code: string)
    requires forall i :: 0 <= i < |LANGUAGES| ==> LANGUAGES[i].code != code
    ensures GetLanguageName(code) == code
  {
    FoldLanguagesKeys(map[], LANGUAGES);
  }

  /** The properties every plain JavaScript object inherits from `Object.prototype`;
      reading one of them from a record that lacks it as an own key yields a function
      (or, for `__proto__`, the prototype object), never `undefined`. */
  const OBJECT_PROTOTYPE_KEYS: set<string> := {
    "constructor", "hasOwnProperty", "isPrototypeOf", "propertyIsEnumerable",
    "toLocaleString", "toString", "valueOf", "__proto__",
    "__defineGetter__", "__defineSetter__", "__lookupGetter__", "__lookupSetter__"
  }

  /** A JavaScript value read from `LANGUAGE_MAP`: a string, or an inherited non-string
      member of `Object.prototype` (truthy, so `||` keeps it). */
  datatype LookupValue = Text(s: string) | PrototypeMember(key: string)

  /** `getLanguageName` as written: `LANGUAGE_MAP[code] || code` on a plain object, whose
      property read also finds the inherited members of `Object.prototype`. */
  function GetLanguageNameAsWritten(code: string): (v: LookupValue)
    ensures code in OBJECT_PROTOTYPE_KEYS && code !in LANGUAGE_MAP ==> v == PrototypeMember(code)
    ensures code !in OBJECT_PROTOTYPE_KEYS ==> v == Text(GetLanguageName(code))
  {
    if code in LANGUAGE_MAP && LANGUAGE_MAP[code] != "" then Text(LANGUAGE_MAP[code])
    else if code !in LANGUAGE_MAP && code in OBJECT_PROTOTYPE_KEYS then PrototypeMember(code)
    else Text(code)
  }

  /** Every listed code is at most five characters long. */
  lemma CodesAreShort()
    ensures forall i :: 0 <= i < |LANGUAGES| ==> |LANGUAGES[i].code| <= 5
  {
  }

  /** For every member of `Object.prototype` ("constructor", say), the source's lookup
      returns the inherited member, where its declared `string` result and the fallback
      rule call for the code itself, which the corrected lookup returns. */
  lemma PrototypeKeyEscapesFallback(code: string)
    requires code in OBJECT_PROTOTYPE_KEYS
    ensures GetLanguageNameAsWritten(code) == PrototypeMember(code)
    ensures GetLanguageName(code) == code
  {
    assert |code| > 5;
    CodesAreShort();
    GetLanguageNameUnlisted(code);
    LanguageMapKeys();
  }

  /** `getSourceLanguages`: the whole table, auto-detect first. */
  function GetSourceLanguages(): (langs: seq<Language>)
    ensures |langs| == 23 && langs[0].code == AUTO
    ensures forall i :: 0 <= i < |langs| ==> langs[i] == LANGUAGES[i]
  {
    LANGUAGES
  }

  /** `langs.filter(lang => lang.code !== code)`. */
  function WithoutCode(langs: seq<Language>, code: string): (r: seq<Language>)
    ensures |r| <= |langs|
    ensures forall i :: 0 <= i < |r| ==> r[i].code != code
  {
    if |langs| == 0 then []
    else if langs[0].code != code then [langs[0]] + WithoutCode(langs[1..], code)
    else WithoutCode(langs[1..], code)
  }

  /** Filtering out a code that only the first entry has leaves the rest, in order. */
  lemma {:induction false} WithoutCodeOfHead(langs: seq<Language>, code: string)
    requires |langs| > 0 && langs[0].code == code
    requires forall i :: 1 <= i < |langs| ==> langs[i].code != code
    ensures WithoutCode(langs, code) == langs[1..]
  {
    WithoutAbsentCode(langs[1..], code);
  }

  /** Filtering out a code no entry has changes nothing. */
  lemma {:induction false} WithoutAbsentCode(langs: seq<Language>, code: string)
    requires forall i :: 0 <= i < |langs| ==> langs[i].code != code
    ensures WithoutCode(langs, code) == langs
    decreases |langs|
  {
    if |langs| > 0 {
      assert langs[0].code != code;
      WithoutAbsentCode(langs[1..], code);
    }
  }

  /** `getTargetLanguages`: the table without auto-detect. */
  function GetTargetLanguages(): (langs: seq<Language>)
    ensures langs == LANGUAGES[1..]
    ensures |langs| == 22
    ensures forall i :: 0 <= i < |langs| ==> langs[i].code != AUTO
  {
    LanguagesHaveDistinctCodes();
    WithoutCodeOfHead(LANGUAGES, AUTO);
    WithoutCode(LANGUAGES, AUTO)
  }
}
