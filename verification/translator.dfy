/** The alphabet tests and the field-name mapping of backend/translator.py.
    Which characters are alphabetic (`str.isalpha`, from the Unicode database)
    and what the external translation service answers are parameters. */
module Translator {
  import opened Wrappers

  /** `min()` of an empty set raises: the text has no alphabetic character. */
  datatype TranslateError = NoLetters

  /** Code points of the Russian alphabet test: 'А' (1040) to 'я' (1103). */
  const RussianLow: int := 1040
  const RussianHigh: int := 1103
  /** Code points of the English alphabet test: 'A' (65) to 'z' (122). */
  const EnglishLow: int := 65
  const EnglishHigh: int := 122

  /** Every alphabetic character of `text` has a code point in `lo`..`hi`. */
  ghost predicate AllLettersIn(text: string, isAlpha: char -> bool, lo: int, hi: int)
  {
    forall i :: 0 <= i < |text| && isAlpha(text[i]) ==> lo <= text[i] as int <= hi
  }

  ghost predicate HasLetter(text: string, isAlpha: char -> bool)
  {
    exists i :: 0 <= i < |text| && isAlpha(text[i])
  }

  /** `(min(ord_text), max(ord_text))` over the alphabetic characters, if any. */
  function LetterBounds(text: string, isAlpha: char -> bool): (r: Option<(int, int)>)
    ensures r.None? <==> !HasLetter(text, isAlpha)
    ensures r.Some? ==> AllLettersIn(text, isAlpha, r.value.0, r.value.1)
    ensures r.Some? ==> exists i :: 0 <= i < |text| && isAlpha(text[i]) && text[i] as int == r.value.0
    ensures r.Some? ==> exists i :: 0 <= i < |text| && isAlpha(text[i]) && text[i] as int == r.value.1
    decreases |text|
  {
    if |text| == 0 then None
    else
      var rest := LetterBounds(text[1..], isAlpha);
      assert forall i :: 1 <= i < |text| ==> text[i] == text[1..][i - 1];
      var c := text[0] as int;
      if !isAlpha(text[0]) then
        assert rest.None? ==> !HasLetter(text, isAlpha);
        if rest.Some? then
          var lo, hi := rest.value.0, rest.value.1;
          ghost var a :| 0 <= a < |text[1..]| && isAlpha(text[1..][a]) && text[1..][a] as int == lo;
          ghost var b :| 0 <= b < |text[1..]| && isAlpha(text[1..][b]) && text[1..][b] as int == hi;
          assert text[a + 1] == text[1..][a] && text[b + 1] == text[1..][b];
          rest
        else rest
      else if rest.None? then
        Some((c, c))
      else
        var lo, hi := rest.value.0, rest.value.1;
        ghost var a :| 0 <= a < |text[1..]| && isAlpha(text[1..][a]) && text[1..][a] as int == lo;
        ghost var b :| 0 <= b < |text[1..]| && isAlpha(text[1..][b]) && text[1..][b] as int == hi;
        assert text[a + 1] == text[1..][a] && text[b + 1] == text[1..][b];
        Some((if c < lo then c else lo, if c > hi then c else hi))
  }

  /** `lo <= min(ord_text) and max(ord_text) <= hi`. */
  function InAlphabet(text: string, isAlpha: char -> bool, lo: int, hi: int): (r: Result<bool, TranslateError>)
    ensures r.Err? <==> !HasLetter(text, isAlpha)
    ensures r.Ok? ==> (r.value <==> AllLettersIn(text, isAlpha, lo, hi))
  {
    match LetterBounds(text, isAlpha)
    case None => Err(NoLetters)
    case Some(bounds) =>
      ghost var a :| 0 <= a < |text| && isAlpha(text[a]) && text[a] as int == bounds.0;
      ghost var b :| 0 <= b < |text| && isAlpha(text[b]) && text[b] as int == bounds.1;
      Ok(lo <= bounds.0 && bounds.1 <= hi)
  }

  /** `translat_text_ru_en`: Russian text goes to the translator, anything else is returned as is. */
  function TranslateRuEn(text: string, isAlpha: char -> bool, translate: string -> string): (r: Result<string, TranslateError>)
    ensures r.Err? <==> !HasLetter(text, isAlpha)
    ensures r.Ok? && AllLettersIn(text, isAlpha, RussianLow, RussianHigh) ==> r.value == translate(text)
    ensures r.Ok? && !AllLettersIn(text, isAlpha, RussianLow, RussianHigh) ==> r.value == text
  {
    match InAlphabet(text, isAlpha, RussianLow, RussianHigh)
    case Err(e) => Err(e)
    case Ok(russian) => Ok(if russian then translate(text) else text)
  }

  /** `translat_text_en_ru`: text whose letters all lie in 'A'..'z' goes to the
      translator, anything else is returned as is. */
  function TranslateEnRu(text: string, isAlpha: char -> bool, translate: string -> string): (r: Result<string, TranslateError>)
    ensures r.Err? <==> !HasLetter(text, isAlpha)
    ensures r.Ok? && AllLettersIn(text, isAlpha, EnglishLow, EnglishHigh) ==> r.value == translate(text)
    ensures r.Ok? && !AllLettersIn(text, isAlpha, EnglishLow, EnglishHigh) ==> r.value == text
  {
    match InAlphabet(text, isAlpha, EnglishLow, EnglishHigh)
    case Err(e) => Err(e)
    case Ok(english) => Ok(if english then translate(text) else text)
  }

  /** `key in text`: `key` occurs in `text` at position `i`. */
  ghost predicate OccursAt(key: string, text: string, i: int)
  {
    0 <= i && i + |key| <= |text| && text[i..i + |key|] == key
  }

  ghost predicate Occurs(key: string, text: string)
  {
    exists i :: OccursAt(key, text, i)
  }

  /** Substring search. */
  function Contains(text: string, key: string): (r: bool)
    ensures r <==> Occurs(key, text)
    decreases |text|
  {
    if |key| <= |text| && text[..|key|] == key then
      assert OccursAt(key, text, 0);
      true
    else if |text| == 0 then
      assert forall i :: !OccursAt(key, text, i);
      false
    else
      var rest := Contains(text[1..], key);
      assert forall i :: OccursAt(key, text[1..], i) ==> OccursAt(key, text, i + 1) by {
        forall i | OccursAt(key, text[1..], i) ensures OccursAt(key, text, i + 1) {
          assert text[1..][i..i + |key|] == text[i + 1..i + 1 + |key|];
        }
      }
      assert forall i :: OccursAt(key, text, i) && i >= 1 ==> OccursAt(key, text[1..], i - 1) by {
        forall i | OccursAt(key, text, i) && i >= 1 ensures OccursAt(key, text[1..], i - 1) {
          assert text[1..][i - 1..i - 1 + |key|] == text[i..i + |key|];
        }
      }
      rest
  }

  /** The `fields_value` dictionary, in insertion order. */
  const FieldsValue: seq<(string, string)> := [
    ("Диагональ (дюйм)", "Screen Size (inches)"),
    ("Разрешение (пикс)", "Resolution (pixels)"),
    ("Встроенная память (Гб)", "Internal Memory (GB)"),
    ("Цвет", "Color"),
    ("Умный", "Smart TV"),
    ("Ёмкость", "Capacity (GB)")
  ]

  /** The value of the first entry, in order, whose key occurs in `text`. */
  function FirstKeyIn(entries: seq<(string, string)>, text: string): (r: Option<string>)
    ensures r.None? <==> forall i :: 0 <= i < |entries| ==> !Occurs(entries[i].0, text)
    ensures r.Some? ==> exists i :: 0 <= i < |entries| && Occurs(entries[i].0, text) && entries[i].1 == r.value
                                  && forall j :: 0 <= j < i ==> !Occurs(entries[j].0, text)
    decreases |entries|
  {
    if |entries| == 0 then None
    else if Contains(text, entries[0].0) then Some(entries[0].1)
    else
      var rest := FirstKeyIn(entries[1..], text);
      assert forall i :: 1 <= i < |entries| ==> entries[i] == entries[1..][i - 1];
      if rest.Some? then
        ghost var k :| 0 <= k < |entries[1..]| && Occurs(entries[1..][k].0, text) && entries[1..][k].1 == rest.value
                       && forall j :: 0 <= j < k ==> !Occurs(entries[1..][j].0, text);
        assert entries[k + 1] == entries[1..][k];
        rest
      else rest
  }

  /** `translator_key`: for Russian text, the English name of the first field
      whose Russian name occurs in it, or `None` when none does; other text is
      returned unchanged. */
  function TranslatorKey(text: string, isAlpha: char -> bool): (r: Result<Option<string>, TranslateError>)
    ensures r.Err? <==> !HasLetter(text, isAlpha)
    ensures r.Ok? && !AllLettersIn(text, isAlpha, RussianLow, RussianHigh) ==> r.value == Some(text)
    ensures r.Ok? && AllLettersIn(text, isAlpha, RussianLow, RussianHigh) ==> r.value == FirstKeyIn(FieldsValue, text)
  {
    match InAlphabet(text, isAlpha, RussianLow, RussianHigh)
    case Err(e) => Err(e)
    case Ok(russian) => Ok(if russian then FirstKeyIn(FieldsValue, text) else Some(text))
  }

  /** Russian text that names no field yields `None`: the lookup falls off the end. */
  lemma NoFieldGivesNone(text: string, isAlpha: char -> bool)
    requires HasLetter(text, isAlpha) && AllLettersIn(text, isAlpha, RussianLow, RussianHigh)
    requires forall i :: 0 <= i < |FieldsValue| ==> !Occurs(FieldsValue[i].0, text)
    ensures TranslatorKey(text, isAlpha) == Ok(None)
  {
  }

  /** 'Ё' is code point 1025, below the Russian range, so Russian text never
      contains the "Ёмкость" key and never maps to "Capacity (GB)". */
  lemma CapacityNeverMatched(text: string, isAlpha: char -> bool)
    requires isAlpha('Ё')
    requires AllLettersIn(text, isAlpha, RussianLow, RussianHigh)
    ensures TranslatorKey(text, isAlpha) != Ok(Some("Capacity (GB)"))
  {
    var key := FieldsValue[5].0;
    assert key[0] == 'Ё' && 'Ё' as int == 1025;
    assert !Occurs(key, text);
    var r := TranslatorKey(text, isAlpha);
    if r.Ok? && r.value.Some? {
      var k :| 0 <= k < |FieldsValue| && Occurs(FieldsValue[k].0, text) && FieldsValue[k].1 == r.value.value;
      assert k != 5;
    }
  }

  /** The Russian range widened to take in 'Ё' (1025) and 'ё' (1105). */
  const RussianLowWithYo: int := 1025
  const RussianHighWithYo: int := 1105

  /** `translator_key` as evidently intended: the Russian test admits 'Ё' and 'ё'. */
  function TranslatorKeyWithYo(text: string, isAlpha: char -> bool): (r: Result<Option<string>, TranslateError>)
    ensures r.Err? <==> !HasLetter(text, isAlpha)
    ensures r.Ok? && !AllLettersIn(text, isAlpha, RussianLowWithYo, RussianHighWithYo) ==> r.value == Some(text)
    ensures r.Ok? && AllLettersIn(text, isAlpha, RussianLowWithYo, RussianHighWithYo) ==> r.value == FirstKeyIn(FieldsValue, text)
  {
    match InAlphabet(text, isAlpha, RussianLowWithYo, RussianHighWithYo)
    case Err(e) => Err(e)
    case Ok(russian) => Ok(if russian then FirstKeyIn(FieldsValue, text) else Some(text))
  }

  /** A key whose first character is absent from the text does not occur in it. */
  lemma FirstCharAbsent(key: string, text: string)
    requires |key| > 0
    requires forall i :: 0 <= i < |text| ==> text[i] != key[0]
    ensures !Occurs(key, text)
  {
    if i :| OccursAt(key, text, i) {
      assert text[i] == text[i..i + |key|][0];
    }
  }

  /** Of all field names, "Ёмкость" itself matches only its own entry. */
  lemma CapacityKeyFound()
    ensures FirstKeyIn(FieldsValue, "Ёмкость") == Some("Capacity (GB)")
  {
    var text := "Ёмкость";
    assert OccursAt(FieldsValue[5].0, text, 0);
    FirstCharAbsent(FieldsValue[0].0, text);
    FirstCharAbsent(FieldsValue[1].0, text);
    FirstCharAbsent(FieldsValue[2].0, text);
    FirstCharAbsent(FieldsValue[3].0, text);
    FirstCharAbsent(FieldsValue[4].0, text);
    var r := FirstKeyIn(FieldsValue, text);
    var k :| 0 <= k < |FieldsValue| && Occurs(FieldsValue[k].0, text) && FieldsValue[k].1 == r.value
             && forall j :: 0 <= j < k ==> !Occurs(FieldsValue[j].0, text);
    assert k == 5;
  }

  /** The field name "Ёмкость" comes back unchanged from `translator_key`, so
      comparing it with "Capacity (GB)" fails; the widened test maps it. */
  lemma CapacityMappedWithYo(isAlpha: char -> bool)
    requires isAlpha('Ё')
    ensures TranslatorKey("Ёмкость", isAlpha) == Ok(Some("Ёмкость"))
    ensures TranslatorKeyWithYo("Ёмкость", isAlpha) == Ok(Some("Capacity (GB)"))
  {
    var text := "Ёмкость";
    assert isAlpha(text[0]) && text[0] as int == 1025;
    assert HasLetter(text, isAlpha);
    assert !AllLettersIn(text, isAlpha, RussianLow, RussianHigh);
    assert AllLettersIn(text, isAlpha, RussianLowWithYo, RussianHighWithYo) by {
      forall i | 0 <= i < |text| ensures RussianLowWithYo <= text[i] as int <= RussianHighWithYo {
        assert text[i] in "Ёмкость";
      }
    }
    CapacityKeyFound();
  }
}
