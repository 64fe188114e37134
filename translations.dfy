/**
  The translations table of src/translations/translations.ts: one
  dictionary per language, merged into on `add`, read for the current
  language with a fall back to 'en-us', and `Default@@key` strings.
  Formatting with arguments (`format`, `encodeHTML`) is not modelled.
*/
module Translations {
  import opened Wrappers

  type Dictionary = map<string, string>

  /** Whether "@@" starts at index `i` of `s`. */
  predicate SeparatorStarts(s: string, i: int)
  {
    0 <= i && i + 2 <= |s| && s[i] == '@' && s[i + 1] == '@'
  }

  /** The first index at or after `from` where "@@" starts, if any. */
  function SeparatorAt(s: string, from: nat): (r: Option<nat>)
    requires from <= |s|
    ensures r.Some? ==> from <= r.value && SeparatorStarts(s, r.value)
    ensures r.Some? ==> forall i :: from <= i < r.value ==> !SeparatorStarts(s, i)
    ensures r.None? ==> forall i :: from <= i ==> !SeparatorStarts(s, i)
    decreases |s| - from
  {
    if from + 2 > |s| then None
    else if s[from] == '@' && s[from + 1] == '@' then Some(from)
    else SeparatorAt(s, from + 1)
  }

  /**
    `let [defaultValue, id] = key.split('@@')`: the text before the first
    "@@", and the text between it and the next "@@" (or the end); no id
    when there is no "@@".
  */
  function SplitKey(key: string): (r: (string, Option<string>))
    ensures SeparatorAt(key, 0).None? ==> r == (key, None)
    ensures SeparatorAt(key, 0).Some? ==>
      var i := SeparatorAt(key, 0).value;
      && r.0 == key[..i] && r.1.Some? && r.1.value <= key[i + 2..]
      && SeparatorAt(r.1.value, 0).None?
      && (SeparatorAt(key[i + 2..], 0).None? ==> r.1.value == key[i + 2..])
  {
    match SeparatorAt(key, 0)
    case None => (key, None)
    case Some(i) =>
      var rest := key[i + 2..];
      match SeparatorAt(rest, 0)
      case None => (key[..i], Some(rest))
      case Some(j) =>
        assert forall k :: 0 <= k ==> SeparatorStarts(rest[..j], k) ==> SeparatorStarts(rest, k);
        (key[..i], Some(rest[..j]))
  }

  /** Joining a default text and an id with "@@" and splitting again gives them back. */
  lemma SplitOfJoined(text: string, id: string)
    requires SeparatorAt(text, 0).None? && SeparatorAt(id, 0).None?
    requires |text| == 0 || text[|text| - 1] != '@'
    requires |id| == 0 || id[0] != '@'
    ensures SplitKey(text + "@@" + id) == (text, Some(id))
  {
    var key := text + "@@" + id;
    assert SeparatorStarts(key, |text|);
    forall k | 0 <= k < |text|
      ensures !SeparatorStarts(key, k)
    {
      if k + 2 <= |text| {
        assert !SeparatorStarts(text, k);
      } else {
        assert key[k] == text[|text| - 1];
      }
    }
    assert SeparatorAt(key, 0) == Some(|text|) by {
      SeparatorFound(key, 0, |text|);
    }
    var rest := key[|text| + 2..];
    assert rest == id;
    assert key[..|text|] == text;
  }

  lemma {:induction false} SeparatorFound(s: string, from: nat, i: nat)
    requires from <= i && SeparatorStarts(s, i)
    requires forall k :: from <= k < i ==> !SeparatorStarts(s, k)
    ensures SeparatorAt(s, from) == Some(i)
    decreases i - from
  {
    if from < i {
      assert !SeparatorStarts(s, from);
      SeparatorFound(s, from + 1, i);
    }
  }

  /** `translateQuoteToBold`'s `.` does not match line terminators. */
  predicate LineTerminator(c: char)
  {
    c == '\n' || c == '\r' || c == '\U{2028}' || c == '\U{2029}'
  }

  /**
    The index of the quote closing a quote at s[0]: the first quote after
    at least one character, with no line terminator before it (the lazy
    match of `"(.+?)"`).
  */
  function ClosingQuote(s: string, k: nat): (r: Option<nat>)
    requires 1 <= k <= |s|
    ensures r.Some? ==> 2 <= r.value < |s| && s[r.value] == '"' && k <= r.value
    ensures r.Some? ==> forall i :: k <= i < r.value ==> !LineTerminator(s[i]) && (i >= 2 ==> s[i] != '"')
    decreases |s| - k
  {
    if k == |s| || LineTerminator(s[k]) then None
    else if s[k] == '"' && k >= 2 then Some(k)
    else ClosingQuote(s, k + 1)
  }

  /** `value.replace(/"(.+?)"/g, '<b>$1</b>')`. */
  function Bold(s: string): string
    decreases |s|
  {
    if s == [] then []
    else if s[0] == '"' && ClosingQuote(s, 1).Some? then
      var j := ClosingQuote(s, 1).value;
      "<b>" + s[1..j] + "</b>" + Bold(s[j + 1..])
    else [s[0]] + Bold(s[1..])
  }

  /** One quoted span becomes bold text. */
  lemma {:induction false} BoldOfQuoted(text: string, after: string)
    requires text != [] && '"' !in text && forall i :: 0 <= i < |text| ==> !LineTerminator(text[i])
    ensures Bold("\"" + text + "\"" + after) == "<b>" + text + "</b>" + Bold(after)
  {
    var s := "\"" + text + "\"" + after;
    var j := |text| + 1;
    assert s[j] == '"';
    ClosingQuoteFinds(s, 1, j);
    assert s[1..j] == text;
    assert s[j + 1..] == after;
  }

  lemma {:induction false} ClosingQuoteFinds(s: string, k: nat, j: nat)
    requires 1 <= k <= j < |s| && 2 <= j && s[j] == '"'
    requires forall i :: k <= i < j ==> !LineTerminator(s[i]) && s[i] != '"'
    requires !LineTerminator(s[j])
    ensures ClosingQuote(s, k) == Some(j)
    decreases j - k
  {
    if k < j {
      ClosingQuoteFinds(s, k + 1, j);
    }
  }

  /** A string without quotes is left alone. */
  lemma BoldOfPlain(s: string)
    requires '"' !in s
    ensures Bold(s) == s
  {
    BoldKeepsPlainPrefix(s, []);
    assert s + [] == s;
  }

  /** Text before the first quote is kept as it is. */
  lemma {:induction false} BoldKeepsPlainPrefix(plain: string, rest: string)
    requires '"' !in plain
    ensures Bold(plain + rest) == plain + Bold(rest)
  {
    if plain != [] {
      var s := plain + rest;
      assert s[0] == plain[0] && s[0] != '"';
      assert s[1..] == plain[1..] + rest;
      assert Bold(s) == [plain[0]] + Bold(plain[1..] + rest);
      BoldKeepsPlainPrefix(plain[1..], rest);
      assert plain == [plain[0]] + plain[1..];
    } else {
      assert plain + rest == rest;
    }
  }

  /** The translations table. */
  class Translations {
    var language: string
    var data: map<string, Dictionary>

    /** A new table: language 'en-us', with an empty 'en-us' dictionary. */
    constructor()
      ensures language == "en-us" && data == map["en-us" := map[]]
      ensures Valid()
    {
      language := "en-us";
      data := map["en-us" := map[]];
    }

    /** The fall back language always has a dictionary. */
    ghost predicate Valid()
      reads this
    {
      "en-us" in data
    }

    /** `setLanguage`. */
    method SetLanguage(newLanguage: string)
      modifies this
      ensures language == newLanguage && data == old(data)
    {
      language := newLanguage;
    }

    /** `add`: merges pieces into a language's dictionary, creating it if missing; later pieces win. */
    method Add(lang: string, pieces: Dictionary)
      modifies this
      ensures lang in old(data) ==> data == old(data)[lang := old(data)[lang] + pieces]
      ensures lang !in old(data) ==> data == old(data)[lang := pieces]
      ensures language == old(language)
      ensures old(Valid()) ==> Valid()
      ensures forall k :: k in pieces ==> data[lang][k] == pieces[k]
    {
      var dict: Dictionary := if lang in data then data[lang] else map[];
      assert lang !in data ==> dict + pieces == pieces;
      data := data[lang := dict + pieces];
    }

    /** The dictionary of the current language, or of 'en-us' when it has none. */
    function Current(): (d: Dictionary)
      requires Valid()
      reads this
      ensures language in data ==> d == data[language]
      ensures language !in data ==> d == data["en-us"]
    {
      if language in data then data[language] else data["en-us"]
    }

    /** `get` without arguments: the entry of the current dictionary, if any. */
    function Get(key: string): (r: Option<string>)
      requires Valid()
      reads this
      ensures r.Some? <==> key in Current()
      ensures r.Some? ==> r.value == Current()[key]
    {
      if key in Current() then Some(Current()[key]) else None
    }

    /**
      `translate` without arguments: '' without an id; the id's non-empty
      entry; otherwise the default text.
    */
    function Translate(key: string): (r: string)
      requires Valid()
      reads this
      ensures var (text, id) := SplitKey(key);
        && (id.None? || id.value == "" ==> r == "")
        && (id.Some? && id.value != "" && id.value in Current() && Current()[id.value] != "" ==> r == Current()[id.value])
        && (id.Some? && id.value != "" && (id.value !in Current() || Current()[id.value] == "") ==> r == text)
    {
      var (text, id) := SplitKey(key);
      if id.None? || id.value == "" then ""
      else if id.value in Current() && Current()[id.value] != "" then Current()[id.value]
      else text
    }

    /** `translateQuoteToBold` without arguments. */
    function TranslateQuoteToBold(key: string): (r: string)
      requires Valid()
      reads this
      ensures '"' !in Translate(key) ==> r == Translate(key)
    {
      var t := Translate(key);
      if '"' in t then Bold(t)
      else BoldOfPlain(t); Bold(t)
    }
  }

  /**
    `translate("text@@id")` gives the current language's entry for `id`, or
    `text` when it has none (or an empty one).
  */
  lemma TranslateJoined(t: Translations, text: string, id: string)
    requires t.Valid() && id != ""
    requires SeparatorAt(text, 0).None? && SeparatorAt(id, 0).None?
    requires |text| == 0 || text[|text| - 1] != '@'
    requires id[0] != '@'
    ensures id in t.Current() && t.Current()[id] != "" ==> t.Translate(text + "@@" + id) == t.Current()[id]
    ensures id !in t.Current() || t.Current()[id] == "" ==> t.Translate(text + "@@" + id) == text
  {
    SplitOfJoined(text, id);
  }

  /** The global table: 'en-us' with the dialog labels. */
  method Global() returns (t: Translations)
    ensures fresh(t) && t.Valid() && t.language == "en-us"
    ensures t.Get("ok") == Some("OK") && t.Get("cancel") == Some("Cancel")
    ensures t.Get("yes") == Some("Yes") && t.Get("no") == Some("No")
  {
    t := new Translations();
    t.Add("en-us", map["ok" := "OK", "cancel" := "Cancel", "yes" := "Yes", "no" := "No"]);
  }

  /** After adding pieces for the current language, `get` finds each of them. */
  method AddThenGet(t: Translations, pieces: Dictionary, key: string)
    requires t.Valid() && key in pieces
    modifies t
    ensures t.Valid() && t.Get(key) == Some(pieces[key])
  {
    t.Add(t.language, pieces);
  }
}
