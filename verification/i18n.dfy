/** The interface-text lookup `t(key, replacements)`: choose the table of the
    current language (English when there is none), look the key up (the key
    itself when there is no non-empty entry), then replace `{name}`
    placeholders one replacement at a time. */
module I18n {
  import opened Wrappers
  import opened Strings

  type Table = map<string, string>

  const English := "en"

  /** `translations[language] || translations.en` */
  function ChooseTable(tables: map<string, Table>, language: string): (t: Table)
    requires English in tables
    ensures language in tables ==> t == tables[language]
    ensures language !in tables ==> t == tables[English]
  {
    if language in tables then tables[language] else tables[English]
  }

  /** `table[key] || key`: an empty entry counts as missing. */
  function Lookup(table: Table, key: string): (text: string)
    ensures key in table && table[key] != "" ==> text == table[key]
    ensures key !in table || table[key] == "" ==> text == key
  {
    if key in table && table[key] != "" then table[key] else key
  }

  function Placeholder(name: string): string {
    "{" + name + "}"
  }

  /** The replacements, in the order `Object.keys` lists them, each applied
      to the text produced by the ones before it. */
  function ApplyReplacements(text: string, replacements: seq<(string, string)>): string
    decreases |replacements|
  {
    if |replacements| == 0 then text
    else
      var (name, value) := replacements[0];
      ApplyReplacements(ReplaceFirst(text, Placeholder(name), value), replacements[1..])
  }

  /** `t(key, replacements)` for the current `language`; the replacement
      values are given already converted by `String(...)`. */
  function Translate(tables: map<string, Table>, language: string, key: string,
                     replacements: Option<seq<(string, string)>>): (text: string)
    requires English in tables
    ensures replacements.None? ==> text == Lookup(ChooseTable(tables, language), key)
    ensures replacements == Some([]) ==> text == Lookup(ChooseTable(tables, language), key)
  {
    var looked := Lookup(ChooseTable(tables, language), key);
    match replacements
    case None => looked
    case Some(rs) => ApplyReplacements(looked, rs)
  }

  /** With neither a table for the language nor an entry for the key, the
      key itself comes back. */
  lemma UnknownKeyFallsBackToKey(tables: map<string, Table>, language: string, key: string)
    requires English in tables
    requires language !in tables && key !in tables[English]
    ensures Translate(tables, language, key, None) == key
  {
  }

  /** Only the first occurrence of a placeholder is replaced: what precedes
      it has no occurrence, and what follows it, later occurrences included,
      is kept as it was. */
  lemma OnlyFirstPlaceholderReplaced(text: string, name: string, value: string, i: nat)
    requires '$' !in value
    requires OccursAt(text, Placeholder(name), i)
    requires forall j: nat :: j < i ==> !OccursAt(text, Placeholder(name), j)
    ensures ApplyReplacements(text, [(name, value)])
      == text[..i] + value + text[i + |Placeholder(name)|..]
  {
    ReplaceFirstLiteral(text, Placeholder(name), value, i);
  }

  /** A placeholder that does not occur leaves the text unchanged. */
  lemma AbsentPlaceholderKeepsText(text: string, name: string, value: string)
    requires !Contains(text, Placeholder(name))
    ensures ApplyReplacements(text, [(name, value)]) == text
  {
  }

  /** Replacements compose left to right: applying a list is applying its
      first part, then the rest to the result. */
  lemma {:induction false} ReplacementsCompose(text: string, first: seq<(string, string)>, rest: seq<(string, string)>)
    ensures ApplyReplacements(text, first + rest) == ApplyReplacements(ApplyReplacements(text, first), rest)
    decreases |first|
  {
    if |first| > 0 {
      var (name, value) := first[0];
      assert (first + rest)[1..] == first[1..] + rest;
      ReplacementsCompose(ReplaceFirst(text, Placeholder(name), value), first[1..], rest);
    } else {
      assert first + rest == rest;
    }
  }

  /** A value inserted by one replacement is itself subject to the later
      ones: `{a}` with `a -> {b}` then `b -> x` becomes `x`. */
  lemma InsertedPlaceholderIsReplacedLater()
    ensures ApplyReplacements("{a}", [("a", "{b}"), ("b", "x")]) == "x"
  {
    OnlyFirstPlaceholderReplaced("{a}", "a", "{b}", 0);
    assert ApplyReplacements("{a}", [("a", "{b}")]) == "{b}";
    OnlyFirstPlaceholderReplaced("{b}", "b", "x", 0);
    ReplacementsCompose("{a}", [("a", "{b}")], [("b", "x")]);
  }

  /** A placeholder written twice is replaced once: `{n}/{n}` with `n -> 2`
      becomes `2/{n}`. */
  lemma RepeatedPlaceholderReplacedOnce()
    ensures ApplyReplacements("{n}/{n}", [("n", "2")]) == "2/{n}"
  {
    OnlyFirstPlaceholderReplaced("{n}/{n}", "n", "2", 0);
  }
}
