/** The trip request form: the constraints it checks before submitting, its
    default values, and the submission, which turns the comma-separated
    themes text into a list of themes. */
module ItineraryForm {
  import opened Wrappers
  import opened Strings

  /** The form fields after the duration text has been coerced to a number. */
  datatype FormValues = FormValues(destination: string, duration: real, budget: string, themes: string)

  /** What the form hands to the page on submit. */
  datatype Submission = Submission(destination: string, duration: real, budget: string, themes: seq<string>)

  predicate IsInteger(x: real) {
    x.Floor as real == x
  }

  /** The form's schema: lengths are counted in UTF-16 code units. */
  predicate Accepts(v: FormValues) {
    && Utf16Length(v.destination) >= 2
    && IsInteger(v.duration) && v.duration >= 1.0
    && Utf16Length(v.budget) >= 1
    && Utf16Length(v.themes) >= 2
  }

  /** "cultural heritage, adventure, nightlife, relaxing, museums", written
      theme by theme. */
  const DefaultThemesText := "cultural heritage" + ", " + "adventure" + ", " + "nightlife" + ", " + "relaxing" + ", " + "museums"

  const Defaults := FormValues("Goa, India", 7.0, "50000", DefaultThemesText)

  /** `pieces.map(f).filter(Boolean)`: the images under `f`, without the
      empty ones. */
  function MapNonEmpty(pieces: seq<string>, f: string -> string): seq<string> {
    if |pieces| == 0 then []
    else
      var t := f(pieces[0]);
      (if t == "" then [] else [t]) + MapNonEmpty(pieces[1..], f)
  }

  /** Every survivor is a non-empty image, so it has every property all
      non-empty images have. */
  lemma {:induction false} MapNonEmptyAll(pieces: seq<string>, f: string -> string, ok: string -> bool)
    requires forall j :: 0 <= j < |pieces| && f(pieces[j]) != "" ==> ok(f(pieces[j]))
    ensures forall k :: 0 <= k < |MapNonEmpty(pieces, f)| ==>
      MapNonEmpty(pieces, f)[k] != "" && ok(MapNonEmpty(pieces, f)[k])
  {
    if |pieces| > 0 {
      var t := f(pieces[0]);
      var head := if t == "" then [] else [t];
      var rest := MapNonEmpty(pieces[1..], f);
      assert forall j :: 1 <= j < |pieces| ==> pieces[1..][j - 1] == pieces[j];
      MapNonEmptyAll(pieces[1..], f, ok);
      forall k | 0 <= k < |head + rest|
        ensures (head + rest)[k] != "" && ok((head + rest)[k])
      {
        if k >= |head| {
          assert (head + rest)[k] == rest[k - |head|];
        }
      }
    }
  }

  /** Mapping and filtering a concatenation does each part in turn: order is
      kept. */
  lemma {:induction false} MapNonEmptyDistributes(a: seq<string>, b: seq<string>, f: string -> string)
    ensures MapNonEmpty(a + b, f) == MapNonEmpty(a, f) + MapNonEmpty(b, f)
  {
    if |a| > 0 {
      assert (a + b)[0] == a[0];
      assert (a + b)[1..] == a[1..] + b;
      MapNonEmptyDistributes(a[1..], b, f);
    } else {
      assert a + b == b;
    }
  }

  /** A single piece survives as its image unless that is empty. */
  lemma MapNonEmptySingle(s: string, f: string -> string)
    ensures MapNonEmpty([s], f) == if f(s) == "" then [] else [f(s)]
  {
    assert [s][1..] == [];
  }

  /** `themes.split(',').map(t => t.trim()).filter(Boolean)` */
  function SplitThemes(s: string): seq<string> {
    MapNonEmpty(Split(s, ','), Trim)
  }

  /** A theme as the form produces it: non-empty, without whitespace at
      either end, and without a comma. */
  predicate IsTrimmedTheme(t: string) {
    t != [] && !IsWhitespace(t[0]) && !IsWhitespace(t[|t| - 1]) && ',' !in t
  }

  /** Every theme is non-empty, has no whitespace at either end and holds no
      comma. */
  lemma ThemesAreTrimmedPieces(s: string)
    ensures forall k :: 0 <= k < |SplitThemes(s)| ==> IsTrimmedTheme(SplitThemes(s)[k])
  {
    var pieces := Split(s, ',');
    SplitPiecesAvoidSeparator(s, ',');
    forall j | 0 <= j < |pieces| && Trim(pieces[j]) != ""
      ensures IsTrimmedTheme(Trim(pieces[j]))
    {
      if ',' in Trim(pieces[j]) {
        TrimKeepsCharacters(pieces[j], ',');
      }
    }
    MapNonEmptyAll(pieces, Trim, IsTrimmedTheme);
  }

  /** The themes of `a,b` are the themes of `a` followed by those of `b`:
      order is preserved. */
  lemma ThemesOfSeparated(a: string, b: string)
    ensures SplitThemes(a + "," + b) == SplitThemes(a) + SplitThemes(b)
  {
    SplitOnSeparator(a, ',', b);
    MapNonEmptyDistributes(Split(a, ','), Split(b, ','), Trim);
  }

  /** A text without commas yields its trimmed self, or nothing when that is
      empty. With `ThemesOfSeparated` this determines every result. */
  lemma ThemesOfSingle(s: string)
    requires ',' !in s
    ensures SplitThemes(s) == if Trim(s) == "" then [] else [Trim(s)]
  {
    SplitWithoutSeparator(s, ',');
    MapNonEmptySingle(s, Trim);
  }

  /** Pressing submit: the form's schema is checked, then the destination,
      duration and budget pass through and the themes text is split. */
  function HandleSubmit(v: FormValues): (r: Option<Submission>)
    ensures r.Some? <==> Accepts(v)
    ensures r.Some? ==> r.value.destination == v.destination
    ensures r.Some? ==> r.value.duration == v.duration && r.value.duration >= 1.0
    ensures r.Some? ==> r.value.budget == v.budget && r.value.budget != ""
    ensures r.Some? ==> r.value.themes == SplitThemes(v.themes)
  {
    if Accepts(v) then
      Some(Submission(v.destination, v.duration, v.budget, SplitThemes(v.themes)))
    else None
  }

  /** Counting characters is enough to pass the length checks, since a
      character counts at least one code unit. */
  lemma AcceptsLongEnough(v: FormValues)
    requires |v.destination| >= 2 && |v.budget| >= 1 && |v.themes| >= 2
    requires IsInteger(v.duration) && v.duration >= 1.0
    ensures Accepts(v)
  {
  }

  /** The defaults pass the form's checks. */
  lemma DefaultsAreAccepted()
    ensures Accepts(Defaults)
  {
    var d := Defaults;
    AcceptsLongEnough(d);
  }

  /** One theme, possibly after a space, comes back as itself. */
  lemma SingleThemeName(lead: string, name: string)
    requires lead == "" || lead == " "
    requires IsTrimmedTheme(name)
    ensures SplitThemes(lead + name) == [name]
  {
    assert ',' !in lead + name;
    ThemesOfSingle(lead + name);
    if lead == " " {
      TrimLeadingSpace(name);
    } else {
      assert lead + name == name;
    }
    TrimOfTrimmed(name);
  }

  lemma CommaSpaceRegrouped(lead: string, first: string, rest: string)
    ensures lead + (first + ", " + rest) == (lead + first) + "," + (" " + rest)
  {
    assert ", " == "," + " ";
  }

  /** The step of `JoinedThemesRoundTrip`: the first name, then the rest
      after a comma. */
  lemma JoinedThemesStep(names: seq<string>, lead: string)
    requires lead == "" || lead == " "
    requires |names| >= 2 && IsTrimmedTheme(names[0])
    requires SplitThemes(" " + Join(names[1..], ", ")) == names[1..]
    ensures SplitThemes(lead + Join(names, ", ")) == names
  {
    var first, tail := lead + names[0], " " + Join(names[1..], ", ");
    CommaSpaceRegrouped(lead, names[0], Join(names[1..], ", "));
    ThemesOfSeparated(first, tail);
    SingleThemeName(lead, names[0]);
    assert names == [names[0]] + names[1..];
  }

  /** Splitting inverts writing the themes out separated by `, `: any list
      of theme names comes back as it was, in order. */
  lemma {:induction false} JoinedThemesRoundTrip(names: seq<string>, lead: string)
    requires lead == "" || lead == " "
    requires |names| >= 1
    requires forall k :: 0 <= k < |names| ==> IsTrimmedTheme(names[k])
    ensures SplitThemes(lead + Join(names, ", ")) == names
  {
    if |names| == 1 {
      SingleThemeName(lead, names[0]);
    } else {
      assert forall k :: 0 <= k < |names[1..]| ==> names[1..][k] == names[k + 1];
      JoinedThemesRoundTrip(names[1..], " ");
      JoinedThemesStep(names, lead);
    }
  }

  /** Lower-case words separated by single spaces make a theme. */
  lemma WordsAreTheme(t: string)
    requires |t| > 0 && t[0] != ' ' && t[|t| - 1] != ' '
    requires forall i :: 0 <= i < |t| ==> 'a' <= t[i] <= 'z' || t[i] == ' '
    ensures IsTrimmedTheme(t)
  {
  }

  lemma Regrouped(a: string, b: string, c: string, d: string, e: string, sep: string)
    ensures a + sep + b + sep + c + sep + d + sep + e == a + sep + (b + sep + (c + sep + (d + sep + e)))
  {
  }

  /** The default themes text yields five themes, in the order written. */
  lemma DefaultThemes()
    ensures SplitThemes(DefaultThemesText) == ["cultural heritage", "adventure", "nightlife", "relaxing", "museums"]
  {
    var names := ["cultural heritage", "adventure", "nightlife", "relaxing", "museums"];
    assert forall k :: 0 <= k < |names| ==> IsTrimmedTheme(names[k]) by {
      WordsAreTheme(names[0]);
      WordsAreTheme(names[1]);
      WordsAreTheme(names[2]);
      WordsAreTheme(names[3]);
      WordsAreTheme(names[4]);
    }
    assert DefaultThemesText == "" + Join(names, ", ") by {
      assert Join(names[3..], ", ") == names[3] + ", " + names[4];
      assert Join(names[2..], ", ") == names[2] + ", " + Join(names[3..], ", ");
      assert Join(names[1..], ", ") == names[1] + ", " + Join(names[2..], ", ");
      Regrouped(names[0], names[1], names[2], names[3], names[4], ", ");
    }
    JoinedThemesRoundTrip(names, "");
  }

  /** A themes text can pass the length check and still yield no theme. */
  lemma CommasOnlyYieldNoThemes()
    ensures Accepts(FormValues("Goa", 3.0, "1", ",,"))
    ensures HandleSubmit(FormValues("Goa", 3.0, "1", ",,")).value.themes == []
  {
    assert Utf16Length(",,") == 2;
    assert Utf16Length("Goa") == 3;
    assert Utf16Length("1") == 1;
    assert ",," == "" + "," + ("" + "," + "");
    ThemesOfSeparated("", "" + "," + "");
    ThemesOfSeparated("", "");
    ThemesOfSingle("");
  }
}
