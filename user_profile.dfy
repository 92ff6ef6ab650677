/** The doctor's profile page (`UserProfile`): the registration status and
    whether it counts as active, the avatar initials, the guard of
    `formatDate`, and the three counters (analyses, patients, distinct tumor
    types). */
module UserProfile {
  import opened JsValues
  import opened JsStrings
  import opened HistoryContext
  import PatientContext

  /** `situationStatus`: `"Regular"` is shown as `"Ativo"`, any other value
      as it is. */
  function SituationStatus(situacao: string): (shown: string)
    ensures situacao == "Regular" ==> shown == "Ativo"
    ensures situacao != "Regular" ==> shown == situacao
  {
    if situacao == "Regular" then "Ativo" else situacao
  }

  /** `isActive`: the shown status is `"Ativo"`, which is the case for a
      registration that is `"Regular"` and for one that already reads
      `"Ativo"`, and for no other. */
  function IsActive(situacao: string): (active: bool)
    ensures active <==> situacao == "Regular" || situacao == "Ativo"
  {
    SituationStatus(situacao) == "Ativo"
  }

  /** `label.split(":")[1]?.trim()`, kept only when not empty: the tumor
      type named in a detection label. */
  function TumorType(labelText: string): (t: Option<string>)
    ensures ':' !in labelText ==> t == None
    ensures t.Some? ==> t.value != "" && ':' !in t.value
    ensures t.Some? ==> !IsWhitespace(t.value[0]) && !IsWhitespace(t.value[|t.value| - 1])
  {
    var parts := Split(labelText, ':');
    OccurrencesZero(labelText, ':');
    if |parts| < 2 then None
    else
      var segment := Trim(parts[1]);
      TrimSubset(parts[1]);
      if segment == "" then None else Some(segment)
  }

  /** The tumor type is the segment between the first `':'` and the next
      one (or the end of the label), trimmed; it is absent when that segment
      is blank. */
  lemma TumorTypeIsSecondSegment(before: string, segment: string, after: string)
    requires ':' !in before && ':' !in segment
    requires after == [] || after[0] == ':'
    ensures TumorType(before + [':'] + (segment + after)) ==
      if Trim(segment) == "" then None else Some(Trim(segment))
  {
    SecondPiece(before, segment, after, ':');
  }

  /** The piece after the first separator runs to the next one, or to the
      end. */
  lemma SecondPiece(before: string, segment: string, after: string, c: char)
    requires c !in before && c !in segment
    requires after == [] || after[0] == c
    ensures var parts := Split(before + [c] + (segment + after), c);
      |parts| >= 2 && parts[1] == segment
  {
    SplitConcat(before, segment + after, c);
    FirstPiece(segment, after, c);
  }

  /** The first piece runs up to the first separator, or to the end. */
  lemma FirstPiece(segment: string, after: string, c: char)
    requires c !in segment
    requires after == [] || after[0] == c
    ensures Split(segment + after, c)[0] == segment
  {
    if after == [] {
      assert segment + after == segment;
      SplitSeparatorFree(segment, c);
    } else {
      assert segment + after == segment + [c] + after[1..];
      SplitConcat(segment, after[1..], c);
    }
  }

  /** The types a list of detections names, each label read by `typeOf`
      (the page reads them with `TumorType`). */
  function BoxTypes(ds: seq<DetectionBox>, typeOf: string -> Option<string>): set<string> {
    if ds == [] then {}
    else
      var t := typeOf(ds[|ds| - 1].labelText);
      BoxTypes(ds[..|ds| - 1], typeOf) + (if t.Some? then {t.value} else {})
  }

  /** The types named by all detections of all entries. */
  function HistoryTypes(h: seq<AnalysisEntry>, typeOf: string -> Option<string>): set<string> {
    if h == [] then {} else HistoryTypes(h[..|h| - 1], typeOf) + BoxTypes(h[|h| - 1].detections, typeOf)
  }

  lemma {:induction false} BoxTypesMembers(ds: seq<DetectionBox>, typeOf: string -> Option<string>, t: string)
    ensures t in BoxTypes(ds, typeOf) <==> exists j :: 0 <= j < |ds| && typeOf(ds[j].labelText) == Some(t)
  {
    if ds != [] {
      var init := ds[..|ds| - 1];
      BoxTypesMembers(init, typeOf, t);
      if t in BoxTypes(init, typeOf) {
        var j :| 0 <= j < |init| && typeOf(init[j].labelText) == Some(t);
        assert ds[j] == init[j];
      }
      if exists j :: 0 <= j < |ds| && typeOf(ds[j].labelText) == Some(t) {
        var j :| 0 <= j < |ds| && typeOf(ds[j].labelText) == Some(t);
        if j < |init| {
          assert init[j] == ds[j];
        }
      }
    }
  }

  /** A type is counted exactly when some detection of some entry names it. */
  lemma {:induction false} HistoryTypesMembers(h: seq<AnalysisEntry>, typeOf: string -> Option<string>, t: string)
    ensures t in HistoryTypes(h, typeOf) <==>
      exists i, j :: 0 <= i < |h| && 0 <= j < |h[i].detections| && typeOf(h[i].detections[j].labelText) == Some(t)
  {
    if h != [] {
      var init := h[..|h| - 1];
      var e := h[|h| - 1];
      HistoryTypesMembers(init, typeOf, t);
      BoxTypesMembers(e.detections, typeOf, t);
      if t in HistoryTypes(init, typeOf) {
        var i, j :| 0 <= i < |init| && 0 <= j < |init[i].detections| && typeOf(init[i].detections[j].labelText) == Some(t);
        assert h[i] == init[i];
      }
      if t in BoxTypes(e.detections, typeOf) {
        var j :| 0 <= j < |e.detections| && typeOf(e.detections[j].labelText) == Some(t);
        assert h[|h| - 1].detections[j] == e.detections[j];
      }
      if exists i, j :: 0 <= i < |h| && 0 <= j < |h[i].detections| && typeOf(h[i].detections[j].labelText) == Some(t) {
        var i, j :| 0 <= i < |h| && 0 <= j < |h[i].detections| && typeOf(h[i].detections[j].labelText) == Some(t);
        if i < |init| {
          assert init[i] == h[i];
        }
      }
    }
  }

  /** The nested `forEach` that fills the `tumorTypes` set; its size is the
      "Tipos de Tumores" counter. */
  method CollectTumorTypes(history: seq<AnalysisEntry>) returns (types: set<string>)
    ensures types == HistoryTypes(history, TumorType)
    ensures forall t :: t in types <==>
      exists i, j :: 0 <= i < |history| && 0 <= j < |history[i].detections| &&
        TumorType(history[i].detections[j].labelText) == Some(t)
  {
    types := {};
    var i := 0;
    while i < |history|
      invariant 0 <= i <= |history|
      invariant types == HistoryTypes(history[..i], TumorType)
    {
      var ds := history[i].detections;
      var j := 0;
      while j < |ds|
        invariant 0 <= j <= |ds|
        invariant types == HistoryTypes(history[..i], TumorType) + BoxTypes(ds[..j], TumorType)
      {
        assert ds[..j + 1][..j] == ds[..j];
        var t := TumorType(ds[j].labelText);
        if t.Some? {
          types := types + {t.value};
        }
        j := j + 1;
      }
      assert ds[..j] == ds;
      assert history[..i + 1][..i] == history[..i];
      i := i + 1;
    }
    assert history[..i] == history;
    forall t ensures t in types <==>
      exists i, j :: 0 <= i < |history| && 0 <= j < |history[i].detections| &&
        TumorType(history[i].detections[j].labelText) == Some(t)
    {
      HistoryTypesMembers(history, TumorType, t);
    }
  }

  /** `name[0]` for each piece, joined: an empty piece has no first
      character and adds nothing. */
  function Heads(parts: seq<string>): (r: string)
    ensures |r| <= |parts|
  {
    if parts == [] then []
    else (if parts[0] == [] then [] else [parts[0][0]]) + Heads(parts[1..])
  }

  /** The pieces of a split that are not empty, in order: the words of a
      name, whatever spaces surround or separate them. */
  function NonEmptyPieces(parts: seq<string>): (r: seq<string>)
    ensures |r| <= |parts|
    ensures forall k :: 0 <= k < |r| ==> r[k] != []
  {
    if parts == [] then []
    else (if parts[0] == [] then [] else [parts[0]]) + NonEmptyPieces(parts[1..])
  }

  /** `name[0]` of an empty piece is `undefined`, which `join` writes as
      nothing: the heads are exactly the first characters of the non-empty
      pieces, one per piece, in order. */
  lemma {:induction false} HeadsSkipsEmpty(parts: seq<string>)
    ensures |Heads(parts)| == |NonEmptyPieces(parts)|
    ensures forall k :: 0 <= k < |Heads(parts)| ==> Heads(parts)[k] == NonEmptyPieces(parts)[k][0]
  {
    if parts != [] {
      HeadsSkipsEmpty(parts[1..]);
      var rest := NonEmptyPieces(parts[1..]);
      if parts[0] == [] {
        assert Heads(parts) == Heads(parts[1..]);
        assert NonEmptyPieces(parts) == rest;
      } else {
        assert Heads(parts) == [parts[0][0]] + Heads(parts[1..]);
        assert NonEmptyPieces(parts) == [parts[0]] + rest;
      }
    }
  }

  /** The avatar shows the first characters of the first two words of the
      name, however many spaces lie before, between or after them. */
  lemma InitialsSkipEmpty(name: string)
    ensures var words := NonEmptyPieces(Split(name, ' '));
      Initials(name) ==
        if |words| == 0 then []
        else if |words| == 1 then [words[0][0]]
        else [words[0][0], words[1][0]]
  {
    HeadsSkipsEmpty(Split(name, ' '));
  }

  /** A doubled space between two words leaves no trace in the avatar. */
  lemma InitialsDoubledSpace(a: string, b: string)
    requires a != [] && b != [] && ' ' !in a && ' ' !in b
    ensures Initials(a + "  " + b) == [a[0], b[0]]
  {
    var parts := Split(a + "  " + b, ' ');
    SplitSeparatorFree(b, ' ');
    SplitConcat([], b, ' ');
    assert [' '] + b == [] + [' '] + b;
    assert a + "  " + b == a + [' '] + ([' '] + b);
    SplitConcat(a, [' '] + b, ' ');
    assert parts == [a, [], b];
    assert NonEmptyPieces(parts) == [a, b] by {
      assert parts[1..][1..] == [b];
      assert [b][1..] == [];
      assert NonEmptyPieces([b]) == [b];
      assert parts[1..] == [[], b];
      assert NonEmptyPieces([[], b]) == [b];
    }
    InitialsSkipEmpty(a + "  " + b);
  }

  /** A leading space leaves no trace in the avatar. */
  lemma InitialsLeadingSpace(a: string)
    requires a != [] && ' ' !in a
    ensures Initials(" " + a) == [a[0]]
  {
    var parts := Split(" " + a, ' ');
    SplitSeparatorFree(a, ' ');
    assert " " + a == [] + [' '] + a;
    SplitConcat([], a, ' ');
    assert parts == [[], a];
    assert NonEmptyPieces(parts) == [a] by {
      assert parts[1..] == [a];
    }
    InitialsSkipEmpty(" " + a);
  }

  /** The two cases above on concrete names. */
  lemma InitialsExtraSpaces()
    ensures Initials("Ana  Maria") == "AM"
    ensures Initials(" ana") == "a"
  {
    InitialsDoubledSpace("Ana", "Maria");
    assert "Ana" + "  " + "Maria" == "Ana  Maria";
    InitialsLeadingSpace("ana");
    assert " " + "ana" == " ana";
  }

  /** The avatar text: `NM_MEDICO.split(' ').map(name => name[0]).join('')
      .substring(0, 2)`. */
  function Initials(name: string): (r: string)
    ensures |r| <= 2
    ensures ' ' !in r
  {
    var heads := Heads(Split(name, ' '));
    HeadsAvoid(Split(name, ' '), ' ');
    heads[..if |heads| < 2 then |heads| else 2]
  }

  /** A character no piece contains is not among their first characters. */
  lemma {:induction false} HeadsAvoid(parts: seq<string>, c: char)
    requires forall k :: 0 <= k < |parts| ==> c !in parts[k]
    ensures c !in Heads(parts)
  {
    if parts != [] {
      HeadsAvoid(parts[1..], c);
    }
  }

  /** For a name made of words separated by single spaces, the initials
      are the first letters of its first two words. */
  lemma InitialsOfWords(words: seq<string>)
    requires |words| >= 1
    requires forall k :: 0 <= k < |words| ==> words[k] != [] && ' ' !in words[k]
    ensures Initials(Join(words, ' ')) ==
      if |words| == 1 then [words[0][0]] else [words[0][0], words[1][0]]
  {
    SplitJoin(words, ' ');
    HeadsOfWords(words);
  }

  lemma {:induction false} HeadsOfWords(words: seq<string>)
    requires forall k :: 0 <= k < |words| ==> words[k] != []
    ensures |Heads(words)| == |words|
    ensures forall k :: 0 <= k < |words| ==> Heads(words)[k] == words[k][0]
  {
    if words != [] {
      HeadsOfWords(words[1..]);
    }
  }

  /** The result of `formatDate`: the input as given, or the day, month and
      year pieces it goes on to parse and format. */
  datatype DateText = AsGiven(text: string) | Calendar(day: string, month: string, year: string)

  /** `formatDate`'s guard: unless the text splits on `'/'` into exactly
      three pieces, that is unless it holds exactly two slashes, it is
      returned unchanged; otherwise the three pieces are exactly the text
      between the slashes. */
  function FormatDate(dateString: string): (r: DateText)
    ensures Occurrences(dateString, '/') != 2 ==> r == AsGiven(dateString)
    ensures Occurrences(dateString, '/') == 2 ==>
      r.Calendar? && Join([r.day, r.month, r.year], '/') == dateString
  {
    var parts := Split(dateString, '/');
    if |parts| != 3 then AsGiven(dateString)
    else
      JoinSplit(dateString, '/');
      assert parts == [parts[0], parts[1], parts[2]];
      Calendar(parts[0], parts[1], parts[2])
  }

  /** `analysisCount`. */
  function AnalysisCount(h: seq<AnalysisEntry>): nat {
    |h|
  }

  /** `patientCount`: `JSON.parse(localStorage.getItem("pacientes") || "[]")
      .length`. A missing key or an empty string count as no patients; a
      stored list counts its records; text that does not parse throws while
      the page renders (`None`). */
  function PatientCount(saved: Storage<seq<PatientContext.StoredPatient>>): (n: Option<nat>)
    ensures PatientContext.PatientsKey !in saved ==> n == Some(0)
    ensures PatientContext.PatientsKey in saved && saved[PatientContext.PatientsKey].EmptyText? ==> n == Some(0)
    ensures PatientContext.PatientsKey in saved && saved[PatientContext.PatientsKey].Json? ==>
      n == Some(|saved[PatientContext.PatientsKey].value|)
    ensures n == None <==> PatientContext.PatientsKey in saved && saved[PatientContext.PatientsKey].Unparseable?
  {
    if PatientContext.PatientsKey !in saved then Some(0)
    else
      match saved[PatientContext.PatientsKey]
      case EmptyText => Some(0)
      case Json(records) => Some(|records|)
      case Unparseable => None
  }

  /** While the registry holds patients, the profile counts exactly them. */
  lemma PatientCountMatchesRegistry(registry: PatientContext.PatientProvider)
    requires registry.Valid() && |registry.patients| > 0
    ensures PatientCount(registry.storage) == Some(|registry.patients|)
  {
  }

  /** Every call of `addToHistory` raises the analysis count by one. */
  lemma AnalysisCountAfterAdds(h: seq<AnalysisEntry>, adds: seq<Add>)
    ensures AnalysisCount(Replay(h, adds)) == AnalysisCount(h) + |adds|
  {
    ReplayShape(h, adds);
  }

  /** While the history store is consistent, the profile's analysis count
      is the number of stored entries. */
  lemma AnalysisCountMatchesStore(store: HistoryProvider)
    requires store.Valid()
    ensures AnalysisCount(store.history) == |store.storage[HistoryKey].value|
  {
  }
}
