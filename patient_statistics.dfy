/** The per-patient statistics view (`PatientStatistics`): history entries
    grouped by `patientId` into rows that count analyses and detections,
    sorted by analyses and then detections, both descending, of which the
    first five are shown unless "show all" is on. */
module PatientStatistics {
  import opened JsValues
  import opened HistoryContext

  /** One value of the `patientAnalysisCount` dictionary. */
  datatype Row = Row(name: string, analyses: nat, detections: nat)

  /** The two quantities a row adds up. */
  datatype Metric = Analyses | Detections

  function Value(r: Row, m: Metric): nat {
    match m
    case Analyses => r.analyses
    case Detections => r.detections
  }

  /** An entry takes part unless its `patientId` or `patientName` is
      missing or empty. */
  predicate Qualifies(e: AnalysisEntry) {
    Truthy(e.patientId) && Truthy(e.patientName)
  }

  /** What an entry adds to its row: one analysis, and its detections. */
  function Measure(e: AnalysisEntry, m: Metric): nat {
    match m
    case Analyses => 1
    case Detections => |e.detections|
  }

  /** The sum of `Measure` over the qualifying entries of `h` whose
      `patientId` is `id`. */
  function Sum(h: seq<AnalysisEntry>, id: string, m: Metric): nat {
    if h == [] then 0
    else
      var e := h[|h| - 1];
      Sum(h[..|h| - 1], id, m) + (if Qualifies(e) && e.patientId.value == id then Measure(e, m) else 0)
  }

  /** The sum of `Measure` over all qualifying entries of `h`. */
  function QualifiedTotal(h: seq<AnalysisEntry>, m: Metric): nat {
    if h == [] then 0
    else
      var e := h[|h| - 1];
      QualifiedTotal(h[..|h| - 1], m) + (if Qualifies(e) then Measure(e, m) else 0)
  }

  /** The keys of the dictionary, in the order they were first inserted:
      each qualifying `patientId` once, in the order of its first entry. */
  function Keys(h: seq<AnalysisEntry>): (ks: seq<string>)
    ensures forall i, j :: 0 <= i < j < |ks| ==> ks[i] != ks[j]
    ensures forall id :: id in ks <==> Sum(h, id, Analyses) > 0
  {
    if h == [] then []
    else
      var ks := Keys(h[..|h| - 1]);
      var e := h[|h| - 1];
      if Qualifies(e) && e.patientId.value !in ks then ks + [e.patientId.value] else ks
  }

  /** The `patientName` of the first qualifying entry for `id` (empty when
      there is none). */
  function FirstName(h: seq<AnalysisEntry>, id: string): string {
    if h == [] then ""
    else
      var e := h[|h| - 1];
      var init := h[..|h| - 1];
      if Qualifies(e) && e.patientId.value == id && Sum(init, id, Analyses) == 0
      then e.patientName.value
      else FirstName(init, id)
  }

  /** The row the dictionary ends up holding for `id`. */
  function RowFor(h: seq<AnalysisEntry>, id: string): Row {
    Row(FirstName(h, id), Sum(h, id, Analyses), Sum(h, id, Detections))
  }

  /** The rows for the given keys, in that order. */
  function RowsFor(h: seq<AnalysisEntry>, ks: seq<string>): (rows: seq<Row>)
    ensures |rows| == |ks| && forall k :: 0 <= k < |ks| ==> rows[k] == RowFor(h, ks[k])
  {
    seq(|ks|, k requires 0 <= k < |ks| => RowFor(h, ks[k]))
  }

  /** `Object.values(patientAnalysisCount)`: one row per qualifying patient,
      in first-insertion order. */
  function GroupRows(h: seq<AnalysisEntry>): seq<Row> {
    RowsFor(h, Keys(h))
  }

  /** A row's name is the `patientName` of the first qualifying entry with
      that id, in history order. */
  lemma {:induction false} FirstNameIsFirst(h: seq<AnalysisEntry>, id: string) returns (k: nat)
    requires Sum(h, id, Analyses) > 0
    ensures k < |h| && Qualifies(h[k]) && h[k].patientId.value == id
    ensures FirstName(h, id) == h[k].patientName.value
    ensures forall j :: 0 <= j < k ==> !(Qualifies(h[j]) && h[j].patientId.value == id)
  {
    var init := h[..|h| - 1];
    var e := h[|h| - 1];
    if Qualifies(e) && e.patientId.value == id && Sum(init, id, Analyses) == 0 {
      k := |h| - 1;
      forall j | 0 <= j < k ensures !(Qualifies(h[j]) && h[j].patientId.value == id) {
        assert init[j] == h[j];
        if Qualifies(h[j]) && h[j].patientId.value == id {
          SumPositive(init, id, j);
        }
      }
    } else {
      k := FirstNameIsFirst(init, id);
      assert h[k] == init[k];
      forall j | 0 <= j < k ensures !(Qualifies(h[j]) && h[j].patientId.value == id) {
        assert h[j] == init[j];
      }
    }
  }

  /** How one more entry changes the row of `id`: a qualifying entry for
      `id` creates the row with its name when there was none, and adds one
      analysis and its detections; any other entry leaves the row alone. */
  lemma RowForStep(h: seq<AnalysisEntry>, e: AnalysisEntry, id: string)
    ensures RowFor(h + [e], id) ==
      if Qualifies(e) && e.patientId.value == id then
        var before := if Sum(h, id, Analyses) == 0 then Row(e.patientName.value, 0, 0) else RowFor(h, id);
        before.(analyses := before.analyses + 1, detections := before.detections + |e.detections|)
      else RowFor(h, id)
  {
    var he := h + [e];
    assert he[..|he| - 1] == h;
    if Sum(h, id, Analyses) == 0 {
      SumZero(h, id, Detections);
    }
  }

  /** An entry for `id` makes its sum positive. */
  lemma {:induction false} SumPositive(h: seq<AnalysisEntry>, id: string, j: nat)
    requires j < |h| && Qualifies(h[j]) && h[j].patientId.value == id
    ensures Sum(h, id, Analyses) > 0
  {
    if j < |h| - 1 {
      SumPositive(h[..|h| - 1], id, j);
    }
  }

  /** Entries without `patientId` or `patientName` contribute to no row. */
  lemma {:induction false} UnqualifiedIgnored(h: seq<AnalysisEntry>, e: AnalysisEntry)
    requires !Qualifies(e)
    ensures GroupRows(h + [e]) == GroupRows(h)
  {
    var he := h + [e];
    assert he[..|he| - 1] == h;
    assert Keys(he) == Keys(h);
    forall id ensures RowFor(he, id) == RowFor(h, id) {
      assert Sum(he, id, Analyses) == Sum(h, id, Analyses);
      assert Sum(he, id, Detections) == Sum(h, id, Detections);
      assert FirstName(he, id) == FirstName(h, id);
    }
  }

  /** There are no rows exactly when no entry qualifies: the empty-state
      branch. */
  lemma {:induction false} NoRowsIff(h: seq<AnalysisEntry>)
    ensures GroupRows(h) == [] <==> forall k :: 0 <= k < |h| ==> !Qualifies(h[k])
  {
    if h != [] {
      var init := h[..|h| - 1];
      NoRowsIff(init);
      if Keys(h) == [] {
        forall k | 0 <= k < |h| ensures !Qualifies(h[k]) {
          if k < |h| - 1 {
            assert h[k] == init[k];
          }
        }
      }
      if forall k :: 0 <= k < |h| ==> !Qualifies(h[k]) {
        forall k | 0 <= k < |init| ensures !Qualifies(init[k]) {
          assert init[k] == h[k];
        }
      }
    }
  }

  /** The sum of the given metric over the rows. */
  function Total(rows: seq<Row>, m: Metric): nat {
    if rows == [] then 0 else Value(rows[0], m) + Total(rows[1..], m)
  }

  lemma {:induction false} TotalConcat(a: seq<Row>, b: seq<Row>, m: Metric)
    ensures Total(a + b, m) == Total(a, m) + Total(b, m)
  {
    if a == [] {
      assert a + b == b;
    } else {
      TotalConcat(a[1..], b, m);
      assert (a + b)[1..] == a[1..] + b;
    }
  }

  /** One more entry adds its measure to the sum of every key it matches:
      once if its id is among distinct keys, not at all otherwise. */
  lemma {:induction false} RowsTotalStep(h: seq<AnalysisEntry>, e: AnalysisEntry, ks: seq<string>, m: Metric)
    requires forall i, j :: 0 <= i < j < |ks| ==> ks[i] != ks[j]
    ensures Total(RowsFor(h + [e], ks), m) ==
      Total(RowsFor(h, ks), m) + (if Qualifies(e) && e.patientId.value in ks then Measure(e, m) else 0)
  {
    var he := h + [e];
    assert he[..|he| - 1] == h;
    if ks != [] {
      var init := ks[..|ks| - 1];
      var last := ks[|ks| - 1];
      RowsTotalStep(h, e, init, m);
      RowsForLast(he, ks);
      RowsForLast(h, ks);
      TotalConcat(RowsFor(he, init), [RowFor(he, last)], m);
      TotalConcat(RowsFor(h, init), [RowFor(h, last)], m);
      assert Value(RowFor(he, last), m) == Sum(he, last, m);
      assert Value(RowFor(h, last), m) == Sum(h, last, m);
      if Qualifies(e) && e.patientId.value == last {
        assert e.patientId.value !in init;
      }
    }
  }

  lemma RowsForLast(h: seq<AnalysisEntry>, ks: seq<string>)
    requires ks != []
    ensures RowsFor(h, ks) == RowsFor(h, ks[..|ks| - 1]) + [RowFor(h, ks[|ks| - 1])]
  {
  }

  /** Every qualifying entry is counted in exactly one row: the rows' totals
      are the totals over the qualifying entries. In particular the sum of
      `analyses` is the number of qualifying entries. */
  lemma {:induction false} GroupTotals(h: seq<AnalysisEntry>, m: Metric)
    ensures Total(GroupRows(h), m) == QualifiedTotal(h, m)
  {
    if h != [] {
      var init := h[..|h| - 1];
      var e := h[|h| - 1];
      assert h == init + [e];
      GroupTotals(init, m);
      RowsTotalStep(init, e, Keys(init), m);
      if Qualifies(e) && e.patientId.value !in Keys(init) {
        var id := e.patientId.value;
        var ks := Keys(init) + [id];
        assert Keys(h) == ks;
        assert RowsFor(h, ks) == RowsFor(h, Keys(init)) + [RowFor(h, id)];
        TotalConcat(RowsFor(h, Keys(init)), [RowFor(h, id)], m);
        assert Sum(init, id, m) == 0 by { SumZero(init, id, m); }
      } else {
        assert Keys(h) == Keys(init);
      }
    }
  }

  /** An id with no analyses has nothing to sum. */
  lemma {:induction false} SumZero(h: seq<AnalysisEntry>, id: string, m: Metric)
    requires Sum(h, id, Analyses) == 0
    ensures Sum(h, id, m) == 0
  {
    if h != [] {
      SumZero(h[..|h| - 1], id, m);
    }
  }

  /** The `forEach` that fills `patientAnalysisCount`, followed by
      `Object.values`: the dictionary is a map plus the order in which its
      keys were inserted. */
  method Tally(history: seq<AnalysisEntry>) returns (rows: seq<Row>)
    ensures rows == GroupRows(history)
  {
    var table: map<string, Row> := map[];
    var order: seq<string> := [];
    var i := 0;
    while i < |history|
      invariant 0 <= i <= |history|
      invariant Tallied(history[..i], table, order)
    {
      var e := history[i];
      if !Qualifies(e) {
        TallySkip(history, i, table, order);
      } else {
        TallyCount(history, i, table, order);
        var id := e.patientId.value;
        if id !in table {
          table := table[id := Row(e.patientName.value, 0, 0)];
          order := order + [id];
        }
        var row := table[id];
        table := table[id := row.(analyses := row.analyses + 1,
                                  detections := row.detections + |e.detections|)];
      }
      i := i + 1;
    }
    assert history[..i] == history;
    rows := seq(|order|, k requires 0 <= k < |order| => table[order[k]]);
    TalliedRows(history, table, order, rows);
  }

  /** `Object.values` of a complete dictionary lists the rows in key order. */
  lemma TalliedRows(h: seq<AnalysisEntry>, table: map<string, Row>, order: seq<string>, rows: seq<Row>)
    requires Tallied(h, table, order)
    requires |rows| == |order| && forall k :: 0 <= k < |order| ==> order[k] in table && rows[k] == table[order[k]]
    ensures rows == GroupRows(h)
  {
  }

  /** The dictionary and its insertion order after the entries `h`: the
      keys are `Keys(h)` and each value is the row of its key. */
  ghost predicate Tallied(h: seq<AnalysisEntry>, table: map<string, Row>, order: seq<string>) {
    && order == Keys(h)
    && (forall id :: id in table <==> id in order)
    && (forall id :: id in table ==> table[id] == RowFor(h, id))
  }

  /** One pass of the `forEach` over an entry without `patientId` or
      `patientName`: the `return` leaves the dictionary as it was. */
  lemma TallySkip(history: seq<AnalysisEntry>, i: nat, table: map<string, Row>, order: seq<string>)
    requires i < |history| && Tallied(history[..i], table, order)
    requires !Qualifies(history[i])
    ensures Tallied(history[..i + 1], table, order)
  {
    var h, e := history[..i], history[i];
    var he := history[..i + 1];
    assert he == h + [e];
    assert he[..|he| - 1] == h;
    forall id {
      RowForStep(h, e, id);
    }
  }

  /** One pass of the `forEach` over a qualifying entry: its row is created
      when missing (appending the key) and then counts the entry. */
  lemma TallyCount(history: seq<AnalysisEntry>, i: nat, table: map<string, Row>, order: seq<string>)
    requires i < |history| && Tallied(history[..i], table, order)
    requires Qualifies(history[i])
    ensures var e := history[i];
      var id := e.patientId.value;
      var created := if id in table then table else table[id := Row(e.patientName.value, 0, 0)];
      var row := created[id];
      Tallied(history[..i + 1], created[id := row.(analyses := row.analyses + 1, detections := row.detections + |e.detections|)],
              if id in table then order else order + [id])
  {
    var h, e := history[..i], history[i];
    var he := history[..i + 1];
    assert he == h + [e];
    assert he[..|he| - 1] == h;
    forall id {
      RowForStep(h, e, id);
    }
  }

  /** The sort comparator `b.analyses - a.analyses || b.detections -
      a.detections` is negative: `a` goes strictly before `b`. */
  predicate Before(a: Row, b: Row) {
    a.analyses > b.analyses || (a.analyses == b.analyses && a.detections > b.detections)
  }

  /** No row is strictly before one that precedes it. */
  ghost predicate Ordered(s: seq<Row>) {
    forall i, j :: 0 <= i < j < |s| ==> !Before(s[j], s[i])
  }

  /** Inserts `x` before the first row it does not come after. */
  function Insert(x: Row, s: seq<Row>): (r: seq<Row>)
    ensures |r| == |s| + 1
  {
    if s == [] then [x]
    else if Before(s[0], x) then [s[0]] + Insert(x, s[1..])
    else [x] + s
  }

  /** Inserting adds exactly the one row. */
  lemma {:induction false} InsertPermutes(x: Row, s: seq<Row>)
    ensures multiset(Insert(x, s)) == multiset(s) + multiset{x}
  {
    if s != [] && Before(s[0], x) {
      InsertPermutes(x, s[1..]);
      assert s == [s[0]] + s[1..];
    }
  }

  /** Inserting into an ordered list keeps it ordered. */
  lemma {:induction false} InsertOrdered(x: Row, s: seq<Row>)
    requires Ordered(s)
    ensures Ordered(Insert(x, s))
  {
    if s != [] && Before(s[0], x) {
      var rest := Insert(x, s[1..]);
      InsertOrdered(x, s[1..]);
      InsertPermutes(x, s[1..]);
      var r := [s[0]] + rest;
      forall j | 1 <= j < |r| ensures !Before(r[j], s[0]) {
        assert r[j] == rest[j - 1];
        assert rest[j - 1] in multiset(rest);
        assert r[j] in multiset(s[1..]) + multiset{x};
        if r[j] != x {
          assert r[j] in s[1..];
          var k :| 0 <= k < |s[1..]| && s[1..][k] == r[j];
          assert s[k + 1] == r[j];
        }
      }
    } else if s != [] {
      var r := [x] + s;
      forall i, j | 0 <= i < j < |r| ensures !Before(r[j], r[i]) {
        assert r[j] == s[j - 1];
        if i > 0 {
          assert r[i] == s[i - 1];
        } else if j > 1 {
          assert !Before(s[j - 1], s[0]);
        }
      }
    }
  }

  /** Inserting a row adds its values to the totals. */
  lemma {:induction false} InsertTotal(x: Row, s: seq<Row>, m: Metric)
    ensures Total(Insert(x, s), m) == Total(s, m) + Value(x, m)
  {
    if s != [] && Before(s[0], x) {
      InsertTotal(x, s[1..], m);
      assert (([s[0]] + Insert(x, s[1..]))[1..]) == Insert(x, s[1..]);
    } else if s != [] {
      assert ([x] + s)[1..] == s;
    }
  }

  /** The stable sort of the rows (the order `Array.prototype.sort` must
      produce for this comparator): ordered, and a permutation. */
  function SortRows(s: seq<Row>): (r: seq<Row>)
    ensures multiset(r) == multiset(s)
    ensures Ordered(r)
    ensures Total(r, Analyses) == Total(s, Analyses)
    ensures Total(r, Detections) == Total(s, Detections)
  {
    if s == [] then [] else
      assert s == [s[0]] + s[1..];
      var rest := SortRows(s[1..]);
      InsertOrdered(s[0], rest);
      InsertPermutes(s[0], rest);
      InsertTotal(s[0], rest, Analyses);
      InsertTotal(s[0], rest, Detections);
      Insert(s[0], rest)
  }

  /** The rows that tie on both keys, in order. */
  function Ties(s: seq<Row>, analyses: nat, detections: nat): seq<Row> {
    if s == [] then []
    else
      (if s[0].analyses == analyses && s[0].detections == detections then [s[0]] else []) +
      Ties(s[1..], analyses, detections)
  }

  /** The sort is stable: rows that tie keep their relative order. */
  lemma {:induction false} SortStable(s: seq<Row>, a: nat, d: nat)
    ensures Ties(SortRows(s), a, d) == Ties(s, a, d)
  {
    if s != [] {
      SortStable(s[1..], a, d);
      InsertTies(s[0], SortRows(s[1..]), a, d);
    }
  }

  lemma {:induction false} InsertTies(x: Row, s: seq<Row>, a: nat, d: nat)
    ensures Ties(Insert(x, s), a, d) ==
      (if x.analyses == a && x.detections == d then [x] else []) + Ties(s, a, d)
  {
    if s != [] && Before(s[0], x) {
      InsertTies(x, s[1..], a, d);
      var r := Insert(x, s);
      var rest := Ties(s[1..], a, d);
      var xs := if x.analyses == a && x.detections == d then [x] else [];
      var ss := if s[0].analyses == a && s[0].detections == d then [s[0]] else [];
      assert xs == [] || ss == [];
      assert r[0] == s[0] && r[1..] == Insert(x, s[1..]);
      assert Ties(r, a, d) == ss + (xs + rest);
      assert Ties(s, a, d) == ss + rest;
      if xs == [] {
        assert ss + (xs + rest) == ss + rest;
      } else {
        assert ss + (xs + rest) == xs + rest;
      }
    } else if s == [] {
      assert Ties([x], a, d) == (if x.analyses == a && x.detections == d then [x] else []) + Ties([], a, d);
    } else {
      assert ([x] + s)[1..] == s;
    }
  }

  /** `patientData`: the rows of the dictionary, sorted. */
  method PatientData(history: seq<AnalysisEntry>) returns (rows: seq<Row>)
    ensures rows == SortRows(GroupRows(history))
    ensures Ordered(rows) && multiset(rows) == multiset(GroupRows(history))
    ensures |rows| == |Keys(history)|
    ensures Total(rows, Analyses) == QualifiedTotal(history, Analyses)
    ensures Total(rows, Detections) == QualifiedTotal(history, Detections)
  {
    var grouped := Tally(history);
    GroupTotals(history, Analyses);
    GroupTotals(history, Detections);
    rows := SortRows(grouped);
    assert |rows| == |multiset(rows)| == |grouped|;
  }

  /** `displayedPatients`: all rows when "show all" is on, otherwise the
      first five. */
  function Displayed(rows: seq<Row>, showAll: bool): (r: seq<Row>)
    ensures showAll ==> r == rows
    ensures !showAll ==> |r| == (if |rows| < 5 then |rows| else 5) && r == rows[..|r|]
  {
    if showAll then rows else rows[..if |rows| < 5 then |rows| else 5]
  }

  /** The "show all" button is rendered when there are more than five rows. */
  predicate ToggleShown(rows: seq<Row>) {
    |rows| > 5
  }

  /** The button appears exactly when the five-row view hides some rows. */
  lemma ToggleShownIff(rows: seq<Row>)
    ensures ToggleShown(rows) <==> Displayed(rows, false) != rows
  {
    if ToggleShown(rows) {
      assert |Displayed(rows, false)| != |rows|;
    }
  }

  /** The `showAllPatients` state cell. */
  class StatisticsView {
    var showAllPatients: bool

    constructor ()
      ensures !showAllPatients
    {
      showAllPatients := false;
    }

    /** The button's click handler. */
    method ToggleShowAll()
      modifies this
      ensures showAllPatients == !old(showAllPatients)
    {
      showAllPatients := !showAllPatients;
    }

    function DisplayedPatients(rows: seq<Row>): (r: seq<Row>)
      reads this
      ensures showAllPatients ==> r == rows
      ensures !showAllPatients ==> r == rows[..if |rows| < 5 then |rows| else 5]
    {
      Displayed(rows, showAllPatients)
    }
  }
}
