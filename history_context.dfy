/** The analysis history store (`HistoryProvider`): an in-memory list of
    analysis entries, newest first, kept in step with the
    `"analysisHistory"` key of `localStorage`. */
module HistoryContext {
  import opened JsValues

  /** One detected region: pixel coordinates and the free-text `label`
      (`label` is a Dafny keyword, hence `labelText`). */
  datatype DetectionBox = DetectionBox(x1: real, y1: real, x2: real, y2: real, labelText: string)

  /** The doctor snapshot an entry may carry. */
  datatype DoctorInfo = DoctorInfo(name: string, crm: string, specialty: string, uf: string)

  /** One completed analysis. `patientId`, `patientName` and
      `imageWithDetections` may be absent. */
  datatype AnalysisEntry = AnalysisEntry(
    id: string,
    fileName: string,
    imageUrl: string,
    imageWithDetections: Option<string>,
    timestamp: int,
    detections: seq<DetectionBox>,
    patientId: Option<string>,
    patientName: Option<string>,
    doctorInfo: Option<DoctorInfo>)

  /** What callers hand to `addToHistory`: an entry without `id` and
      `timestamp`. */
  datatype Payload = Payload(
    fileName: string,
    imageUrl: string,
    imageWithDetections: Option<string>,
    detections: seq<DetectionBox>,
    patientId: Option<string>,
    patientName: Option<string>,
    doctorInfo: Option<DoctorInfo>)

  /** The `localStorage` key the history lives under. */
  const HistoryKey: string := "analysisHistory"

  /** The payload part of an entry: everything but `id` and `timestamp`. */
  function PayloadOf(e: AnalysisEntry): Payload {
    Payload(e.fileName, e.imageUrl, e.imageWithDetections, e.detections,
            e.patientId, e.patientName, e.doctorInfo)
  }

  /** `{ ...entry, id, timestamp }`: the payload unchanged, plus the given
      identity and time. */
  function Stamp(p: Payload, id: string, now: int): (e: AnalysisEntry)
    ensures PayloadOf(e) == p && e.id == id && e.timestamp == now
  {
    AnalysisEntry(id, p.fileName, p.imageUrl, p.imageWithDetections, now,
                  p.detections, p.patientId, p.patientName, p.doctorInfo)
  }

  /** Every entry is its payload stamped with its own id and timestamp. */
  lemma StampPayloadOf(e: AnalysisEntry)
    ensures Stamp(PayloadOf(e), e.id, e.timestamp) == e
  {
  }

  function Ids(h: seq<AnalysisEntry>): (r: set<string>)
    ensures forall k :: 0 <= k < |h| ==> h[k].id in r
    ensures forall id :: id in r ==> exists k :: 0 <= k < |h| && h[k].id == id
  {
    set k | 0 <= k < |h| :: h[k].id
  }

  /** No two entries share an id. */
  ghost predicate IdsDistinct(h: seq<AnalysisEntry>) {
    forall i, j :: 0 <= i < j < |h| ==> h[i].id != h[j].id
  }

  /** Timestamps never increase along the list: the head is the newest. */
  ghost predicate NewestFirst(h: seq<AnalysisEntry>) {
    forall i, j :: 0 <= i < j < |h| ==> h[i].timestamp >= h[j].timestamp
  }

  /** What the load effect makes of the stored value: a parsed list becomes
      the history; a missing key, an empty string or text that does not
      parse leaves the history empty. */
  function Loaded(saved: Storage<seq<AnalysisEntry>>): (h: seq<AnalysisEntry>)
    ensures HistoryKey in saved && saved[HistoryKey].Json? ==> h == saved[HistoryKey].value
    ensures !(HistoryKey in saved && saved[HistoryKey].Json?) ==> h == []
  {
    if HistoryKey in saved then
      match saved[HistoryKey]
      case Json(entries) => entries
      case EmptyText => []
      case Unparseable => []
    else []
  }

  /** One call of `addToHistory`, with the id and the clock reading it got. */
  datatype Add = Add(payload: Payload, id: string, now: int)

  /** The history after the given calls of `addToHistory`, in call order. */
  function Replay(h: seq<AnalysisEntry>, adds: seq<Add>): seq<AnalysisEntry> {
    if adds == [] then h
    else
      var last := adds[|adds| - 1];
      [Stamp(last.payload, last.id, last.now)] + Replay(h, adds[..|adds| - 1])
  }

  /** After `n` adds the history has `n` more entries: the newest add first,
      then the others in reverse call order, then the old history
      unchanged. */
  lemma {:induction false} ReplayShape(h: seq<AnalysisEntry>, adds: seq<Add>)
    ensures |Replay(h, adds)| == |h| + |adds|
    ensures forall k :: 0 <= k < |adds| ==>
      Replay(h, adds)[k] == Stamp(adds[|adds| - 1 - k].payload, adds[|adds| - 1 - k].id, adds[|adds| - 1 - k].now)
    ensures Replay(h, adds)[|adds|..] == h
  {
    if adds != [] {
      var init := adds[..|adds| - 1];
      ReplayShape(h, init);
      var r := Replay(h, adds);
      assert r[1..] == Replay(h, init);
      forall k | 1 <= k < |adds|
        ensures r[k] == Stamp(adds[|adds| - 1 - k].payload, adds[|adds| - 1 - k].id, adds[|adds| - 1 - k].now)
      {
        assert r[k] == Replay(h, init)[k - 1];
        assert init[|init| - 1 - (k - 1)] == adds[|adds| - 1 - k];
      }
      assert r[|adds|..] == Replay(h, init)[|init|..];
    }
  }

  /** Fresh, pairwise distinct ids keep the ids of the history distinct. */
  lemma {:induction false} ReplayIdsDistinct(h: seq<AnalysisEntry>, adds: seq<Add>)
    requires IdsDistinct(h)
    requires forall k :: 0 <= k < |adds| ==> adds[k].id !in Ids(h)
    requires forall i, j :: 0 <= i < j < |adds| ==> adds[i].id != adds[j].id
    ensures IdsDistinct(Replay(h, adds))
  {
    if adds != [] {
      var init := adds[..|adds| - 1];
      ReplayIdsDistinct(h, init);
      ReplayIds(h, init);
      PrependIdsDistinct(Replay(h, init), Stamp(adds[|adds| - 1].payload, adds[|adds| - 1].id, adds[|adds| - 1].now));
    }
  }

  /** The ids of a list of adds are those of all but the last, and the
      last one's. */
  lemma AddedIdsLast(adds: seq<Add>)
    requires adds != []
    ensures var init := adds[..|adds| - 1];
      (set k | 0 <= k < |adds| :: adds[k].id) ==
      (set k | 0 <= k < |init| :: init[k].id) + {adds[|adds| - 1].id}
  {
    var init := adds[..|adds| - 1];
    var added := set k | 0 <= k < |adds| :: adds[k].id;
    var addedInit := set k | 0 <= k < |init| :: init[k].id;
    forall x | x in added ensures x in addedInit + {adds[|adds| - 1].id} {
      var k :| 0 <= k < |adds| && adds[k].id == x;
      if k < |init| {
        assert init[k] == adds[k];
      }
    }
    forall x | x in addedInit ensures x in added {
      var k :| 0 <= k < |init| && init[k].id == x;
      assert adds[k] == init[k];
    }
  }

  /** The ids after a replay are the old ids and the added ones. */
  lemma {:induction false} ReplayIds(h: seq<AnalysisEntry>, adds: seq<Add>)
    ensures Ids(Replay(h, adds)) == Ids(h) + (set k | 0 <= k < |adds| :: adds[k].id)
  {
    if adds != [] {
      var init := adds[..|adds| - 1];
      ReplayIds(h, init);
      var last := adds[|adds| - 1];
      var r := Replay(h, adds);
      assert r == [Stamp(last.payload, last.id, last.now)] + Replay(h, init);
      PrependIds(Replay(h, init), r[0]);
      AddedIdsLast(adds);
    }
  }

  lemma PrependIds(h: seq<AnalysisEntry>, e: AnalysisEntry)
    ensures Ids([e] + h) == Ids(h) + {e.id}
  {
    var r := [e] + h;
    assert r[0] == e;
    forall x | x in Ids(h) ensures x in Ids(r) {
      var k :| 0 <= k < |h| && h[k].id == x;
      assert r[k + 1] == h[k];
    }
    forall x | x in Ids(r) ensures x in Ids(h) + {e.id} {
      var k :| 0 <= k < |r| && r[k].id == x;
      if k > 0 {
        assert r[k] == h[k - 1];
      }
    }
  }

  /** Prepending an entry with a fresh id keeps the ids distinct. */
  lemma PrependIdsDistinct(h: seq<AnalysisEntry>, e: AnalysisEntry)
    requires IdsDistinct(h) && e.id !in Ids(h)
    ensures IdsDistinct([e] + h)
  {
    var r := [e] + h;
    forall i, j | 0 <= i < j < |r| ensures r[i].id != r[j].id {
      assert r[j] == h[j - 1];
      if i > 0 {
        assert r[i] == h[i - 1];
      }
    }
  }

  /** Prepending an entry no older than the head keeps newest-first order. */
  lemma PrependNewestFirst(h: seq<AnalysisEntry>, e: AnalysisEntry)
    requires NewestFirst(h)
    requires h != [] ==> e.timestamp >= h[0].timestamp
    ensures NewestFirst([e] + h)
  {
    var r := [e] + h;
    forall i, j | 0 <= i < j < |r| ensures r[i].timestamp >= r[j].timestamp {
      assert r[j] == h[j - 1];
      if i > 0 {
        assert r[i] == h[i - 1];
      }
    }
  }

  /** `HistoryProvider`: the `history` state cell and, standing for
      `localStorage`, the stored values by key. The save effect keeps the
      stored `"analysisHistory"` equal to `history` after every change. */
  class HistoryProvider {
    var history: seq<AnalysisEntry>
    var storage: Storage<seq<AnalysisEntry>>

    /** The stored list is the in-memory list. */
    ghost predicate Valid()
      reads this
    {
      HistoryKey in storage && storage[HistoryKey] == Json(history)
    }

    /** Mounting the provider: the load effect, then the save effect. */
    constructor (saved: Storage<seq<AnalysisEntry>>)
      ensures Valid()
      ensures history == Loaded(saved)
      ensures storage == saved[HistoryKey := Json(history)]
    {
      history := [];
      storage := saved;
      new;
      Load();
      Persist();
    }

    /** The load effect: a stored list replaces the history; anything else
        (a missing key, an empty string, a parse failure) leaves it alone. */
    method Load()
      modifies this`history
      ensures history == (if HistoryKey in storage && storage[HistoryKey].Json?
                          then storage[HistoryKey].value else old(history))
    {
      if HistoryKey in storage {
        match storage[HistoryKey]
        case Json(entries) =>
          history := entries;
        case EmptyText =>
        case Unparseable =>
      }
    }

    /** The save effect: writes the whole history under its key and touches
        no other key. */
    method Persist()
      modifies this`storage
      ensures storage == old(storage)[HistoryKey := Json(history)]
      ensures Valid()
    {
      storage := storage[HistoryKey := Json(history)];
    }

    /** `addToHistory`: stamps the payload with a fresh id and the current
        time and prepends it. */
    method AddToHistory(payload: Payload, id: string, now: int)
      requires Valid()
      requires id !in Ids(history)
      modifies this
      ensures Valid()
      ensures history == [Stamp(payload, id, now)] + old(history)
      ensures history == Replay(old(history), [Add(payload, id, now)])
      ensures storage == old(storage)[HistoryKey := Json(history)]
      ensures IdsDistinct(old(history)) ==> IdsDistinct(history)
      ensures NewestFirst(old(history)) && (old(history) != [] ==> now >= old(history)[0].timestamp)
              ==> NewestFirst(history)
    {
      var entry := Stamp(payload, id, now);
      if IdsDistinct(history) {
        PrependIdsDistinct(history, entry);
      }
      if NewestFirst(history) && (history != [] ==> now >= history[0].timestamp) {
        PrependNewestFirst(history, entry);
      }
      history := [entry] + history;
      Persist();
    }

    /** `clearHistory`: empties the list, and the save effect stores the
        empty list. */
    method ClearHistory()
      modifies this
      ensures Valid()
      ensures history == []
      ensures storage == old(storage)[HistoryKey := Json([])]
    {
      history := [];
      Persist();
    }
  }

  /** Remounting over what a provider saved gives back the same history:
      nothing added is lost between sessions. */
  method Reopen(p: HistoryProvider) returns (q: HistoryProvider)
    requires p.Valid()
    ensures fresh(q) && q.Valid()
    ensures q.history == p.history && q.storage == p.storage
  {
    q := new HistoryProvider(p.storage);
  }
}
