/** The analyses list of one patient (`PatientAnalysesList`): the entries
    filtered by patient, the download link and name, and where `exportToPDF`
    places each line of its report. */
module PatientAnalysesList {
  import opened JsValues
  import opened HistoryContext

  /** `entry.patientId === patientId` (an absent id equals no string). */
  predicate ForPatient(e: AnalysisEntry, patientId: string) {
    e.patientId == Some(patientId)
  }

  /** `history.filter(entry => entry.patientId === patientId)`. */
  function PatientAnalyses(h: seq<AnalysisEntry>, patientId: string): (r: seq<AnalysisEntry>)
    ensures |r| <= |h|
    ensures forall k :: 0 <= k < |r| ==> ForPatient(r[k], patientId) && r[k] in h
    ensures forall k :: 0 <= k < |h| && ForPatient(h[k], patientId) ==> h[k] in r
  {
    if h == [] then []
    else
      var init := PatientAnalyses(h[..|h| - 1], patientId);
      if ForPatient(h[|h| - 1], patientId) then init + [h[|h| - 1]] else init
  }

  /** The filter works piecewise, so the kept entries stay in their original
      relative order. */
  lemma {:induction false} PatientAnalysesConcat(a: seq<AnalysisEntry>, b: seq<AnalysisEntry>, patientId: string)
    ensures PatientAnalyses(a + b, patientId) == PatientAnalyses(a, patientId) + PatientAnalyses(b, patientId)
  {
    if b == [] {
      assert a + b == a;
    } else {
      PatientAnalysesConcat(a, b[..|b| - 1], patientId);
      assert (a + b)[..|a + b| - 1] == a + b[..|b| - 1];
    }
  }

  /** Filtering twice by the same patient changes nothing more. */
  lemma {:induction false} PatientAnalysesIdempotent(h: seq<AnalysisEntry>, patientId: string)
    ensures PatientAnalyses(PatientAnalyses(h, patientId), patientId) == PatientAnalyses(h, patientId)
  {
    if h != [] {
      var init := h[..|h| - 1];
      PatientAnalysesIdempotent(init, patientId);
      var r := PatientAnalyses(init, patientId);
      if ForPatient(h[|h| - 1], patientId) {
        PatientAnalysesConcat(r, [h[|h| - 1]], patientId);
        assert [h[|h| - 1]][..0] == [];
      }
    }
  }

  /** The empty-state card is rendered exactly when no entry belongs to the
      patient. */
  lemma {:induction false} EmptyStateIff(h: seq<AnalysisEntry>, patientId: string)
    ensures PatientAnalyses(h, patientId) == [] <==> forall k :: 0 <= k < |h| ==> !ForPatient(h[k], patientId)
  {
    if h != [] {
      var init := h[..|h| - 1];
      EmptyStateIff(init, patientId);
      if PatientAnalyses(h, patientId) == [] {
        forall k | 0 <= k < |h| ensures !ForPatient(h[k], patientId) {
          if k < |h| - 1 {
            assert h[k] == init[k];
          }
        }
      }
      if forall k :: 0 <= k < |h| ==> !ForPatient(h[k], patientId) {
        forall k | 0 <= k < |init| ensures !ForPatient(init[k], patientId) {
          assert init[k] == h[k];
        }
      }
    }
  }

  const DefaultImageName: string := "imagem_analise.png"

  /** `link.href`: the image with the boxes drawn when there is one,
      otherwise the uploaded image. */
  function DownloadHref(e: AnalysisEntry): (href: string)
    ensures Truthy(e.imageWithDetections) ==> href == e.imageWithDetections.value
    ensures !Truthy(e.imageWithDetections) ==> href == e.imageUrl
  {
    OrElse(e.imageWithDetections, e.imageUrl)
  }

  /** `link.download`: the upload's file name, or a fixed default when it
      is empty; the downloaded file always has a name. */
  function DownloadName(e: AnalysisEntry): (name: string)
    ensures name != ""
    ensures e.fileName != "" ==> name == e.fileName
    ensures e.fileName == "" ==> name == DefaultImageName
  {
    OrElse(Some(e.fileName), DefaultImageName)
  }

  /** What `exportToPDF` writes on a line of the report. */
  datatype LineText =
    | Title
    | FileLine(fileName: string)
    | DateLine(timestamp: int)
    | TimeLine(timestamp: int)
    | CountLine(count: nat)
    | PatientLine(patientName: string)
    | DetectionLine(number: nat, labelText: string)

  /** A text line and its vertical position. */
  datatype PdfLine = PdfLine(y: int, text: LineText)

  /** The report: its text lines in the order they are written, where the
      image goes (when there is one) and the file name it is saved under. */
  datatype PdfReport = PdfReport(lines: seq<PdfLine>, imageY: Option<int>, fileName: string)

  /** The y position of detection line `i` (counting from 0). */
  function DetectionY(hasPatient: bool, i: nat): int {
    (if hasPatient then 85 else 75) + i * 10
  }

  /** The y position of the image: `startY`. */
  function ImageY(hasPatient: bool, n: nat): int {
    if hasPatient then 90 + n * 10 else 80 + n * 10
  }

  /** `analise_${entry.id}.pdf`. */
  function PdfFileName(id: string): (name: string)
    ensures |name| == |id| + 12 && name[8..|name| - 4] == id
    ensures name[..8] == "analise_" && name[|name| - 4..] == ".pdf"
  {
    "analise_" + id + ".pdf"
  }

  /** The file name gives back the entry id, so two different entries never
      share a report name. */
  lemma PdfFileNameInjective(a: string, b: string)
    requires PdfFileName(a) == PdfFileName(b)
    ensures a == b
  {
    assert a == PdfFileName(a)[8..|PdfFileName(a)| - 4];
  }

  /** The lines above the detections: title, file, date, time, count and,
      when there is a patient name, the patient; each 10 units below the
      previous one, the first two 15 apart. */
  function HeaderLines(e: AnalysisEntry): (r: seq<PdfLine>)
    ensures |r| == if Truthy(e.patientName) then 6 else 5
    ensures Descending(r)
    ensures r[|r| - 1].y == if Truthy(e.patientName) then 75 else 65
  {
    [PdfLine(20, Title), PdfLine(35, FileLine(e.fileName)), PdfLine(45, DateLine(e.timestamp)),
     PdfLine(55, TimeLine(e.timestamp)), PdfLine(65, CountLine(|e.detections|))]
    + (if Truthy(e.patientName) then [PdfLine(75, PatientLine(e.patientName.value))] else [])
  }

  /** One line per detection, numbered from 1, 10 units apart. */
  function DetectionLines(e: AnalysisEntry): (r: seq<PdfLine>)
    ensures |r| == |e.detections|
    ensures Descending(r)
  {
    seq(|e.detections|, i requires 0 <= i < |e.detections| =>
      PdfLine(DetectionY(Truthy(e.patientName), i), DetectionLine(i + 1, e.detections[i].labelText)))
  }

  /** `exportToPDF(entry)`, without the drawing itself: the header and one
      line per detection; with an image, the image at `startY` and then the
      save; without one, the save straight away. */
  function ExportToPdf(e: AnalysisEntry): (r: PdfReport)
    ensures |r.lines| == (if Truthy(e.patientName) then 6 else 5) + |e.detections|
    ensures r.imageY.Some? <==> Truthy(e.imageWithDetections)
    ensures r.imageY.Some? ==> r.imageY.value == (if Truthy(e.patientName) then 90 else 80) + 10 * |e.detections|
    ensures r.fileName == "analise_" + e.id + ".pdf"
  {
    var lines := HeaderLines(e) + DetectionLines(e);
    if Truthy(e.imageWithDetections) then
      PdfReport(lines, Some(ImageY(Truthy(e.patientName), |e.detections|)), PdfFileName(e.id))
    else
      PdfReport(lines, None, PdfFileName(e.id))
  }

  /** Lines go strictly down the page. */
  ghost predicate Descending(lines: seq<PdfLine>) {
    forall i, j :: 0 <= i < j < |lines| ==> lines[i].y < lines[j].y
  }

  /** Two descending runs, the second starting below the end of the first,
      make one. */
  lemma DescendingConcat(a: seq<PdfLine>, b: seq<PdfLine>)
    requires Descending(a) && Descending(b)
    requires a != [] && b != [] ==> a[|a| - 1].y < b[0].y
    ensures Descending(a + b)
  {
    forall i, j | 0 <= i < j < |a + b| ensures (a + b)[i].y < (a + b)[j].y {
      if i < |a| && j >= |a| {
        assert (a + b)[i] == a[i] && (a + b)[j] == b[j - |a|];
        if i < |a| - 1 {
          assert a[i].y < a[|a| - 1].y;
        }
        if j - |a| > 0 {
          assert b[0].y < b[j - |a|].y;
        }
      }
    }
  }

  /** The report's lines never overlap: each is written below the previous
      one. */
  lemma ReportDescending(e: AnalysisEntry)
    ensures Descending(ExportToPdf(e).lines)
  {
    var head, dets := HeaderLines(e), DetectionLines(e);
    assert ExportToPdf(e).lines == head + dets;
    if dets != [] {
      assert dets[0].y == DetectionY(Truthy(e.patientName), 0);
    }
    DescendingConcat(head, dets);
  }

  /** Detection line `i` (counting from 0) reads "`i + 1`. label" and is at
      85 + 10i below a patient line, at 75 + 10i without one. */
  lemma DetectionLinePositions(e: AnalysisEntry)
    ensures var r := ExportToPdf(e);
      forall i :: 0 <= i < |e.detections| ==>
        r.lines[|r.lines| - |e.detections| + i] ==
        PdfLine(if Truthy(e.patientName) then 85 + 10 * i else 75 + 10 * i,
                DetectionLine(i + 1, e.detections[i].labelText))
  {
    var head, dets := HeaderLines(e), DetectionLines(e);
    var lines := head + dets;
    assert ExportToPdf(e).lines == lines;
    forall i | 0 <= i < |e.detections|
      ensures lines[|lines| - |e.detections| + i] ==
        PdfLine(if Truthy(e.patientName) then 85 + 10 * i else 75 + 10 * i,
                DetectionLine(i + 1, e.detections[i].labelText))
    {
      assert lines[|head| + i] == dets[i];
    }
  }

  /** When there is an image it starts 15 units below the last line
      written, so below every line. */
  lemma ImageBelowLines(e: AnalysisEntry)
    ensures var r := ExportToPdf(e);
      r.imageY.Some? ==>
        && r.imageY.value == r.lines[|r.lines| - 1].y + 15
        && forall k :: 0 <= k < |r.lines| ==> r.lines[k].y < r.imageY.value
  {
    var r := ExportToPdf(e);
    var head, dets := HeaderLines(e), DetectionLines(e);
    assert r.lines == head + dets;
    ReportDescending(e);
    if r.imageY.Some? {
      var last := r.lines[|r.lines| - 1];
      if dets == [] {
        assert last == head[|head| - 1];
      } else {
        assert last == dets[|dets| - 1];
      }
      forall k | 0 <= k < |r.lines| ensures r.lines[k].y < r.imageY.value {
        if k < |r.lines| - 1 {
          assert r.lines[k].y < last.y;
        }
      }
    }
  }

  /** Both branches of `exportToPDF` save under the same name. */
  lemma SameNameWithOrWithoutImage(e: AnalysisEntry)
    ensures ExportToPdf(e).fileName == ExportToPdf(e.(imageWithDetections := None)).fileName
  {
  }
}
