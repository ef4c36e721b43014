/**
 * What the two file panels (src/components/ChatSidebar.js and
 * src/components/FileManager.js) share: the file records the server lists,
 * the outcomes of list, upload and delete requests, and the pure helpers for
 * icons, type labels, upload percentages and the drag highlight.
 */
module Assets {

  import opened Options
  import opened Text

  /** A stored document as the server lists it (its byte size is shown only formatted). */
  datatype FileEntry = FileEntry(
    id: string, originalName: string, mimetype: string, formattedSize: string, uploadedAt: string)

  datatype FileStats = FileStats(totalFiles: nat, totalSize: string)

  /** How `GET /api/files` ends: a body (whose fields may be missing), a non-2xx status, or a thrown error. */
  datatype ListReply =
    | Listed(files: Option<seq<FileEntry>>, stats: Option<FileStats>)
    | ListHttpError(status: nat)
    | ListFailed(message: string)

  /** How `DELETE /api/files/{id}` ends. */
  datatype DeleteReply =
    | Deleted
    | DeleteHttpError(status: nat)
    | DeleteFailed(message: string)

  /** An upload `progress` event: whether the total is known, bytes sent, bytes in all. */
  datatype ProgressEvent = ProgressEvent(lengthComputable: bool, loaded: nat, total: nat)

  /** A request put on the wire (the network's view of a panel, not program state). */
  datatype Request = GetFiles | PostFile(name: string) | DeleteById(id: string)

  /** Status of a successful upload. */
  const Created: nat := 201

  /** `err.message` of a failed list or delete request. */
  function HttpFailureMessage(status: nat): (r: string)
    ensures StartsWith(r, "HTTP ")
    ensures forall k :: 5 <= k < |r| ==> IsDigit(r[k])
    ensures DecimalValue(r[5..]) == status
  {
    var digits := NatToString(status);
    NatToStringRoundTrip(status);
    assert ("HTTP " + digits)[5..] == digits;
    "HTTP " + digits
  }

  /** One upload request per file, in the order given (`files.forEach(uploadFile)`). */
  function Uploads(names: seq<string>): (r: seq<Request>)
    ensures |r| == |names|
    ensures forall i :: 0 <= i < |names| ==> r[i] == PostFile(names[i])
  {
    seq(|names|, i requires 0 <= i < |names| => PostFile(names[i]))
  }

  /**
   * The list after a reload: the listed files, none when the body lists none
   * (`data.files || []`), and the current list when the request failed.
   */
  function ListedFiles(reply: ListReply, current: seq<FileEntry>): (r: seq<FileEntry>)
    ensures !reply.Listed? ==> r == current
    ensures reply.Listed? && reply.files.Some? ==> r == reply.files.value
    ensures reply.Listed? && reply.files.None? ==> r == []
  {
    if reply.Listed? then reply.files.GetOr([]) else current
  }

  // ---------------------------------------------------------------- icons

  /** The six icons a file can get, from `getFileIcon`. */
  datatype Icon = ImageIcon | PdfIcon | WordIcon | SheetIcon | TextIcon | FolderIcon

  /** The glyph drawn for an icon; only a type no test recognises is drawn as the folder. */
  function Glyph(icon: Icon): (r: string)
    ensures r == "📁" <==> icon == FolderIcon
  {
    match icon
    case ImageIcon => "🖼️"
    case PdfIcon => "📄"
    case WordIcon => "📝"
    case SheetIcon => "📊"
    case TextIcon => "📃"
    case FolderIcon => "📁"
  }

  predicate IsImage(m: string) { StartsWith(m, "image/") }
  predicate IsPdf(m: string) { Contains(m, "pdf") }
  predicate IsWord(m: string) { Contains(m, "word") }
  predicate IsSheet(m: string) { Contains(m, "excel") || Contains(m, "sheet") }
  predicate IsText(m: string) { Contains(m, "text") }

  /**
   * `getFileIcon`: the tests are tried in a fixed order and the first that holds
   * decides; a type no test recognises gets the folder.
   */
  function GetFileIcon(mimetype: string): (r: Icon)
    ensures r == ImageIcon <==> IsImage(mimetype)
    ensures r == PdfIcon ==> !IsImage(mimetype) && IsPdf(mimetype)
    ensures r == WordIcon ==> !IsImage(mimetype) && !IsPdf(mimetype) && IsWord(mimetype)
    ensures r == SheetIcon ==> !IsImage(mimetype) && !IsPdf(mimetype) && !IsWord(mimetype) && IsSheet(mimetype)
    ensures r == TextIcon ==> !IsImage(mimetype) && !IsPdf(mimetype) && !IsWord(mimetype) && !IsSheet(mimetype)
                              && IsText(mimetype)
    ensures r == FolderIcon <==> !IsImage(mimetype) && !IsPdf(mimetype) && !IsWord(mimetype)
                                 && !IsSheet(mimetype) && !IsText(mimetype)
  {
    if IsImage(mimetype) then ImageIcon
    else if IsPdf(mimetype) then PdfIcon
    else if IsWord(mimetype) then WordIcon
    else if IsSheet(mimetype) then SheetIcon
    else if IsText(mimetype) then TextIcon
    else FolderIcon
  }

  /**
   * The upload picker offers any image, .pdf, .txt, .doc, .docx, .xls and .xlsx;
   * each of these gets an icon of its own rather than the folder. Images, PDF
   * and plain text:
   */
  lemma PickerTypesHaveIcons(imageSubtype: string)
    ensures GetFileIcon("image/" + imageSubtype) == ImageIcon
    ensures GetFileIcon("application/pdf") == PdfIcon
    ensures GetFileIcon("text/plain") != FolderIcon
  {
    assert ("image/" + imageSubtype)[..6] == "image/";
    assert OccursAt("application/pdf", "pdf", 12);
    assert "application/pdf"[0] != "image/"[0];
    assert OccursAt("text/plain", "text", 0);
  }

  /** The Word types the picker offers (.doc, .docx) get an icon of their own. */
  lemma WordTypesHaveIcons()
    ensures GetFileIcon("application/msword") != FolderIcon
    ensures GetFileIcon("application/vnd.openxmlformats-officedocument.wordprocessingml.document") != FolderIcon
  {
    assert OccursAt("application/msword", "word", 14);
    var docx := "application/vnd.openxmlformats-officedocument.wordprocessingml.document";
    assert docx[46] == 'w' && docx[47] == 'o' && docx[48] == 'r' && docx[49] == 'd';
    assert docx[46..50] == "word";
    assert OccursAt(docx, "word", 46);
  }

  /** The spreadsheet types the picker offers (.xls, .xlsx) get an icon of their own. */
  lemma SheetTypesHaveIcons()
    ensures GetFileIcon("application/vnd.ms-excel") != FolderIcon
    ensures GetFileIcon("application/vnd.openxmlformats-officedocument.spreadsheetml.sheet") != FolderIcon
  {
    assert OccursAt("application/vnd.ms-excel", "excel", 19);
    assert OccursAt("application/vnd.openxmlformats-officedocument.spreadsheetml.sheet", "sheet", 52);
  }

  // ---------------------------------------------------------------- type label

  /**
   * `mimetype.split('/')[1]?.toUpperCase()`: the subtype in capitals, absent when
   * the type has no `/`.
   */
  function TypeLabel(mimetype: string): (r: Option<string>)
    ensures r.None? <==> '/' !in mimetype
    ensures r.Some? ==> '/' !in r.value
    ensures r.Some? ==> forall k :: 0 <= k < |r.value| ==> !('a' <= r.value[k] <= 'z')
  {
    match SecondSegment(mimetype)
    case None => None
    case Some(sub) => Some(ToUpper(sub))
  }

  /** The label of `type/subtype` is the subtype, capitalised. */
  lemma TypeLabelOf(kind: string, subtype: string)
    requires '/' !in kind && '/' !in subtype
    ensures TypeLabel(kind + "/" + subtype) == Some(ToUpper(subtype))
  {
    SecondSegmentOf(kind, subtype, "");
    assert kind + "/" + subtype + "" == kind + "/" + subtype;
  }

  // ---------------------------------------------------------------- upload progress

  /**
   * `Math.round(loaded / total * 100)` in exact arithmetic: the integer nearest
   * to the percentage, halves rounded up.
   */
  function RoundPercent(loaded: nat, total: nat): (p: nat)
    requires total > 0
    ensures 2 * total * p <= 200 * loaded + total < 2 * total * (p + 1)
    ensures loaded <= total ==> p <= 100
    ensures loaded == total ==> p == 100
    ensures loaded == 0 ==> p == 0
  {
    var p := (200 * loaded + total) / (2 * total);
    PercentBounds(loaded, total, p);
    p
  }

  /** The bounds of the nearest-integer percentage, from its defining inequalities. */
  lemma PercentBounds(loaded: nat, total: nat, p: nat)
    requires total > 0
    requires p == (200 * loaded + total) / (2 * total)
    ensures 2 * total * p <= 200 * loaded + total < 2 * total * (p + 1)
    ensures loaded <= total ==> p <= 100
    ensures loaded == total ==> p == 100
    ensures loaded == 0 ==> p == 0
  {
    var x, d := 200 * loaded + total, 2 * total;
    assert d * p <= x < d * p + d;
    if loaded <= total {
      MulCancel(p, 101, d);
    }
    if loaded == total {
      assert d * 100 <= x;
      MulCancel(100, p + 1, d);
    }
    if loaded == 0 {
      MulCancel(p, 1, d);
    }
  }

  /** Multiplying by a positive `d` keeps a strict order between naturals, and conversely. */
  lemma MulCancel(a: nat, b: nat, d: nat)
    requires d > 0
    requires d * a < d * b
    ensures a < b
  {
    if a >= b {
      MulMono(b, a, d);
    }
  }

  lemma MulMono(a: nat, b: nat, d: nat)
    requires a <= b
    ensures d * a <= d * b
  {
    assert d * b == d * a + d * (b - a);
  }

  /** More bytes sent never shows a smaller percentage. */
  lemma RoundPercentMonotone(loaded1: nat, loaded2: nat, total: nat)
    requires total > 0 && loaded1 <= loaded2
    ensures RoundPercent(loaded1, total) <= RoundPercent(loaded2, total)
  {
    var p1, p2 := RoundPercent(loaded1, total), RoundPercent(loaded2, total);
    var d := 2 * total;
    assert d * p1 <= 200 * loaded1 + total <= 200 * loaded2 + total < d * (p2 + 1);
    MulCancel(p1, p2 + 1, d);
  }

  /** The progress shown after an event: recomputed only when the total is known. */
  function ProgressAfter(event: ProgressEvent, current: nat): (p: nat)
    requires event.lengthComputable ==> event.total > 0
    ensures !event.lengthComputable ==> p == current
    ensures event.lengthComputable ==> p == RoundPercent(event.loaded, event.total)
    ensures event.lengthComputable && event.loaded <= event.total ==> p <= 100
  {
    if event.lengthComputable then RoundPercent(event.loaded, event.total) else current
  }

  // ---------------------------------------------------------------- drag highlight

  /** `handleDrag`: enter and over switch the highlight on, leave switches it off, anything else keeps it. */
  function NextDragActive(eventType: string, current: bool): (r: bool)
    ensures eventType == "dragenter" || eventType == "dragover" ==> r
    ensures eventType == "dragleave" ==> !r
    ensures eventType != "dragenter" && eventType != "dragover" && eventType != "dragleave" ==> r == current
  {
    if eventType == "dragenter" || eventType == "dragover" then true
    else if eventType == "dragleave" then false
    else current
  }

  /** The highlight after a run of drag events, from `current`. */
  function DragAfter(events: seq<string>, current: bool): bool {
    if events == [] then current else DragAfter(events[1..], NextDragActive(events[0], current))
  }

  predicate IsDragSwitch(eventType: string) {
    eventType == "dragenter" || eventType == "dragover" || eventType == "dragleave"
  }

  /** Events other than enter, over and leave leave the highlight as it was. */
  lemma {:induction false} DragKeepsWithoutSwitch(events: seq<string>, current: bool)
    requires forall i :: 0 <= i < |events| ==> !IsDragSwitch(events[i])
    ensures DragAfter(events, current) == current
  {
    if events != [] {
      assert forall j :: 0 <= j < |events| - 1 ==> events[1..][j] == events[j + 1];
      DragKeepsWithoutSwitch(events[1..], current);
    }
  }

  /**
   * Only the most recent enter, over or leave event matters: the highlight is on
   * exactly when that event was not a leave.
   */
  lemma {:induction false} DragFollowsLastSwitch(events: seq<string>, current: bool, i: nat)
    requires i < |events| && IsDragSwitch(events[i])
    requires forall j :: i < j < |events| ==> !IsDragSwitch(events[j])
    ensures DragAfter(events, current) == (events[i] != "dragleave")
  {
    var next := NextDragActive(events[0], current);
    assert forall j :: 0 <= j < |events| - 1 ==> events[1..][j] == events[j + 1];
    if i == 0 {
      DragKeepsWithoutSwitch(events[1..], next);
    } else {
      DragFollowsLastSwitch(events[1..], next, i - 1);
    }
  }
}
