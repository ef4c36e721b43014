/**
 * The file manager page (src/components/FileManager.js): the file list and its
 * statistics, the upload indicator, the drag highlight, and one error and one
 * success message, all driven by request outcomes and user events.
 */
module FileManager {

  import opened Options
  import opened Text
  import opened Assets

  /** The statistics shown before the first load. */
  const InitialStats: FileStats := FileStats(0, "0 Bytes")

  const UnknownError: string := "Неизвестная ошибка"
  const UploadNetworkError: string := "Ошибка сети при загрузке файла"

  const LoadErrorPrefix: string := "Ошибка загрузки файлов: "
  const DeleteErrorPrefix: string := "Ошибка удаления файла: "

  /** The list error names what went wrong after its own prefix. */
  function LoadErrorText(detail: string): (r: string)
    ensures StartsWith(r, LoadErrorPrefix) && OccursAt(r, detail, |LoadErrorPrefix|)
  {
    LoadErrorPrefix + detail
  }

  /** The success message of an upload names the stored file. */
  function UploadSuccessText(name: string): (r: string)
    ensures OccursAt(r, name, 6)
    ensures EndsWith(r, UploadedSuffix)
  {
    "Файл \"" + name + "\" успешно загружен!"
  }

  /** `errorData.message || 'Неизвестная ошибка'` behind the upload error prefix. */
  function UploadErrorText(message: string): (r: string)
    ensures message != "" ==> OccursAt(r, message, 17)
    ensures message == "" ==> OccursAt(r, UnknownError, 17)
  {
    "Ошибка загрузки: " + (if message == "" then UnknownError else message)
  }

  /** The success message of a delete names the deleted file. */
  function DeleteSuccessText(name: string): (r: string)
    ensures OccursAt(r, name, 6)
    ensures EndsWith(r, DeletedSuffix)
  {
    "Файл \"" + name + "\" успешно удален!"
  }

  const UploadedSuffix: string := "\" успешно загружен!"
  const DeletedSuffix: string := "\" успешно удален!"

  /**
   * Each success banner names exactly one file, and an upload banner is never
   * mistaken for a delete banner.
   */
  lemma SuccessBannersIdentify(a: string, b: string)
    ensures UploadSuccessText(a) == UploadSuccessText(b) ==> a == b
    ensures DeleteSuccessText(a) == DeleteSuccessText(b) ==> a == b
    ensures UploadSuccessText(a) != DeleteSuccessText(b)
  {
    var ua, ub := UploadSuccessText(a), UploadSuccessText(b);
    if ua == ub {
      assert |a| == |b|;
      assert a == ua[6..6 + |a|];
    }
    var da, db := DeleteSuccessText(a), DeleteSuccessText(b);
    if da == db {
      assert |a| == |b|;
      assert a == da[6..6 + |a|];
    }
    var db' := DeleteSuccessText(b);
    assert ua[|ua| - 4] == 'ж';
    assert db'[|db'| - 4] == 'л';
  }

  /** The delete error names what went wrong after its own prefix. */
  function DeleteErrorText(detail: string): (r: string)
    ensures StartsWith(r, DeleteErrorPrefix)
    ensures EndsWith(r, detail) && |r| == |DeleteErrorPrefix| + |detail|
  {
    DeleteErrorPrefix + detail
  }

  /** `err.message` of a failed list request. */
  function ListFailureDetail(reply: ListReply): (r: string)
    requires !reply.Listed?
    ensures reply.ListFailed? ==> r == reply.message
    ensures reply.ListHttpError? ==> r == HttpFailureMessage(reply.status)
  {
    match reply
    case ListHttpError(status) => HttpFailureMessage(status)
    case ListFailed(message) => message
  }

  /** `err.message` of a failed delete request. */
  function DeleteFailureDetail(reply: DeleteReply): (r: string)
    requires !reply.Deleted?
    ensures reply.DeleteHttpError? ==> r == HttpFailureMessage(reply.status)
    ensures reply.DeleteFailed? ==> r == reply.message
  {
    match reply
    case DeleteHttpError(status) => HttpFailureMessage(status)
    case DeleteFailed(message) => message
  }

  /** What the page holds for its list and its statistics; `None` is `undefined`. */
  datatype Held = Held(files: Option<seq<FileEntry>>, stats: Option<FileStats>)

  /**
   * Every render reads `stats.totalFiles` and `files.length`
   * (src/components/FileManager.js:180 and :249), so both must be present.
   */
  predicate Renderable(h: Held) {
    h.files.Some? && h.stats.Some?
  }

  /**
   * `loadFiles` as written: a successful body replaces the list and the
   * statistics by `data.files` and `data.stats`, present or not; a failed
   * request keeps both.
   */
  function StoredListingAsWritten(reply: ListReply, current: Held): (r: Held)
    ensures !reply.Listed? ==> r == current
    ensures reply.Listed? ==> (Renderable(r) <==> reply.files.Some? && reply.stats.Some?)
  {
    if reply.Listed? then Held(reply.files, reply.stats) else current
  }

  /**
   * A 200 body that lacks `files` or `stats` leaves the page, as written, with
   * nothing its next render can read, whatever it held before; the corrected
   * listing holds the empty list and the initial statistics in their place.
   */
  lemma IncompleteBodyBreaksPage(reply: ListReply, current: Held, files: seq<FileEntry>, stats: FileStats)
    requires reply.Listed? && (reply.files.None? || reply.stats.None?)
    ensures !Renderable(StoredListingAsWritten(reply, current))
    ensures reply.files.None? ==> ListedFiles(reply, files) == []
    ensures reply.stats.None? ==> ListedStats(reply, stats) == InitialStats
  {
  }

  /** The statistics after a reload: the listed ones, the initial ones when the body has none. */
  function ListedStats(reply: ListReply, current: FileStats): (r: FileStats)
    ensures !reply.Listed? ==> r == current
    ensures reply.Listed? && reply.stats.Some? ==> r == reply.stats.value
    ensures reply.Listed? && reply.stats.None? ==> r == InitialStats
  {
    if reply.Listed? then reply.stats.GetOr(InitialStats) else current
  }

  /**
   * The corrected listing always leaves something to render, and wherever the
   * listing as written still renders, the two hold exactly the same.
   */
  lemma CorrectedListingAgrees(reply: ListReply, files: seq<FileEntry>, stats: FileStats)
    ensures var written := StoredListingAsWritten(reply, Held(Some(files), Some(stats)));
            Renderable(written) ==>
              written == Held(Some(ListedFiles(reply, files)), Some(ListedStats(reply, stats)))
  {
  }

  class FileManagerState {
    var files: seq<FileEntry>
    var stats: FileStats
    var loading: bool
    var uploading: bool
    var uploadProgress: nat
    var dragActive: bool
    var error: string
    var success: string
    /** Requests sent so far, in order (the network's view, not program state). */
    ghost var requests: seq<Request>

    constructor ()
      ensures files == [] && stats == InitialStats && !loading && !uploading && uploadProgress == 0
      ensures !dragActive && error == "" && success == "" && requests == []
    {
      files := [];
      stats := InitialStats;
      loading := false;
      uploading := false;
      uploadProgress := 0;
      dragActive := false;
      error := "";
      success := "";
      requests := [];
    }

    /**
     * `loadFiles`: one list request; the error is cleared first; on success list
     * and statistics are replaced, on failure both are kept and the error says why.
     */
    method LoadFiles(reply: ListReply)
      modifies this
      ensures requests == old(requests) + [GetFiles]
      ensures files == ListedFiles(reply, old(files)) && stats == ListedStats(reply, old(stats))
      ensures error == if reply.Listed? then "" else LoadErrorText(ListFailureDetail(reply))
      ensures !loading
      ensures success == old(success) && uploading == old(uploading) && uploadProgress == old(uploadProgress)
      ensures dragActive == old(dragActive)
    {
      loading := true;
      error := "";
      requests := requests + [GetFiles];
      match reply {
        case Listed(listed, listedStats) =>
          files := listed.GetOr([]);
          stats := listedStats.GetOr(InitialStats);
        case _ =>
          error := LoadErrorText(ListFailureDetail(reply));
      }
      loading := false;
    }

    /** `uploadFile` up to `send`: both messages cleared, a fresh indicator, one upload request. */
    method StartUpload(name: string)
      modifies this
      ensures uploading && uploadProgress == 0 && error == "" && success == ""
      ensures requests == old(requests) + [PostFile(name)]
      ensures files == old(files) && stats == old(stats) && loading == old(loading) && dragActive == old(dragActive)
    {
      uploading := true;
      uploadProgress := 0;
      error := "";
      success := "";
      requests := requests + [PostFile(name)];
    }

    /** The upload `progress` listener. */
    method UploadProgress(event: ProgressEvent)
      requires event.lengthComputable ==> event.total > 0
      modifies this
      ensures uploadProgress == ProgressAfter(event, old(uploadProgress))
      ensures files == old(files) && stats == old(stats) && loading == old(loading) && uploading == old(uploading)
      ensures dragActive == old(dragActive) && error == old(error) && success == old(success)
      ensures requests == old(requests)
    {
      if event.lengthComputable {
        uploadProgress := RoundPercent(event.loaded, event.total);
      }
    }

    /**
     * The upload `load` listener. Status 201: a success message naming the stored
     * file and a reload. Any other status: an error with the server's message (or
     * the unknown-error text) and no reload. Either way the indicator is reset.
     */
    method UploadLoaded(status: nat, createdName: string, message: string, reload: ListReply)
      modifies this
      ensures !uploading && uploadProgress == 0
      ensures status == Created ==>
                success == UploadSuccessText(createdName)
                && requests == old(requests) + [GetFiles]
                && files == ListedFiles(reload, old(files)) && stats == ListedStats(reload, old(stats))
                && error == (if reload.Listed? then "" else LoadErrorText(ListFailureDetail(reload)))
                && !loading
      ensures status != Created ==>
                error == UploadErrorText(message) && success == old(success)
                && requests == old(requests) && files == old(files) && stats == old(stats)
                && loading == old(loading)
      ensures dragActive == old(dragActive)
    {
      if status == Created {
        success := UploadSuccessText(createdName);
        LoadFiles(reload);
      } else {
        error := UploadErrorText(message);
      }
      uploading := false;
      uploadProgress := 0;
    }

    /** The upload `error` listener: the network error is shown, the indicator reset, nothing reloaded. */
    method UploadFailed()
      modifies this
      ensures error == UploadNetworkError && !uploading && uploadProgress == 0
      ensures files == old(files) && stats == old(stats) && loading == old(loading)
      ensures dragActive == old(dragActive) && success == old(success) && requests == old(requests)
    {
      error := UploadNetworkError;
      uploading := false;
      uploadProgress := 0;
    }

    /**
     * `deleteFile`: nothing at all when the user declines. A failed delete sets
     * only the error. A successful one sets a success message naming the file
     * and reloads the list.
     */
    method DeleteFile(id: string, name: string, confirmed: bool, reply: DeleteReply, reload: ListReply)
      modifies this
      ensures !confirmed ==> unchanged(this)
      ensures confirmed && !reply.Deleted? ==>
                requests == old(requests) + [DeleteById(id)]
                && error == DeleteErrorText(DeleteFailureDetail(reply))
                && success == old(success) && files == old(files) && stats == old(stats)
                && loading == old(loading)
      ensures confirmed && reply.Deleted? ==>
                requests == old(requests) + [DeleteById(id), GetFiles]
                && success == DeleteSuccessText(name)
                && files == ListedFiles(reload, old(files)) && stats == ListedStats(reload, old(stats))
                && error == (if reload.Listed? then "" else LoadErrorText(ListFailureDetail(reload)))
                && !loading
      ensures uploading == old(uploading) && uploadProgress == old(uploadProgress) && dragActive == old(dragActive)
    {
      if !confirmed {
        return;
      }
      requests := requests + [DeleteById(id)];
      if reply.Deleted? {
        success := DeleteSuccessText(name);
        LoadFiles(reload);
      } else {
        error := DeleteErrorText(DeleteFailureDetail(reply));
      }
    }

    /** `clearMessages`: both messages emptied, nothing else touched. */
    method ClearMessages()
      modifies this
      ensures error == "" && success == ""
      ensures files == old(files) && stats == old(stats) && loading == old(loading) && uploading == old(uploading)
      ensures uploadProgress == old(uploadProgress) && dragActive == old(dragActive) && requests == old(requests)
    {
      error := "";
      success := "";
    }

    /** `files.forEach(uploadFile)`: one upload per file, in list order. */
    method UploadAll(names: seq<string>)
      modifies this
      ensures requests == old(requests) + Uploads(names)
      ensures uploading == (old(uploading) || names != [])
      ensures uploadProgress == if names == [] then old(uploadProgress) else 0
      ensures error == (if names == [] then old(error) else "")
      ensures success == (if names == [] then old(success) else "")
      ensures files == old(files) && stats == old(stats) && loading == old(loading) && dragActive == old(dragActive)
    {
      var i := 0;
      while i < |names|
        invariant 0 <= i <= |names|
        invariant requests == old(requests) + Uploads(names[..i])
        invariant uploading == (old(uploading) || i > 0)
        invariant uploadProgress == if i == 0 then old(uploadProgress) else 0
        invariant error == (if i == 0 then old(error) else "")
        invariant success == (if i == 0 then old(success) else "")
        invariant files == old(files) && stats == old(stats) && loading == old(loading)
        invariant dragActive == old(dragActive)
      {
        assert Uploads(names[..i + 1]) == Uploads(names[..i]) + [PostFile(names[i])];
        StartUpload(names[i]);
        i := i + 1;
      }
      assert names[..i] == names;
    }

    /** `handleFileSelect`: every chosen file is uploaded. */
    method SelectFiles(names: seq<string>)
      modifies this
      ensures requests == old(requests) + Uploads(names)
      ensures uploading == (old(uploading) || names != [])
      ensures uploadProgress == if names == [] then old(uploadProgress) else 0
      ensures error == (if names == [] then old(error) else "")
      ensures success == (if names == [] then old(success) else "")
      ensures files == old(files) && stats == old(stats) && loading == old(loading) && dragActive == old(dragActive)
    {
      UploadAll(names);
    }

    /** `handleDrag`. */
    method HandleDrag(eventType: string)
      modifies this
      ensures dragActive == NextDragActive(eventType, old(dragActive))
      ensures files == old(files) && stats == old(stats) && loading == old(loading) && uploading == old(uploading)
      ensures uploadProgress == old(uploadProgress) && error == old(error) && success == old(success)
      ensures requests == old(requests)
    {
      dragActive := NextDragActive(eventType, dragActive);
    }

    /** `handleDrop`: the highlight goes off and every dropped file is uploaded, in order. */
    method HandleDrop(names: seq<string>)
      modifies this
      ensures !dragActive
      ensures requests == old(requests) + Uploads(names)
      ensures uploading == (old(uploading) || names != [])
      ensures uploadProgress == if names == [] then old(uploadProgress) else 0
      ensures error == (if names == [] then old(error) else "")
      ensures success == (if names == [] then old(success) else "")
      ensures files == old(files) && stats == old(stats) && loading == old(loading)
    {
      dragActive := false;
      UploadAll(names);
    }
  }
}
