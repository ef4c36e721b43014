/**
 * The chat sidebar (src/components/ChatSidebar.js): the options of the model
 * selector, and the file panel whose list, upload indicator and drag
 * highlight change as requests complete and events arrive.
 */
module Sidebar {

  import opened Options
  import opened Text
  import opened ModelRegistry
  import opened Conversation
  import opened Assets

  /** Offered for the Gemini provider while no catalog is available. */
  const FallbackOptions: seq<string> := ["gemini-2.5-flash", "gemini-2.0-flash"]

  /**
   * The values of the model selector: one per catalog entry, in order, as its bare
   * name (Gemini with a catalog); the two fixed models (Gemini without one); the
   * configured default (custom server).
   */
  function ModelOptions(provider: Provider, availableModels: seq<string>, customDefaultModel: string): (r: seq<string>)
    ensures provider == Gemini && availableModels != [] ==>
              |r| == |availableModels| && forall i :: 0 <= i < |r| ==> r[i] == LastSegment(availableModels[i])
    ensures provider == Gemini && availableModels == [] ==> r == FallbackOptions
    ensures provider == Custom ==> r == [customDefaultModel]
    ensures provider == Gemini ==> forall o :: o in r ==> '/' !in o
  {
    if provider == Gemini && availableModels != [] then NormalizeAll(availableModels)
    else if provider == Gemini then FallbackOptions
    else [customDefaultModel]
  }

  /**
   * After a refresh of the Gemini catalog the selector offers the selected model:
   * the reselection always lands on one of the options, except when the best
   * model is empty (no preference offered, an empty first bare name) and an
   * unlisted old selection is kept.
   */
  lemma SelectionIsOffered(selected: string, models: seq<string>, customDefaultModel: string)
    requires models != [] ==> PickBestModel(models) != "" || selected in NormalizeAll(models)
    ensures Reselect(selected, models) in ModelOptions(Gemini, models, customDefaultModel)
  {
    var r := Reselect(selected, models);
    ReselectIsOffered(selected, models);
    if models == [] {
      assert DefaultModel == FallbackOptions[0];
    } else {
      assert ModelOptions(Gemini, models, customDefaultModel) == NormalizeAll(models);
    }
  }

  /** The file panel of the sidebar. */
  class SidebarFiles {
    var files: seq<FileEntry>
    var filesLoading: bool
    var uploading: bool
    var uploadProgress: nat
    var dragActive: bool
    /** Requests sent so far, in order (the network's view, not program state). */
    ghost var requests: seq<Request>

    constructor ()
      ensures files == [] && !filesLoading && !uploading && uploadProgress == 0 && !dragActive
      ensures requests == []
    {
      files := [];
      filesLoading := false;
      uploading := false;
      uploadProgress := 0;
      dragActive := false;
      requests := [];
    }

    /** `loadFiles`: one list request; the list is replaced on success and kept on failure. */
    method LoadFiles(reply: ListReply)
      modifies this
      ensures requests == old(requests) + [GetFiles]
      ensures files == ListedFiles(reply, old(files))
      ensures !filesLoading
      ensures uploading == old(uploading) && uploadProgress == old(uploadProgress) && dragActive == old(dragActive)
    {
      filesLoading := true;
      requests := requests + [GetFiles];
      if reply.Listed? {
        files := reply.files.GetOr([]);
      }
      filesLoading := false;
    }

    /** `uploadFile` up to `send`: the indicator shows a fresh upload and one upload request goes out. */
    method StartUpload(name: string)
      modifies this
      ensures uploading && uploadProgress == 0
      ensures requests == old(requests) + [PostFile(name)]
      ensures files == old(files) && filesLoading == old(filesLoading) && dragActive == old(dragActive)
    {
      uploading := true;
      uploadProgress := 0;
      requests := requests + [PostFile(name)];
    }

    /** The upload `progress` listener. */
    method UploadProgress(event: ProgressEvent)
      requires event.lengthComputable ==> event.total > 0
      modifies this
      ensures uploadProgress == ProgressAfter(event, old(uploadProgress))
      ensures files == old(files) && filesLoading == old(filesLoading) && uploading == old(uploading)
      ensures dragActive == old(dragActive) && requests == old(requests)
    {
      if event.lengthComputable {
        uploadProgress := RoundPercent(event.loaded, event.total);
      }
    }

    /**
     * The upload `load` listener: the list is reloaded only for status 201; the
     * indicator is reset whatever the status.
     */
    method UploadLoaded(status: nat, reload: ListReply)
      modifies this
      ensures !uploading && uploadProgress == 0
      ensures status == Created ==> requests == old(requests) + [GetFiles] && files == ListedFiles(reload, old(files))
                                    && !filesLoading
      ensures status != Created ==> requests == old(requests) && files == old(files)
                                    && filesLoading == old(filesLoading)
      ensures dragActive == old(dragActive)
    {
      if status == Created {
        LoadFiles(reload);
      }
      uploading := false;
      uploadProgress := 0;
    }

    /** The upload `error` listener: the indicator is reset and nothing is reloaded. */
    method UploadFailed()
      modifies this
      ensures !uploading && uploadProgress == 0
      ensures files == old(files) && filesLoading == old(filesLoading) && dragActive == old(dragActive)
      ensures requests == old(requests)
    {
      uploading := false;
      uploadProgress := 0;
    }

    /**
     * `deleteFile`: nothing at all when the user declines; otherwise one delete
     * request, and a reload only when it succeeded.
     */
    method DeleteFile(id: string, confirmed: bool, reply: DeleteReply, reload: ListReply)
      modifies this
      ensures !confirmed ==> unchanged(this)
      ensures confirmed && reply.Deleted? ==>
                requests == old(requests) + [DeleteById(id), GetFiles]
                && files == ListedFiles(reload, old(files)) && !filesLoading
      ensures confirmed && !reply.Deleted? ==>
                requests == old(requests) + [DeleteById(id)]
                && files == old(files) && filesLoading == old(filesLoading)
      ensures uploading == old(uploading) && uploadProgress == old(uploadProgress) && dragActive == old(dragActive)
    {
      if !confirmed {
        return;
      }
      requests := requests + [DeleteById(id)];
      if reply.Deleted? {
        LoadFiles(reload);
      }
    }

    /** `files.forEach(uploadFile)`: one upload per file, in list order. */
    method UploadAll(names: seq<string>)
      modifies this
      ensures requests == old(requests) + Uploads(names)
      ensures uploading == (old(uploading) || names != [])
      ensures uploadProgress == if names == [] then old(uploadProgress) else 0
      ensures files == old(files) && filesLoading == old(filesLoading) && dragActive == old(dragActive)
    {
      var i := 0;
      while i < |names|
        invariant 0 <= i <= |names|
        invariant requests == old(requests) + Uploads(names[..i])
        invariant uploading == (old(uploading) || i > 0)
        invariant uploadProgress == if i == 0 then old(uploadProgress) else 0
        invariant files == old(files) && filesLoading == old(filesLoading) && dragActive == old(dragActive)
      {
        assert Uploads(names[..i + 1]) == Uploads(names[..i]) + [PostFile(names[i])];
        StartUpload(names[i]);
        i := i + 1;
      }
      assert names[..i] == names;
    }

    /** `handleFileSelect`: every chosen file is uploaded. */
    method SelectFiles(names: seq<string>)
      modifies this
      ensures requests == old(requests) + Uploads(names)
      ensures uploading == (old(uploading) || names != [])
      ensures uploadProgress == if names == [] then old(uploadProgress) else 0
      ensures files == old(files) && filesLoading == old(filesLoading) && dragActive == old(dragActive)
    {
      UploadAll(names);
    }

    /** `handleDrag`. */
    method HandleDrag(eventType: string)
      modifies this
      ensures dragActive == NextDragActive(eventType, old(dragActive))
      ensures files == old(files) && filesLoading == old(filesLoading) && uploading == old(uploading)
      ensures uploadProgress == old(uploadProgress) && requests == old(requests)
    {
      dragActive := NextDragActive(eventType, dragActive);
    }

    /** `handleDrop`: the highlight goes off and every dropped file is uploaded, in order. */
    method HandleDrop(names: seq<string>)
      modifies this
      ensures !dragActive
      ensures requests == old(requests) + Uploads(names)
      ensures uploading == (old(uploading) || names != [])
      ensures uploadProgress == if names == [] then old(uploadProgress) else 0
      ensures files == old(files) && filesLoading == old(filesLoading)
    {
      dragActive := false;
      UploadAll(names);
    }
  }
}
