/** The upload page's list of videos: validation of picked files, the
    partition of a pick into accepted entries and error messages, and the
    per-entry status transitions. Entry ids and preview URLs come from the
    clock, a random number and the browser; they are inputs (`Stamp`). The
    request to the backend is an input too (`Reply`). */
module VideoUpload {
  import opened Text

  /** The parts of a browser `File` the page reads. */
  datatype FileInfo = FileInfo(name: string, mimeType: string, size: nat)

  const AcceptedFormats: seq<string> := ["video/mp4", "video/avi", "video/mov", "video/wmv", "video/mkv"]
  const MaxFileSize: nat := 1024 * 1024 * 1024
  const FormatError := "Please upload a valid video file (MP4, AVI, MOV, WMV, or MKV)"
  const SizeError := "File size must be less than 1GB"

  /** `validateFile`: the type is checked before the size. */
  function ValidateFile(file: FileInfo): (error: Option<string>)
    ensures error == Some(FormatError) <==> file.mimeType !in AcceptedFormats
    ensures error == Some(SizeError) <==> file.mimeType in AcceptedFormats && file.size > MaxFileSize
    ensures error == None <==> file.mimeType in AcceptedFormats && file.size <= MaxFileSize
  {
    if file.mimeType !in AcceptedFormats then Some(FormatError)
    else if file.size > MaxFileSize then Some(SizeError)
    else None
  }

  /** A file of exactly 1 GiB is accepted; one byte more is not. A
      recorded `video/webm` clip would be refused, whatever its size. */
  lemma ValidationBoundaries(name: string, mimeType: string)
    requires mimeType in AcceptedFormats
    ensures ValidateFile(FileInfo(name, mimeType, MaxFileSize)) == None
    ensures ValidateFile(FileInfo(name, mimeType, MaxFileSize + 1)) == Some(SizeError)
    ensures ValidateFile(FileInfo(name, "video/webm", 0)) == Some(FormatError)
  {
  }

  datatype Status = Pending | Processing | Completed | Error

  /** The optional `result` object; a field missing from it is `None`. */
  datatype Analysis = Analysis(
    objects: Option<seq<string>>,
    guidance: Option<string>,
    audioUrl: Option<string>,
    processedVideoUrl: Option<string>)

  datatype VideoFile = VideoFile(file: FileInfo, id: string, preview: string, status: Status, result: Option<Analysis>)

  /** The id and preview URL a new entry is given. */
  datatype Stamp = Stamp(id: string, preview: string)

  /** `createVideoFile`: a new entry waits to be processed and has no result. */
  function CreateVideoFile(file: FileInfo, stamp: Stamp): (v: VideoFile)
    ensures v.status == Pending && v.result.None? && v.file == file && v.id == stamp.id
  {
    VideoFile(file, stamp.id, stamp.preview, Pending, None)
  }

  /** The entries a pick adds: its valid files, in order. */
  function Accepted(files: seq<FileInfo>, stamps: seq<Stamp>): seq<VideoFile>
    requires |stamps| == |files|
    decreases |files|
  {
    if files == [] then []
    else
      var n := |files| - 1;
      Accepted(files[..n], stamps[..n]) + if ValidateFile(files[n]).None? then [CreateVideoFile(files[n], stamps[n])] else []
  }

  /** The messages a pick reports: one per invalid file, in order. */
  function Rejections(files: seq<FileInfo>): seq<string>
    decreases |files|
  {
    if files == [] then []
    else
      var n := |files| - 1;
      var error := ValidateFile(files[n]);
      Rejections(files[..n]) + if error.Some? then [files[n].name + ": " + error.value] else []
  }

  /** Every picked file lands in one of the lists: a valid file becomes an
      entry, an invalid one a message naming it. */
  lemma {:induction false} PartitionPlacesEveryFile(files: seq<FileInfo>, stamps: seq<Stamp>, i: nat)
    requires |stamps| == |files| && i < |files|
    ensures ValidateFile(files[i]).None? ==> CreateVideoFile(files[i], stamps[i]) in Accepted(files, stamps)
    ensures ValidateFile(files[i]).Some? ==> files[i].name + ": " + ValidateFile(files[i]).value in Rejections(files)
  {
    PartitionAppend(files[..i], stamps[..i], [files[i]], [stamps[i]]);
    PartitionAppend(files[..i + 1], stamps[..i + 1], files[i + 1..], stamps[i + 1..]);
    assert files[..i] + [files[i]] == files[..i + 1];
    assert stamps[..i] + [stamps[i]] == stamps[..i + 1];
    assert files[..i + 1] + files[i + 1..] == files;
    assert stamps[..i + 1] + stamps[i + 1..] == stamps;
    assert [files[i]][..0] == [] && [stamps[i]][..0] == [];
  }

  /** Every picked file lands in exactly one of the two lists: as many
      entries and messages as files, accepted entries are pending and
      valid, each message names an invalid file. */
  lemma {:induction false} PartitionIsExact(files: seq<FileInfo>, stamps: seq<Stamp>)
    requires |stamps| == |files|
    ensures |Accepted(files, stamps)| + |Rejections(files)| == |files|
    ensures forall v :: v in Accepted(files, stamps) ==>
      v.status == Pending && v.file in files && ValidateFile(v.file).None?
    ensures forall e :: e in Rejections(files) ==>
      exists i :: 0 <= i < |files| && ValidateFile(files[i]).Some? && e == files[i].name + ": " + ValidateFile(files[i]).value
    decreases |files|
  {
    if files != [] {
      var n := |files| - 1;
      PartitionIsExact(files[..n], stamps[..n]);
      forall e | e in Rejections(files)
        ensures exists i :: 0 <= i < |files| && ValidateFile(files[i]).Some? && e == files[i].name + ": " + ValidateFile(files[i]).value
      {
        if e !in Rejections(files[..n]) {
          assert ValidateFile(files[n]).Some? && e == files[n].name + ": " + ValidateFile(files[n]).value;
        } else {
          var i :| 0 <= i < n && ValidateFile(files[..n][i]).Some?
                   && e == files[..n][i].name + ": " + ValidateFile(files[..n][i]).value;
          assert files[..n][i] == files[i];
        }
      }
    }
  }

  /** The files are handled one after another: both lists distribute over
      concatenation of the picked files, so each keeps the pick's order. */
  lemma {:induction false} PartitionAppend(f1: seq<FileInfo>, s1: seq<Stamp>, f2: seq<FileInfo>, s2: seq<Stamp>)
    requires |s1| == |f1| && |s2| == |f2|
    ensures Accepted(f1 + f2, s1 + s2) == Accepted(f1, s1) + Accepted(f2, s2)
    ensures Rejections(f1 + f2) == Rejections(f1) + Rejections(f2)
    decreases |f2|
  {
    if f2 == [] {
      assert f1 + f2 == f1 && s1 + s2 == s1;
    } else {
      var n := |f2| - 1;
      assert (f1 + f2)[..|f1 + f2| - 1] == f1 + f2[..n];
      assert (s1 + s2)[..|s1 + s2| - 1] == s1 + s2[..n];
      PartitionAppend(f1, s1, f2[..n], s2[..n]);
    }
  }

  /** The `forEach` of `handleFiles`. */
  method PartitionFiles(files: seq<FileInfo>, stamps: seq<Stamp>) returns (newVideoFiles: seq<VideoFile>, errors: seq<string>)
    requires |stamps| == |files|
    ensures newVideoFiles == Accepted(files, stamps)
    ensures errors == Rejections(files)
  {
    newVideoFiles, errors := [], [];
    var i := 0;
    while i < |files|
      invariant 0 <= i <= |files|
      invariant newVideoFiles == Accepted(files[..i], stamps[..i])
      invariant errors == Rejections(files[..i])
    {
      assert files[..i + 1][..i] == files[..i];
      assert stamps[..i + 1][..i] == stamps[..i];
      var error := ValidateFile(files[i]);
      if error.Some? {
        errors := errors + [files[i].name + ": " + error.value];
      } else {
        newVideoFiles := newVideoFiles + [CreateVideoFile(files[i], stamps[i])];
      }
      i := i + 1;
    }
    assert files[..i] == files && stamps[..i] == stamps;
  }

  /** `prev.filter(f => f.id !== id)`. */
  function WithoutId(entries: seq<VideoFile>, id: string): (r: seq<VideoFile>)
    ensures forall v :: v in r <==> v in entries && v.id != id
    decreases |entries|
  {
    if entries == [] then []
    else
      var n := |entries| - 1;
      WithoutId(entries[..n], id) + if entries[n].id != id then [entries[n]] else []
  }

  /** Removal keeps the other entries in their order: it distributes over
      concatenation and leaves lists without the id alone. */
  lemma {:induction false} WithoutIdKeepsOrder(a: seq<VideoFile>, b: seq<VideoFile>, id: string)
    ensures WithoutId(a + b, id) == WithoutId(a, id) + WithoutId(b, id)
    ensures (forall v :: v in a ==> v.id != id) ==> WithoutId(a, id) == a
    decreases |b|
  {
    if b == [] {
      assert a + b == a;
    } else {
      var n := |b| - 1;
      assert (a + b)[..|a + b| - 1] == a + b[..n];
      assert (a + b)[|a + b| - 1] == b[n];
      WithoutIdKeepsOrder(a, b[..n], id);
    }
    WithoutIdOfOthers(a, id);
  }

  lemma {:induction false} WithoutIdOfOthers(a: seq<VideoFile>, id: string)
    ensures (forall v :: v in a ==> v.id != id) ==> WithoutId(a, id) == a
    decreases |a|
  {
    if a != [] {
      var n := |a| - 1;
      WithoutIdOfOthers(a[..n], id);
      assert a == a[..n] + [a[n]];
    }
  }

  /** `prev.map(f => f.id === id ? { ...f, status } : f)`. */
  function WithStatus(entries: seq<VideoFile>, id: string, status: Status): (r: seq<VideoFile>)
    ensures |r| == |entries|
  {
    seq(|entries|, i requires 0 <= i < |entries| => if entries[i].id == id then entries[i].(status := status) else entries[i])
  }

  /** `{ ...f.result, processedVideoUrl }`: earlier result fields are kept. */
  function WithProcessedUrl(result: Option<Analysis>, url: string): (a: Analysis)
    ensures a.processedVideoUrl == Some(url)
    ensures result.Some? ==> a.objects == result.value.objects && a.guidance == result.value.guidance
                             && a.audioUrl == result.value.audioUrl
    ensures result.None? ==> a.objects.None? && a.guidance.None? && a.audioUrl.None?
  {
    match result
    case None => Analysis(None, None, None, Some(url))
    case Some(r) => r.(processedVideoUrl := Some(url))
  }

  /** The success update of `processVideo`. */
  function WithCompleted(entries: seq<VideoFile>, id: string, url: string): (r: seq<VideoFile>)
    ensures |r| == |entries|
  {
    seq(|entries|, i requires 0 <= i < |entries| =>
      if entries[i].id == id then entries[i].(status := Completed, result := Some(WithProcessedUrl(entries[i].result, url)))
      else entries[i])
  }

  /** How the request to the backend ended: a non-OK status or a thrown
      error, or the `processedVideoUrl` of the reply. */
  datatype Reply = Failed | Succeeded(processedVideoUrl: string)

  /** The state after the request answered. */
  function Finished(entries: seq<VideoFile>, id: string, reply: Reply): seq<VideoFile> {
    match reply
    case Failed => WithStatus(entries, id, Error)
    case Succeeded(url) => WithCompleted(entries, id, url)
  }

  /** The button to process an entry is shown only while it is pending
      (`Process Video`) or failed (`Try Again`). */
  predicate CanStart(v: VideoFile) {
    v.status == Pending || v.status == Error
  }

  /** A press of entry `k`'s process button, run to its end. */
  function AfterPress(entries: seq<VideoFile>, k: nat, signedIn: bool, reply: Reply): seq<VideoFile>
    requires k < |entries|
  {
    if !signedIn || !CanStart(entries[k]) then entries
    else Finished(WithStatus(entries, entries[k].id, Processing), entries[k].id, reply)
  }

  predicate UniqueIds(entries: seq<VideoFile>) {
    forall i, j :: 0 <= i < j < |entries| ==> entries[i].id != entries[j].id
  }

  /** With distinct ids, a press changes only the pressed entry: to
      `error` on failure, to `completed` with the URL on success; signed
      out, or on an entry without the button, it changes nothing. */
  lemma PressChangesOnlyTarget(entries: seq<VideoFile>, k: nat, signedIn: bool, reply: Reply)
    requires k < |entries| && UniqueIds(entries)
    ensures var r := AfterPress(entries, k, signedIn, reply);
      && |r| == |entries|
      && (forall j :: 0 <= j < |entries| && j != k ==> r[j] == entries[j])
      && (!signedIn || !CanStart(entries[k]) ==> r[k] == entries[k])
      && (signedIn && CanStart(entries[k]) && reply.Failed? ==>
            r[k] == entries[k].(status := Error))
      && (signedIn && CanStart(entries[k]) && reply.Succeeded? ==>
            r[k] == entries[k].(status := Completed,
                                result := Some(WithProcessedUrl(entries[k].result, reply.processedVideoUrl))))
  {
  }

  /** `completed` is terminal: no press changes a completed entry. */
  lemma CompletedIsTerminal(entries: seq<VideoFile>, k: nat, j: nat, signedIn: bool, reply: Reply)
    requires k < |entries| && j < |entries| && UniqueIds(entries) && entries[j].status == Completed
    ensures AfterPress(entries, k, signedIn, reply)[j] == entries[j]
  {
    PressChangesOnlyTarget(entries, k, signedIn, reply);
  }

  /** The page's `videoFiles` state. */
  class UploadList {
    var videoFiles: seq<VideoFile>

    constructor ()
      ensures videoFiles == []
    {
      videoFiles := [];
    }

    /** `handleFiles`: a missing file list changes nothing; otherwise the
        valid files are appended as pending entries and the messages for
        the others are returned. */
    method HandleFiles(files: Option<seq<FileInfo>>, stamps: seq<Stamp>) returns (errors: seq<string>)
      requires files.Some? ==> |stamps| == |files.value|
      modifies this
      ensures files.None? ==> videoFiles == old(videoFiles) && errors == []
      ensures files.Some? ==> videoFiles == old(videoFiles) + Accepted(files.value, stamps)
      ensures files.Some? ==> errors == Rejections(files.value)
    {
      if files.None? {
        return [];
      }
      var newVideoFiles;
      newVideoFiles, errors := PartitionFiles(files.value, stamps);
      if |newVideoFiles| > 0 {
        videoFiles := videoFiles + newVideoFiles;
      }
    }

    /** The recorder's callback: the clip is appended without validation. */
    method AddRecorded(file: FileInfo, stamp: Stamp)
      modifies this
      ensures videoFiles == old(videoFiles) + [CreateVideoFile(file, stamp)]
    {
      videoFiles := videoFiles + [CreateVideoFile(file, stamp)];
    }

    /** `removeFile`. */
    method RemoveFile(id: string)
      modifies this
      ensures videoFiles == WithoutId(old(videoFiles), id)
    {
      videoFiles := WithoutId(videoFiles, id);
    }

    /** The first half of `processVideo`: signed out, nothing changes;
        otherwise the entry is marked processing. */
    method BeginProcessing(id: string, signedIn: bool)
      modifies this
      ensures !signedIn ==> videoFiles == old(videoFiles)
      ensures signedIn ==> videoFiles == WithStatus(old(videoFiles), id, Processing)
    {
      if signedIn {
        videoFiles := WithStatus(videoFiles, id, Processing);
      }
    }

    /** The second half of `processVideo`, once the request answered. */
    method FinishProcessing(id: string, reply: Reply)
      modifies this
      ensures videoFiles == Finished(old(videoFiles), id, reply)
    {
      if reply.Failed? {
        videoFiles := WithStatus(videoFiles, id, Error);
      } else {
        videoFiles := WithCompleted(videoFiles, id, reply.processedVideoUrl);
      }
    }

    /** A press of entry `k`'s process button, with no other update in
        between the two halves. */
    method PressProcess(k: nat, signedIn: bool, reply: Reply)
      requires k < |videoFiles|
      modifies this
      ensures videoFiles == AfterPress(old(videoFiles), k, signedIn, reply)
    {
      var entry := videoFiles[k];
      if !CanStart(entry) {
        return;
      }
      BeginProcessing(entry.id, signedIn);
      if signedIn {
        FinishProcessing(entry.id, reply);
      }
    }
  }
}
