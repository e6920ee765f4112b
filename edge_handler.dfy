/** The request handler of the edge function (`serve`): the sequence of
    writes it makes to the job's row in `video_processing`, and the reply.
    The storage download, the speech service, the audio upload and the row
    writes are external; their outcomes are inputs. The detected labels are
    an input too, standing for the list the handler narrates. */
module EdgeHandler {
  import opened Text
  import opened Lexicon
  import opened Narration

  datatype Status = Pending | Processing | Completed | Failed

  /** One `update` of the job's row, as the handler issues it. */
  datatype RowUpdate =
    | MarkProcessing
    | MarkFailed(error: string)
    | MarkCompleted(audioUrl: string, detectedObjects: seq<string>, narration: string)

  /** The request body, after `req.json()`: either the two ids (an absent
      or empty id is the empty string) or the parse error's message. */
  datatype Body = Parsed(videoId: string, userId: string) | Unparsable(message: string)

  datatype Request = Preflight | Invoke(body: Body)

  /** How the call to the speech service ended. */
  datatype SpeechOutcome = Spoken | SpeechRejected | SpeechThrew(message: string)

  /** Outcomes of the external steps: the video download, speech synthesis,
      the audio upload, and the final row update. */
  datatype Services = Services(downloadOk: bool, speech: SpeechOutcome, uploadOk: bool, recordUpdateOk: bool)

  datatype ReplyBody =
    | NoBody
    | ErrorBody(error: string)
    | SuccessBody(videoId: string, audioUrl: string, narration: string, detectedObjects: seq<string>)

  datatype Reply = Reply(status: int, body: ReplyBody)

  /** The persisted fields of one job row. */
  datatype RowState = RowState(
    status: Status,
    error: Option<string>,
    audioUrl: Option<string>,
    detectedObjects: seq<string>,
    narration: Option<string>)

  const DownloadError := "Failed to download video"
  const SpeechError := "Failed to generate audio"
  const MissingIds := "Missing videoId or userId"

  /** The storage path of the narration audio. */
  function AudioPath(userId: string, videoId: string): string {
    userId + "/" + videoId + ".mp3"
  }

  /** An update sets only the columns it names. */
  function Applied(s: RowState, u: RowUpdate): RowState {
    match u
    case MarkProcessing => s.(status := Processing)
    case MarkFailed(e) => s.(status := Failed, error := Some(e))
    case MarkCompleted(url, objects, text) =>
      s.(status := Completed, audioUrl := Some(url), detectedObjects := objects, narration := Some(text))
  }

  function ApplyAll(s: RowState, us: seq<RowUpdate>): RowState
    decreases |us|
  {
    if us == [] then s else ApplyAll(Applied(s, us[0]), us[1..])
  }

  lemma ApplyTwo(s: RowState, first: RowUpdate, second: RowUpdate)
    ensures ApplyAll(s, [first, second]) == Applied(Applied(s, first), second)
  {
    assert [first, second][1..] == [second];
    assert [second][1..] == [];
    calc {
      ApplyAll(s, [first, second]);
      ApplyAll(Applied(s, first), [second]);
      ApplyAll(Applied(Applied(s, first), second), []);
    }
  }

  /** The reply and the row updates of one invocation. */
  function Handle(req: Request, detected: seq<string>, svc: Services, publicUrl: string -> string): (Reply, seq<RowUpdate>) {
    match req
    case Preflight => (Reply(200, NoBody), [])
    case Invoke(Unparsable(message)) => (Reply(500, ErrorBody(message)), [])
    case Invoke(Parsed(videoId, userId)) =>
      if videoId == "" || userId == "" then (Reply(400, ErrorBody(MissingIds)), [])
      else if !svc.downloadOk then
        (Reply(500, ErrorBody(DownloadError)), [MarkProcessing, MarkFailed(DownloadError)])
      else
        match svc.speech
        case SpeechRejected => (Reply(500, ErrorBody(SpeechError)), [MarkProcessing])
        case SpeechThrew(message) => (Reply(500, ErrorBody(message)), [MarkProcessing])
        case Spoken =>
          var narration := EdgeNarration(detected);
          var url := publicUrl(AudioPath(userId, videoId));
          (Reply(200, SuccessBody(videoId, url, narration, detected)),
           [MarkProcessing] + if svc.recordUpdateOk then [MarkCompleted(url, detected, narration)] else [])
  }

  /** The job's row, updated in place by the handler. */
  class ProcessingRecord {
    var status: Status
    var error: Option<string>
    var audioUrl: Option<string>
    var detectedObjects: seq<string>
    var narration: Option<string>

    function State(): RowState
      reads this
    {
      RowState(status, error, audioUrl, detectedObjects, narration)
    }

    constructor (initial: RowState)
      ensures State() == initial
    {
      status, error, audioUrl := initial.status, initial.error, initial.audioUrl;
      detectedObjects, narration := initial.detectedObjects, initial.narration;
    }

    /** One `update(...).eq('id', videoId)`. */
    method Update(u: RowUpdate)
      modifies this
      ensures State() == Applied(old(State()), u)
    {
      match u
      case MarkProcessing =>
        status := Processing;
      case MarkFailed(e) =>
        status, error := Failed, Some(e);
      case MarkCompleted(url, objects, text) =>
        status, audioUrl, detectedObjects, narration := Completed, Some(url), objects, Some(text);
    }
  }

  /** The handler, step by step. */
  method Serve(record: ProcessingRecord, req: Request, detected: seq<string>, svc: Services,
               publicUrl: string -> string)
    returns (reply: Reply)
    modifies record
    ensures reply == Handle(req, detected, svc, publicUrl).0
    ensures record.State() == ApplyAll(old(record.State()), Handle(req, detected, svc, publicUrl).1)
  {
    ghost var s0 := record.State();
    if req.Preflight? {
      return Reply(200, NoBody);
    }
    if req.body.Unparsable? {
      return Reply(500, ErrorBody(req.body.message));
    }
    var videoId, userId := req.body.videoId, req.body.userId;
    if videoId == "" || userId == "" {
      return Reply(400, ErrorBody(MissingIds));
    }
    record.Update(MarkProcessing);
    if !svc.downloadOk {
      record.Update(MarkFailed(DownloadError));
      ApplyTwo(s0, MarkProcessing, MarkFailed(DownloadError));
      return Reply(500, ErrorBody(DownloadError));
    }
    var narrationText := GenerateNarration(detected);
    if svc.speech.SpeechRejected? {
      return Reply(500, ErrorBody(SpeechError));
    }
    if svc.speech.SpeechThrew? {
      return Reply(500, ErrorBody(svc.speech.message));
    }
    // an upload failure is only logged
    var url := publicUrl(AudioPath(userId, videoId));
    if svc.recordUpdateOk {
      record.Update(MarkCompleted(url, detected, narrationText));
      ApplyTwo(s0, MarkProcessing, MarkCompleted(url, detected, narrationText));
    }
    reply := Reply(200, SuccessBody(videoId, url, narrationText, detected));
  }

  /** A request without both ids is refused with 400 before any write. */
  lemma MissingIdsWriteNothing(videoId: string, userId: string, detected: seq<string>, svc: Services,
                               publicUrl: string -> string)
    requires videoId == "" || userId == ""
    ensures var (reply, updates) := Handle(Invoke(Parsed(videoId, userId)), detected, svc, publicUrl);
      reply.status == 400 && updates == []
  {
  }

  /** Whatever happens, the first write marks the job processing, and at
      most one more write follows it, which is terminal. */
  lemma ProcessingWrittenFirst(req: Request, detected: seq<string>, svc: Services, publicUrl: string -> string)
    ensures var updates := Handle(req, detected, svc, publicUrl).1;
      && |updates| <= 2
      && (updates != [] ==> updates[0] == MarkProcessing)
      && (forall i :: 1 <= i < |updates| ==> !updates[i].MarkProcessing?)
  {
  }

  /** A failed download marks the job failed with a fixed message and
      replies 500. */
  lemma DownloadFailureMarksFailed(s: RowState, videoId: string, userId: string, detected: seq<string>,
                                   svc: Services, publicUrl: string -> string)
    requires videoId != "" && userId != "" && !svc.downloadOk
    ensures var (reply, updates) := Handle(Invoke(Parsed(videoId, userId)), detected, svc, publicUrl);
      && reply == Reply(500, ErrorBody(DownloadError))
      && ApplyAll(s, updates).status == Failed
      && ApplyAll(s, updates).error == Some(DownloadError)
  {
    var updates := [MarkProcessing, MarkFailed(DownloadError)];
    ApplyTwo(s, MarkProcessing, MarkFailed(DownloadError));
  }

  /** A synthesis failure replies 500 and leaves the job stuck in
      `processing`: no write records the failure. */
  lemma SpeechFailureLeavesProcessing(s: RowState, videoId: string, userId: string, detected: seq<string>,
                                      svc: Services, publicUrl: string -> string)
    requires videoId != "" && userId != "" && svc.downloadOk && !svc.speech.Spoken?
    ensures var (reply, updates) := Handle(Invoke(Parsed(videoId, userId)), detected, svc, publicUrl);
      reply.status == 500 && ApplyAll(s, updates) == s.(status := Processing)
  {
  }

  /** After synthesis, the job is completed with the public audio URL and
      the narration, whether or not the audio upload succeeded. */
  lemma CompletedWhateverTheUpload(s: RowState, videoId: string, userId: string, detected: seq<string>,
                                   svc: Services, publicUrl: string -> string)
    requires videoId != "" && userId != "" && svc.downloadOk && svc.speech.Spoken? && svc.recordUpdateOk
    ensures var (reply, updates) := Handle(Invoke(Parsed(videoId, userId)), detected, svc, publicUrl);
      var final := ApplyAll(s, updates);
      && reply.status == 200
      && final.status == Completed
      && final.audioUrl == Some(publicUrl(AudioPath(userId, videoId)))
      && final.narration == Some(EdgeNarration(detected))
      && final.detectedObjects == detected
      && Handle(Invoke(Parsed(videoId, userId)), detected, svc.(uploadOk := !svc.uploadOk), publicUrl)
         == (reply, updates)
  {
    var narration := EdgeNarration(detected);
    var url := publicUrl(AudioPath(userId, videoId));
    var updates := [MarkProcessing, MarkCompleted(url, detected, narration)];
    ApplyTwo(s, MarkProcessing, MarkCompleted(url, detected, narration));
  }

  /** If the final row update fails, the reply still reports success while
      the job stays in `processing`. */
  lemma FailedRecordUpdateHidden(s: RowState, videoId: string, userId: string, detected: seq<string>,
                                 svc: Services, publicUrl: string -> string)
    requires videoId != "" && userId != "" && svc.downloadOk && svc.speech.Spoken? && !svc.recordUpdateOk
    ensures var (reply, updates) := Handle(Invoke(Parsed(videoId, userId)), detected, svc, publicUrl);
      reply.status == 200 && reply.body.SuccessBody? && ApplyAll(s, updates).status == Processing
  {
  }

  /** A job this invocation completes has a non-empty narration and an
      audio URL. */
  lemma CompletedHasNarrationAndAudio(s: RowState, req: Request, detected: seq<string>, svc: Services,
                                      publicUrl: string -> string)
    requires Handle(req, detected, svc, publicUrl).1 != []
    ensures var final := ApplyAll(s, Handle(req, detected, svc, publicUrl).1);
      final.status == Completed ==>
        final.audioUrl.Some? && final.narration.Some? && |final.narration.value| > 0
  {
    var updates := Handle(req, detected, svc, publicUrl).1;
    if |updates| == 2 {
      assert updates == [updates[0], updates[1]];
      ApplyTwo(s, updates[0], updates[1]);
      if updates[1].MarkCompleted? {
        SentencesNonEmpty();
        ComposeNonEmpty(EdgeLexicon, Dedup(detected));
      }
    }
  }

  /** Invoking the handler again for a job that already ended moves it
      back to `processing`, and a completed retry keeps the error of an
      earlier failure. */
  lemma TerminalJobsReopen(s: RowState, videoId: string, userId: string, detected: seq<string>,
                           svc: Services, publicUrl: string -> string)
    requires videoId != "" && userId != "" && s.status == Failed
    ensures var updates := Handle(Invoke(Parsed(videoId, userId)), detected, svc, publicUrl).1;
      && updates[0] == MarkProcessing
      && Applied(s, updates[0]).status == Processing
      && (svc.downloadOk && svc.speech.Spoken? && svc.recordUpdateOk ==>
            ApplyAll(s, updates).status == Completed && ApplyAll(s, updates).error == s.error)
  {
    var updates := Handle(Invoke(Parsed(videoId, userId)), detected, svc, publicUrl).1;
    if |updates| == 2 {
      assert updates == [updates[0], updates[1]];
      ApplyTwo(s, updates[0], updates[1]);
    }
  }
}
