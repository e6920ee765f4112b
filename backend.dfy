/** The FastAPI backend: its narration variant, the upload's file name and
    path derivation, and the per-frame loop of `process_video`. Frames are
    abstracted as in the reference script (two label lists, and the
    iteration order of a set as an input); video decoding, drawing, speech
    and muxing are not modelled. */
module Backend {
  import opened Text
  import opened ReferencePipeline

  const UploadDir := "uploads"
  const ProcessedDir := "processed"
  const PublicPrefix := "http://localhost:5000/processed/"

  /** `get_narration` of the backend: no lexicon, just the labels. */
  function GetNarration(objects: seq<string>): (r: Option<string>)
    ensures r.None? <==> objects == []
  {
    if objects == [] then None else Some("Detected: " + Join(objects, ", "))
  }

  /** A single label is announced on its own; each further label adds a
      comma, a space and the label. */
  lemma NarrationListsLabels(objects: seq<string>, obj: string)
    ensures GetNarration([obj]) == Some("Detected: " + obj)
    ensures objects != [] ==> GetNarration(objects + [obj]) == Some(GetNarration(objects).value + ", " + obj)
  {
    JoinSnoc(objects, obj, ", ");
    if objects != [] {
      assert "Detected: " + (Join(objects, ", ") + ", " + obj) == ("Detected: " + Join(objects, ", ")) + ", " + obj;
    }
  }

  /** A character `\w` matches (ASCII letters, digits, underscore). */
  predicate IsWordChar(c: char) {
    'a' <= c <= 'z' || 'A' <= c <= 'Z' || '0' <= c <= '9' || c == '_'
  }

  /** Characters the sanitiser keeps. */
  predicate Allowed(c: char) {
    IsWordChar(c) || c == '.' || c == '-'
  }

  /** `re.sub(r"[^\w.-]", "_", filename)`. */
  function Sanitize(filename: string): (safe: string)
    ensures |safe| == |filename|
  {
    seq(|filename|, i requires 0 <= i < |filename| => if Allowed(filename[i]) then filename[i] else '_')
  }

  /** The sanitised name uses only allowed characters (so never `/`), keeps
      every allowed character in place, puts `_` in place of every other
      character, and sanitising again changes nothing. */
  lemma SanitizeProperties(filename: string)
    ensures forall i :: 0 <= i < |filename| ==> Allowed(Sanitize(filename)[i])
    ensures forall i :: 0 <= i < |filename| && Allowed(filename[i]) ==> Sanitize(filename)[i] == filename[i]
    ensures forall i :: 0 <= i < |filename| && !Allowed(filename[i]) ==> Sanitize(filename)[i] == '_'
    ensures '/' !in Sanitize(filename)
    ensures Sanitize(Sanitize(filename)) == Sanitize(filename)
  {
  }

  /** Names made only of allowed characters pass through unchanged. */
  lemma SanitizeKeepsSafeNames(filename: string)
    requires forall i :: 0 <= i < |filename| ==> Allowed(filename[i])
    ensures Sanitize(filename) == filename
  {
  }

  /** `os.path.join(a, b)` on POSIX. */
  function PathJoin(a: string, b: string): (p: string)
    ensures |b| > 0 && b[0] == '/' ==> p == b
    ensures (|b| == 0 || b[0] != '/') && |a| > 0 && a[|a| - 1] != '/' ==> p == a + "/" + b
  {
    if |b| > 0 && b[0] == '/' then b
    else if a == "" || a[|a| - 1] == '/' then a + b
    else a + "/" + b
  }

  /** `os.path.basename`: what follows the last `/`, that is the longest
      `/`-free suffix (the whole path when it has no `/`). */
  function Basename(p: string): (b: string)
    ensures '/' !in b
    ensures |b| <= |p| && b == p[|p| - |b|..]
    ensures |b| == |p| || p[|p| - |b| - 1] == '/'
    decreases |p|
  {
    if p == [] then []
    else if p[|p| - 1] == '/' then []
    else Basename(p[..|p| - 1]) + [p[|p| - 1]]
  }

  lemma {:induction false} BasenameAfterSlash(dir: string, name: string)
    requires '/' !in name
    ensures Basename(dir + "/" + name) == name
    decreases |name|
  {
    var p := dir + "/" + name;
    if name == [] {
      assert p[|p| - 1] == '/';
    } else {
      var shorter := name[..|name| - 1];
      assert p[..|p| - 1] == dir + "/" + shorter;
      BasenameAfterSlash(dir, shorter);
      assert name == shorter + [name[|name| - 1]];
    }
  }

  /** Where the upload is stored: a fresh id keeps inputs apart. */
  function InputPath(id: string, filename: string): string {
    PathJoin(UploadDir, id + "_" + Sanitize(filename))
  }

  /** Where the processed video goes: derived from the name alone. */
  function OutputPath(filename: string): string {
    PathJoin(ProcessedDir, "processed_" + Sanitize(filename))
  }

  lemma OutputPathShape(filename: string)
    ensures OutputPath(filename) == ProcessedDir + "/" + ("processed_" + Sanitize(filename))
  {
    var b := "processed_" + Sanitize(filename);
    assert b[0] == 'p';
    assert ProcessedDir[|ProcessedDir| - 1] == 'd';
  }

  lemma InputPathShape(id: string, filename: string)
    requires '/' !in id
    ensures InputPath(id, filename) == UploadDir + "/" + (id + "_" + Sanitize(filename))
  {
    var b := id + "_" + Sanitize(filename);
    if id != [] {
      assert b[0] == id[0];
    } else {
      assert b[0] == '_';
    }
    assert UploadDir[|UploadDir| - 1] == 's';
  }

  /** Two uploads share their output file exactly when their names
      sanitise to the same string, even though their inputs are kept
      apart by ids of equal length. */
  lemma OutputPathsCollide(f1: string, f2: string, id1: string, id2: string)
    requires |id1| == |id2| && id1 != id2 && '/' !in id1 && '/' !in id2
    ensures OutputPath(f1) == OutputPath(f2) <==> Sanitize(f1) == Sanitize(f2)
    ensures InputPath(id1, f1) != InputPath(id2, f2)
  {
    OutputPathShape(f1);
    OutputPathShape(f2);
    InputPathShape(id1, f1);
    InputPathShape(id2, f2);
    var d := ProcessedDir + "/" + "processed_";
    assert OutputPath(f1) == d + Sanitize(f1);
    assert OutputPath(f2) == d + Sanitize(f2);
    if OutputPath(f1) == OutputPath(f2) {
      assert Sanitize(f1) == OutputPath(f1)[|d|..];
    }
    var u := UploadDir + "/";
    assert InputPath(id1, f1) == u + (id1 + "_" + Sanitize(f1));
    assert InputPath(id2, f2) == u + (id2 + "_" + Sanitize(f2));
    assert InputPath(id1, f1)[|u|..|u| + |id1|] == id1;
    assert InputPath(id2, f2)[|u|..|u| + |id2|] == id2;
  }

  /** `s.replace(pattern, replacement)`: every occurrence, scanning left to
      right without overlaps. */
  function ReplaceAll(s: string, pattern: string, replacement: string): string
    requires |pattern| > 0
    decreases |s|
  {
    if |s| < |pattern| then s
    else if s[..|pattern|] == pattern then replacement + ReplaceAll(s[|pattern|..], pattern, replacement)
    else [s[0]] + ReplaceAll(s[1..], pattern, replacement)
  }

  /** `.mp4` ends at position `i` of `s`. */
  predicate Mp4EndsAt(s: string, i: int) {
    3 <= i < |s| && s[i - 3..i + 1] == ".mp4"
  }

  function AudioPath(outputPath: string): string {
    ReplaceAll(outputPath, ".mp4", ".mp3")
  }

  /** The audio path is the output path with the `4` of every `.mp4`
      turned into `3`, and nothing else changed. */
  lemma {:induction false} AudioPathPointwise(s: string)
    ensures |AudioPath(s)| == |s|
    ensures forall i :: 0 <= i < |s| ==> AudioPath(s)[i] == if Mp4EndsAt(s, i) then '3' else s[i]
    decreases |s|
  {
    var r := AudioPath(s);
    if |s| < 4 {
    } else if s[..4] == ".mp4" {
      var rest := s[4..];
      AudioPathPointwise(rest);
      assert r == ".mp3" + AudioPath(rest);
      forall i | 0 <= i < |s|
        ensures r[i] == if Mp4EndsAt(s, i) then '3' else s[i]
      {
        if i >= 4 {
          assert Mp4EndsAt(rest, i - 4) <==> Mp4EndsAt(s, i) by {
            if 4 <= i < 7 {
              assert s[i - 3] != '.';
            } else {
              assert rest[i - 7..i - 3] == s[i - 3..i + 1];
            }
          }
        }
      }
    } else {
      var rest := s[1..];
      AudioPathPointwise(rest);
      assert r == [s[0]] + AudioPath(rest);
      forall i | 0 <= i < |s|
        ensures r[i] == if Mp4EndsAt(s, i) then '3' else s[i]
      {
        if i >= 1 {
          assert Mp4EndsAt(rest, i - 1) <==> Mp4EndsAt(s, i) by {
            if i == 3 {
              assert s[0..4] == s[..4];
            } else if i > 3 {
              assert rest[i - 4..i] == s[i - 3..i + 1];
            }
          }
        }
      }
    }
  }

  /** The audio is exported to the video's own path whenever the output
      path has no `.mp4` in it (an upload named `clip.mov`, say). */
  lemma AudioOverwritesVideoUnlessMp4(outputPath: string)
    ensures AudioPath(outputPath) == outputPath <==> forall i :: 0 <= i < |outputPath| ==> !Mp4EndsAt(outputPath, i)
  {
    AudioPathPointwise(outputPath);
    if AudioPath(outputPath) == outputPath {
      forall i | 0 <= i < |outputPath|
        ensures !Mp4EndsAt(outputPath, i)
      {
        assert AudioPath(outputPath)[i] == outputPath[i];
      }
    } else {
      var r := AudioPath(outputPath);
      var i :| 0 <= i < |r| && r[i] != outputPath[i];
      assert Mp4EndsAt(outputPath, i);
    }
  }

  /** The narrations `process_video` speaks: one per frame with labels,
      with no deduplication across frames. */
  function SpokenNarrations(frames: seq<Frame>, order: set<string> -> seq<string>): seq<string>
    decreases |frames|
  {
    if frames == [] then []
    else
      var labels := order(LabelSet(frames[|frames| - 1]));
      SpokenNarrations(frames[..|frames| - 1], order)
        + if labels == [] then [] else [GetNarration(labels).value]
  }

  /** `process_video`: every frame is classified and written once; a
      narration is spoken for each frame with labels. The result gives the
      written frames (by index) and the spoken narrations. */
  method ProcessVideo(frames: seq<Frame>, order: set<string> -> seq<string>)
    returns (written: seq<nat>, narrationAudio: seq<string>)
    ensures written == seq(|frames|, i => i)
    ensures narrationAudio == SpokenNarrations(frames, order)
  {
    written, narrationAudio := [], [];
    var frameId := 0;
    while frameId < |frames|
      invariant 0 <= frameId <= |frames|
      invariant written == seq(frameId, i => i)
      invariant narrationAudio == SpokenNarrations(frames[..frameId], order)
    {
      assert frames[..frameId + 1][..frameId] == frames[..frameId];
      var labels := order(LabelSet(frames[frameId]));
      var narration := GetNarration(labels);
      if narration.Some? {
        narrationAudio := narrationAudio + [narration.value];
      }
      written := written + [frameId];
      frameId := frameId + 1;
    }
    assert frames[..frameId] == frames;
  }

  /** One narration per labelled frame. */
  lemma {:induction false} OneNarrationPerLabelledFrame(frames: seq<Frame>, order: set<string> -> seq<string>)
    requires ListsSets(order)
    ensures |SpokenNarrations(frames, order)|
         == |set i: nat | i < |frames| && frames[i].official + frames[i].custom != []|
    decreases |frames|
  {
    if frames != [] {
      var n := |frames| - 1;
      var init := frames[..n];
      OneNarrationPerLabelledFrame(init, order);
      ListingEmpty(frames[n], order);
      var before := set i: nat | i < |init| && init[i].official + init[i].custom != [];
      var after := set i: nat | i < |frames| && frames[i].official + frames[i].custom != [];
      assert n !in before;
      if frames[n].official + frames[n].custom != [] {
        assert after == before + {n};
      } else {
        assert after == before;
      }
    }
  }

  /** Consecutive frames with the same labels repeat their narration. */
  lemma RepeatedFrameRepeatsNarration(f: Frame, order: set<string> -> seq<string>)
    requires order(LabelSet(f)) != []
    ensures var n := "Detected: " + Join(order(LabelSet(f)), ", ");
      SpokenNarrations([f, f], order) == [n, n]
  {
    var n := "Detected: " + Join(order(LabelSet(f)), ", ");
    assert [f, f][..1] == [f];
    assert [f][..0] == [];
    assert SpokenNarrations([f], order) == SpokenNarrations([], order) + [n];
    assert SpokenNarrations([f, f], order) == SpokenNarrations([f], order) + [n];
  }

  datatype Response = HttpError(status: int, detail: string) | Json(processedVideoUrl: string)

  /** The `/process-video` endpoint; `failure` is the message of an
      exception raised while processing, if any. */
  function UploadVideo(filename: string, failure: Option<string>): (r: Response)
    ensures failure.Some? ==> r == HttpError(500, failure.value)
    ensures failure.None? ==> r == Json(PublicPrefix + ("processed_" + Sanitize(filename)))
  {
    match failure
    case Some(message) => HttpError(500, message)
    case None =>
      SanitizeProperties(filename);
      OutputPathShape(filename);
      BasenameAfterSlash(ProcessedDir, "processed_" + Sanitize(filename));
      Json(PublicPrefix + Basename(OutputPath(filename)))
  }
}
