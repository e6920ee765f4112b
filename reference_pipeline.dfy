/** The frame loop of the reference script's `process_video_with_audio`.
    A frame is abstracted to the label lists the two detectors report for
    it; the iteration order of a Python set is an input (`order`), a
    function from the label set to the list `list(set(...))` yields. Frame
    drawing, speech waveforms and the final muxing are not modelled: a
    written frame is its index, and the audio track is a sequence of
    spoken narrations and pauses. */
module ReferencePipeline {
  import opened Text
  import opened Lexicon
  import opened Narration

  /** Labels of one frame from the stock detector and the custom one. */
  datatype Frame = Frame(official: seq<string>, custom: seq<string>)

  datatype AudioPart = Speech(text: string) | Pause(ms: nat)

  /** The loop's variables: frames written so far (by index),
      `combined_audio`, `last_narration` and `processed_frames`. */
  datatype RunState = RunState(written: seq<nat>, audio: seq<AudioPart>, lastNarration: string, processedFrames: nat)

  /** The silence after each narration, in milliseconds. */
  const PauseMs: nat := 500

  /** The union of both detectors' labels for a frame. */
  function LabelSet(f: Frame): set<string> {
    set x | x in f.official + f.custom
  }

  /** `xs` lists the members of `s`, each once. */
  ghost predicate IsListing(s: set<string>, xs: seq<string>) {
    NoDuplicates(xs) && forall x :: x in xs <==> x in s
  }

  ghost predicate ListsSets(order: set<string> -> seq<string>) {
    forall s :: IsListing(s, order(s))
  }

  /** Number of copies `range(frame_skip)` yields. */
  function Copies(frameSkip: int): nat {
    if frameSkip > 0 then frameSkip else 0
  }

  function Repeat(id: nat, n: nat): (r: seq<nat>)
    ensures |r| == n && forall k :: 0 <= k < n ==> r[k] == id
  {
    seq(n, _ => id)
  }

  /** `get_narration` of the reference script. */
  function PythonNarration(labels: seq<string>): string {
    Compose(PythonLexicon, labels)
  }

  /** The effect of the loop body on frame `id`, with `narrate` standing
      for `get_narration`. */
  function Step(narrate: seq<string> -> string, st: RunState, id: nat, f: Frame, frameSkip: int, order: set<string> -> seq<string>): RunState
    requires frameSkip != 0
  {
    if id % frameSkip != 0 then st
    else
      var labels := order(LabelSet(f));
      var narrated :=
        if labels == [] then st
        else
          var narration := narrate(labels);
          var voiced :=
            if narration != st.lastNarration
            then st.(audio := st.audio + [Speech(narration), Pause(PauseMs)], lastNarration := narration)
            else st;
          voiced.(processedFrames := voiced.processedFrames + 1);
      narrated.(written := narrated.written + Repeat(id, Copies(frameSkip)))
  }

  /** The loop's variables after reading `frames`. */
  function Run(narrate: seq<string> -> string, frames: seq<Frame>, frameSkip: int, order: set<string> -> seq<string>): RunState
    requires frameSkip != 0
    decreases |frames|
  {
    if frames == [] then RunState([], [], "", 0)
    else Step(narrate, Run(narrate, frames[..|frames| - 1], frameSkip, order), |frames| - 1, frames[|frames| - 1], frameSkip, order)
  }

  /** `process_video_with_audio`: `None` is the `ZeroDivisionError` that
      `fps/frame_skip` raises for a zero `frame_skip`, before any frame is
      read. */
  method ProcessVideoWithAudio(frames: seq<Frame>, frameSkip: int, order: set<string> -> seq<string>)
    returns (r: Option<RunState>)
    ensures r.None? <==> frameSkip == 0
    ensures frameSkip != 0 ==> r == Some(Run(PythonNarration, frames, frameSkip, order))
  {
    if frameSkip == 0 {
      return None;
    }
    var written: seq<nat> := [];
    var combinedAudio: seq<AudioPart> := [];
    var lastNarration := "";
    var frameId := 0;
    var processedFrames := 0;
    while frameId < |frames|
      invariant 0 <= frameId <= |frames|
      invariant RunState(written, combinedAudio, lastNarration, processedFrames)
             == Run(PythonNarration, frames[..frameId], frameSkip, order)
    {
      assert frames[..frameId + 1][..frameId] == frames[..frameId];
      if frameId % frameSkip == 0 {
        var allLabels := order(LabelSet(frames[frameId]));
        if allLabels != [] {
          var narration := GetNarration(allLabels);
          if narration != lastNarration {
            combinedAudio := combinedAudio + [Speech(narration), Pause(PauseMs)];
            lastNarration := narration;
          }
          processedFrames := processedFrames + 1;
        }
        var before := written;
        var k := 0;
        while k < frameSkip
          invariant 0 <= k <= Copies(frameSkip)
          invariant written == before + Repeat(frameId, k)
        {
          written := written + [frameId];
          k := k + 1;
        }
      }
      frameId := frameId + 1;
    }
    assert frames[..frameId] == frames;
    return Some(RunState(written, combinedAudio, lastNarration, processedFrames));
  }

  /** A frame whose index is not a multiple of `frame_skip` is neither
      classified, narrated nor written. */
  lemma UnsampledFrameIgnored(narrate: seq<string> -> string, st: RunState, id: nat, f: Frame, frameSkip: int, order: set<string> -> seq<string>)
    requires frameSkip != 0 && id % frameSkip != 0
    ensures Step(narrate, st, id, f, frameSkip, order) == st
  {
  }

  /** The listing of a frame's label set is empty exactly when neither
      detector reported anything. */
  lemma ListingEmpty(f: Frame, order: set<string> -> seq<string>)
    requires ListsSets(order)
    ensures order(LabelSet(f)) == [] <==> f.official + f.custom == []
  {
    var labels := order(LabelSet(f));
    assert IsListing(LabelSet(f), labels);
    if f.official + f.custom != [] {
      assert (f.official + f.custom)[0] in LabelSet(f);
    }
    if labels != [] {
      assert labels[0] in LabelSet(f);
    }
  }

  /** A sampled frame without labels is written, and changes nothing else. */
  lemma UnlabelledFrameOnlyWritten(narrate: seq<string> -> string, st: RunState, id: nat, f: Frame, frameSkip: int, order: set<string> -> seq<string>)
    requires frameSkip != 0 && ListsSets(order) && f.official + f.custom == []
    ensures Step(narrate, st, id, f, frameSkip, order)
         == st.(written := st.written + if id % frameSkip == 0 then Repeat(id, Copies(frameSkip)) else [])
  {
    ListingEmpty(f, order);
    if id % frameSkip != 0 {
      assert st.written + [] == st.written;
    }
  }

  /** Frames written and frames counted by one step. */
  lemma StepCounts(narrate: seq<string> -> string, st: RunState, id: nat, f: Frame, frameSkip: int, order: set<string> -> seq<string>)
    requires frameSkip != 0
    ensures var next := Step(narrate, st, id, f, frameSkip, order);
      && next.written == st.written + (if id % frameSkip == 0 then Repeat(id, Copies(frameSkip)) else [])
      && next.processedFrames == st.processedFrames + (if id % frameSkip == 0 && order(LabelSet(f)) != [] then 1 else 0)
  {
    if id % frameSkip != 0 {
      assert st.written + [] == st.written;
    }
  }

  /** Number of indices below `n` that are multiples of `m`. */
  function SampledCount(n: nat, m: int): nat
    requires m != 0
  {
    if n == 0 then 0 else SampledCount(n - 1, m) + if (n - 1) % m == 0 then 1 else 0
  }

  lemma RepeatCounts(id: nat, n: nat, i: nat)
    ensures multiset(Repeat(id, n))[i] == if i == id then n else 0
  {
    if n > 0 {
      assert Repeat(id, n) == Repeat(id, n - 1) + [id];
      RepeatCounts(id, n - 1, i);
    }
  }

  /** Only sampled frames are written, each `frame_skip` times (none for a
      negative `frame_skip`). */
  lemma {:induction false} WrittenFrames(narrate: seq<string> -> string, frames: seq<Frame>, frameSkip: int, order: set<string> -> seq<string>)
    requires frameSkip != 0
    ensures forall k :: 0 <= k < |Run(narrate, frames, frameSkip, order).written| ==>
      Run(narrate, frames, frameSkip, order).written[k] < |frames|
    ensures forall i :: 0 <= i < |frames| ==>
      multiset(Run(narrate, frames, frameSkip, order).written)[i] == if i % frameSkip == 0 then Copies(frameSkip) else 0
    decreases |frames|
  {
    if frames != [] {
      var n := |frames| - 1;
      var init := frames[..n];
      WrittenFrames(narrate, init, frameSkip, order);
      var st0 := Run(narrate, init, frameSkip, order);
      StepCounts(narrate, st0, n, frames[n], frameSkip, order);
      var w0: seq<nat> := st0.written;
      var extra: seq<nat> := if n % frameSkip == 0 then Repeat(n, Copies(frameSkip)) else [];
      var w: seq<nat> := w0 + extra;
      assert Run(narrate, frames, frameSkip, order) == Step(narrate, st0, n, frames[n], frameSkip, order);
      assert w == Run(narrate, frames, frameSkip, order).written;
      assert multiset(w) == multiset(w0) + multiset(extra);
      forall k | 0 <= k < |w|
        ensures w[k] < |frames|
      {
        if k >= |w0| {
          assert w[k] == extra[k - |w0|] == n;
        }
      }
      forall i: nat | i < |frames|
        ensures multiset(w)[i] == if i % frameSkip == 0 then Copies(frameSkip) else 0
      {
        RepeatCounts(n, Copies(frameSkip), i);
        assert multiset(extra)[i] == if i == n && n % frameSkip == 0 then Copies(frameSkip) else 0;
        if i == n {
          assert forall k :: 0 <= k < |w0| ==> w0[k] != n;
          assert multiset(w0)[i] == 0;
        } else {
          assert i < |init|;
          assert multiset(w0)[i] == if i % frameSkip == 0 then Copies(frameSkip) else 0;
        }
      }
    }
  }

  /** The output has `frame_skip` frames for every sampled one. */
  lemma {:induction false} WrittenLength(narrate: seq<string> -> string, frames: seq<Frame>, frameSkip: int, order: set<string> -> seq<string>)
    requires frameSkip != 0
    ensures |Run(narrate, frames, frameSkip, order).written| == Copies(frameSkip) * SampledCount(|frames|, frameSkip)
    decreases |frames|
  {
    if frames != [] {
      var n := |frames| - 1;
      var init := frames[..n];
      WrittenLength(narrate, init, frameSkip, order);
      StepCounts(narrate, Run(narrate, init, frameSkip, order), n, frames[n], frameSkip, order);
      MulSucc(Copies(frameSkip), SampledCount(n, frameSkip));
    }
  }

  /** `c == SampledCount(n, m)` is `ceil(n / m)`: the least `c` with `n <= m * c`. */
  lemma {:induction false} SampledCountIsCeiling(n: nat, m: int)
    requires m > 0
    ensures n <= m * SampledCount(n, m) < n + m
  {
    if n > 0 {
      var p := n - 1;
      var c := SampledCount(p, m);
      SampledCountIsCeiling(p, m);
      var q, r := p / m, p % m;
      assert p == m * q + r && 0 <= r < m;
      if r == 0 {
        MulSqueeze(m, q, c);
        assert m * (c + 1) == m * c + m;
      } else if m * c == p {
        MulSqueeze(m, q, c);
        assert false;
      }
    }
  }

  lemma MulSucc(a: int, c: int)
    ensures a * (c + 1) == a * c + a
  {
  }

  lemma MulSqueeze(m: int, q: int, c: int)
    requires m > 0 && m * q <= m * c < m * q + m
    ensures c == q
  {
    if c < q {
      MulAtLeast(m, q - c);
    } else if c > q {
      MulAtLeast(m, c - q);
    }
  }

  lemma {:induction false} MulAtLeast(m: int, d: int)
    requires m > 0 && d >= 1
    ensures m * d >= m
    decreases d
  {
    if d > 1 {
      MulAtLeast(m, d - 1);
      assert m * d == m * (d - 1) + m;
    }
  }

  /** The speech texts of an audio track, in order. */
  function Speeches(audio: seq<AudioPart>): seq<string>
    decreases |audio|
  {
    if audio == [] then []
    else Speeches(audio[..|audio| - 1]) + match audio[|audio| - 1] { case Speech(t) => [t] case Pause(_) => [] }
  }

  /** Each narration is followed by a half-second pause. */
  predicate Alternating(audio: seq<AudioPart>)
    decreases |audio|
  {
    audio == [] ||
    (|audio| >= 2 && audio[|audio| - 2].Speech? && audio[|audio| - 1] == Pause(PauseMs)
     && Alternating(audio[..|audio| - 2]))
  }

  predicate NoAdjacentRepeats(xs: seq<string>) {
    forall i :: 0 < i < |xs| ==> xs[i - 1] != xs[i]
  }

  lemma SpeechesAppendPair(audio: seq<AudioPart>, t: string)
    ensures Speeches(audio + [Speech(t), Pause(PauseMs)]) == Speeches(audio) + [t]
  {
    var a := audio + [Speech(t), Pause(PauseMs)];
    assert a[..|a| - 1] == audio + [Speech(t)];
    assert (audio + [Speech(t)])[..|audio|] == audio;
  }

  /** The audio track alternates narration and pause, no narration repeats
      the one before it, and `last_narration` is the last one spoken (or
      empty before any). */
  lemma {:induction false} AudioAlternatesWithoutRepeats(narrate: seq<string> -> string, frames: seq<Frame>, frameSkip: int,
                                                         order: set<string> -> seq<string>)
    requires frameSkip != 0
    ensures var st := Run(narrate, frames, frameSkip, order);
      var spoken := Speeches(st.audio);
      && Alternating(st.audio)
      && NoAdjacentRepeats(spoken)
      && st.lastNarration == if spoken == [] then "" else spoken[|spoken| - 1]
    decreases |frames|
  {
    if frames != [] {
      var n := |frames| - 1;
      AudioAlternatesWithoutRepeats(narrate, frames[..n], frameSkip, order);
      var st0 := Run(narrate, frames[..n], frameSkip, order);
      var st := Run(narrate, frames, frameSkip, order);
      if st.audio != st0.audio {
        var t := st.lastNarration;
        assert st.audio == st0.audio + [Speech(t), Pause(PauseMs)] && t != st0.lastNarration;
        SpeechesAppendPair(st0.audio, t);
        assert st.audio[..|st.audio| - 2] == st0.audio;
      }
    }
  }

  /** The narrations `get_narration` yields, one per sampled frame with a
      non-empty label set, in frame order, whether spoken or not. */
  function Narrations(narrate: seq<string> -> string, frames: seq<Frame>, frameSkip: int, order: set<string> -> seq<string>): seq<string>
    requires frameSkip != 0
    decreases |frames|
  {
    if frames == [] then []
    else
      var n := |frames| - 1;
      var labels := order(LabelSet(frames[n]));
      Narrations(narrate, frames[..n], frameSkip, order)
        + (if n % frameSkip == 0 && labels != [] then [narrate(labels)] else [])
  }

  /** `xs` without every element that equals the one before it (the first
      element is compared with the empty string). */
  function DropRepeats(xs: seq<string>): seq<string>
    decreases |xs|
  {
    if xs == [] then []
    else
      var n := |xs| - 1;
      var prev := if n == 0 then "" else xs[n - 1];
      DropRepeats(xs[..n]) + (if xs[n] != prev then [xs[n]] else [])
  }

  /** The spoken narrations are exactly the narrations of the labelled
      sampled frames, in order, with each one that repeats its predecessor
      left out; `last_narration` is the last narration produced (or empty
      before any). */
  lemma {:induction false} SpokenAreNarrationsWithoutRepeats(narrate: seq<string> -> string, frames: seq<Frame>, frameSkip: int,
                                                              order: set<string> -> seq<string>)
    requires frameSkip != 0
    ensures Speeches(Run(narrate, frames, frameSkip, order).audio)
         == DropRepeats(Narrations(narrate, frames, frameSkip, order))
    ensures Narrations(narrate, frames, frameSkip, order) == [] ==>
      Run(narrate, frames, frameSkip, order).lastNarration == ""
    ensures Narrations(narrate, frames, frameSkip, order) != [] ==>
      Run(narrate, frames, frameSkip, order).lastNarration
        == Narrations(narrate, frames, frameSkip, order)[|Narrations(narrate, frames, frameSkip, order)| - 1]
    decreases |frames|
  {
    if frames != [] {
      var n := |frames| - 1;
      var init := frames[..n];
      SpokenAreNarrationsWithoutRepeats(narrate, init, frameSkip, order);
      var st0 := Run(narrate, init, frameSkip, order);
      var ns0 := Narrations(narrate, init, frameSkip, order);
      var ns := Narrations(narrate, frames, frameSkip, order);
      var labels := order(LabelSet(frames[n]));
      if n % frameSkip == 0 && labels != [] {
        var t := narrate(labels);
        assert ns == ns0 + [t];
        assert ns[..|ns| - 1] == ns0;
        if t != st0.lastNarration {
          SpeechesAppendPair(st0.audio, t);
        }
      } else {
        assert ns == ns0;
      }
    }
  }

  /** The indices of sampled frames on which either detector saw something. */
  function NarratedFrames(frames: seq<Frame>, frameSkip: int): set<nat>
    requires frameSkip != 0
  {
    set i: nat | i < |frames| && i % frameSkip == 0 && frames[i].official + frames[i].custom != []
  }

  /** `processed_frames` counts the sampled frames with a non-empty label
      set, whether or not their narration was spoken. */
  lemma {:induction false} ProcessedCountsLabelledFrames(narrate: seq<string> -> string, frames: seq<Frame>, frameSkip: int,
                                                         order: set<string> -> seq<string>)
    requires frameSkip != 0 && ListsSets(order)
    ensures Run(narrate, frames, frameSkip, order).processedFrames == |NarratedFrames(frames, frameSkip)|
    decreases |frames|
  {
    if frames != [] {
      var n := |frames| - 1;
      var init := frames[..n];
      ProcessedCountsLabelledFrames(narrate, init, frameSkip, order);
      var f := frames[n];
      StepCounts(narrate, Run(narrate, init, frameSkip, order), n, f, frameSkip, order);
      ListingEmpty(f, order);
      var before := NarratedFrames(init, frameSkip);
      var after := NarratedFrames(frames, frameSkip);
      assert n !in before;
      if n % frameSkip == 0 && f.official + f.custom != [] {
        assert after == before + {n};
      } else {
        assert after == before;
      }
    }
  }

}
