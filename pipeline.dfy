/**
 * `splitTextAndProcess`: normalise the input, walk it chunk by chunk, send
 * every chunk to the speech service, report progress after every pass, and
 * merge the audio that came back into one WAVE file. The speech service and
 * the audio decoder are parameters: `synth(text, index)` is the response body
 * of one request, or `None` when the request fails; `decode(bytes)` is the
 * decoded buffer, or `None` when decoding fails.
 */
module Pipeline {
  import opened Types
  import opened Text
  import opened Chunker
  import opened Audio
  import opened AudioMerge

  /**
   * What one run of `splitTextAndProcess` does that can be observed: the
   * values passed to `setProgress`, in order; the chunks sent to the speech
   * service, in order (chunk `k` with index `k`); and the WAVE file behind the
   * audio URL, if one is set.
   */
  datatype Run = Run(progress: seq<int>, requests: seq<string>, audio: Option<Bytes>)

  /** `audioBuffers`: the responses of the requests that succeeded, in request order. */
  function Synthesized(synth: (string, nat) -> Option<Bytes>, requests: seq<string>): (r: seq<Bytes>)
    ensures |r| <= |requests|
  {
    if requests == [] then []
    else
      var k := |requests| - 1;
      Synthesized(synth, requests[..k]) + (match synth(requests[k], k) case Some(b) => [b] case None => [])
  }

  /** The positions of the requests that succeeded, in request order. */
  function Succeeded(synth: (string, nat) -> Option<Bytes>, requests: seq<string>): (r: seq<nat>)
    ensures forall j :: 0 <= j < |r| ==> r[j] < |requests|
    ensures forall i, j :: 0 <= i < j < |r| ==> r[i] < r[j]
    ensures forall k :: 0 <= k < |requests| ==> (k in r <==> synth(requests[k], k).Some?)
    decreases |requests|
  {
    if requests == [] then []
    else
      var k := |requests| - 1;
      var init := requests[..k];
      assert forall m :: 0 <= m < k ==> init[m] == requests[m];
      Succeeded(synth, init) + (if synth(requests[k], k).Some? then [k] else [])
  }

  /** The run of a non-empty input, pass by pass as the loop walks the normalised text. */
  ghost function Expected(inputText: string, synth: (string, nat) -> Option<Bytes>,
                          decode: Bytes -> Option<DecodedBuffer>): Run
    requires inputText != []
  {
    var data := Normalize(inputText);
    var plan := PlanFrom(data, 0);
    var requests := ChunkTexts(data, plan.ends);
    Run(Reported(data), requests, if plan.aborted then None else MergeResult(Synthesized(synth, requests), decode))
  }

  // ---------------------------------------------------------------------
  // Properties of a run

  /** When every request succeeds, `audioBuffers` holds every response, in request order. */
  lemma {:induction false} SynthesizedAllSucceed(synth: (string, nat) -> Option<Bytes>, requests: seq<string>)
    requires forall k :: 0 <= k < |requests| ==> synth(requests[k], k).Some?
    ensures var r := Synthesized(synth, requests);
      |r| == |requests| && forall k :: 0 <= k < |requests| ==> Some(r[k]) == synth(requests[k], k)
    decreases |requests|
  {
    if requests != [] {
      var n := |requests| - 1;
      var init := requests[..n];
      forall k | 0 <= k < |init| ensures synth(init[k], k).Some? {
        assert init[k] == requests[k];
      }
      SynthesizedAllSucceed(synth, init);
    }
  }

  /**
   * Whatever mix of requests succeeds, `audioBuffers` holds one entry per
   * successful request: entry `j` is the response of the `j`-th of them.
   */
  lemma {:induction false} SynthesizedPicks(synth: (string, nat) -> Option<Bytes>, requests: seq<string>)
    ensures var r, idx := Synthesized(synth, requests), Succeeded(synth, requests);
      |r| == |idx| && forall j :: 0 <= j < |r| ==> Some(r[j]) == synth(requests[idx[j]], idx[j])
    decreases |requests|
  {
    if requests != [] {
      var k := |requests| - 1;
      var init := requests[..k];
      SynthesizedPicks(synth, init);
      var idx := Succeeded(synth, init);
      forall j | 0 <= j < |idx| ensures init[idx[j]] == requests[idx[j]] {
      }
      var last := synth(requests[k], k);
      assert Synthesized(synth, requests) ==
        Synthesized(synth, init) + (match last case Some(b) => [b] case None => []);
      assert Succeeded(synth, requests) == idx + (if last.Some? then [k] else []);
    }
  }

  /** When every request fails, `audioBuffers` stays empty. */
  lemma {:induction false} SynthesizedAllFail(synth: (string, nat) -> Option<Bytes>, requests: seq<string>)
    requires forall k :: 0 <= k < |requests| ==> synth(requests[k], k).None?
    ensures Synthesized(synth, requests) == []
    decreases |requests|
  {
    if requests != [] {
      var n := |requests| - 1;
      var init := requests[..n];
      forall k | 0 <= k < |init| ensures synth(init[k], k).None? {
        assert init[k] == requests[k];
      }
      SynthesizedAllFail(synth, init);
    }
  }

  /** The values passed to `setProgress` by a run over the normalised text `data`. */
  function Reported(data: string): (t: seq<int>)
    requires data != []
  {
    var plan := PlanFrom(data, 0);
    [0] + ProgressTrace(data, plan.ends) + (if plan.aborted then [] else [100])
  }

  /**
   * The progress of a run starts at 0, stays in [0, 100] and never decreases;
   * it reaches 100 exactly when the run does not take the error exit (which
   * leaves the bar where it stood).
   */
  lemma ReportedProgress(data: string)
    requires data != []
    ensures var t := Reported(data);
      |t| > 0 && t[0] == 0 &&
      (forall k :: 0 <= k < |t| ==> 0 <= t[k] <= 100) &&
      (forall i, j :: 0 <= i <= j < |t| ==> t[i] <= t[j]) &&
      (t[|t| - 1] == 100 <==> !PlanFrom(data, 0).aborted)
  {
    var plan := PlanFrom(data, 0);
    var trace := ProgressTrace(data, plan.ends);
    var t := Reported(data);
    ProgressOfPlan(data);
    if plan.aborted {
      PlanAbortedInside(data, 0);
      assert t == [0] + trace;
      if trace != [] {
        assert trace[|trace| - 1] == Percent(plan.ends[|trace| - 1], |data|);
      }
    } else {
      assert t == [0] + trace + [100];
    }
  }

  /**
   * The requests of a run that does not take the error exit: one per pass,
   * each the trimmed span between consecutive ends, and the untrimmed spans
   * concatenate to the whole normalised text.
   */
  lemma RunRequests(inputText: string, synth: (string, nat) -> Option<Bytes>, decode: Bytes -> Option<DecodedBuffer>)
    requires inputText != [] && !PlanFrom(Normalize(inputText), 0).aborted
    ensures var data := Normalize(inputText); var ends := PlanFrom(data, 0).ends;
      var requests := Expected(inputText, synth, decode).requests;
      |requests| == |ends| && Covered(data, 0, ends) == data &&
      forall k :: 0 <= k < |ends| ==> requests[k] == Trim(Slice(data, StartOf(0, ends, k), ends[k]))
  {
    var data := Normalize(inputText);
    var ends := PlanFrom(data, 0).ends;
    PlanCovers(data, 0);
    assert data[0..] == data;
  }

  /** No audio is set when every request of the run fails: there is nothing to merge. */
  lemma NoAudioWithoutResponses(inputText: string, synth: (string, nat) -> Option<Bytes>, decode: Bytes -> Option<DecodedBuffer>)
    requires inputText != []
    requires var requests := Expected(inputText, synth, decode).requests;
      forall k :: 0 <= k < |requests| ==> synth(requests[k], k).None?
    ensures Expected(inputText, synth, decode).audio == None
  {
    SynthesizedAllFail(synth, Expected(inputText, synth, decode).requests);
    MergeEmpty(decode);
  }

  lemma SynthesizedSnoc(synth: (string, nat) -> Option<Bytes>, requests: seq<string>, chunk: string)
    ensures Synthesized(synth, requests + [chunk]) ==
      Synthesized(synth, requests) + (match synth(chunk, |requests|) case Some(b) => [b] case None => [])
  {
    assert (requests + [chunk])[..|requests|] == requests;
  }

  /** The walk from 0 has produced `ends` and stands at `cur`. */
  ghost predicate WalkedTo(data: string, ends: seq<nat>, cur: nat) {
    cur == StartOf(0, ends, |ends|) &&
    PlanFrom(data, 0) == Plan(ends + PlanFrom(data, cur).ends, PlanFrom(data, cur).aborted)
  }

  lemma WalkSteps(data: string, ends: seq<nat>, cur: nat, e: nat)
    requires WalkedTo(data, ends, cur) && cur < |data| && NextEnd(data, cur) == Some(e)
    ensures WalkedTo(data, ends + [e], e)
  {
    var rest := PlanFrom(data, e);
    PlanStep(data, cur);
    ConcatAssoc(ends, [e], rest.ends);
    assert StartOf(0, ends + [e], |ends| + 1) == e;
  }

  lemma WalkAborts(data: string, ends: seq<nat>, cur: nat)
    requires WalkedTo(data, ends, cur) && cur < |data| && NextEnd(data, cur).None?
    ensures PlanFrom(data, 0) == Plan(ends, true)
  {
    assert ends + [] == ends;
  }

  lemma WalkEnds(data: string, ends: seq<nat>, cur: nat)
    requires WalkedTo(data, ends, cur) && cur >= |data|
    ensures PlanFrom(data, 0) == Plan(ends, false)
  {
    assert ends + [] == ends;
  }

  /**
   * The boundary computation of one pass: the window's end when it reaches the
   * end of the text, else just after the window's last period, else the
   * forward search, which `None` ends when the period is too far or missing.
   */
  method ChunkEnd(data: string, currentIndex: nat) returns (next: Option<int>)
    requires currentIndex < |data|
    ensures next == NextEnd(data, currentIndex)
  {
    var endIndex := currentIndex + ChunkSize;
    if endIndex < |data| {
      var periodIndex := LastIndexOf(data, '.', endIndex);
      if periodIndex > currentIndex {
        endIndex := periodIndex + 1;
      } else {
        var nextPeriodIndex := IndexOf(data, '.', endIndex);
        if nextPeriodIndex == -1 || nextPeriodIndex - currentIndex > ChunkSize {
          return None;
        }
        endIndex := nextPeriodIndex + 1;
      }
    }
    return Some(endIndex);
  }

  /**
   * `splitTextAndProcess()`. An empty input only resets the progress to 0.
   * Otherwise the loop walks the normalised text; a window without a period
   * ends the run with no audio. After the loop the responses are merged and
   * the progress is set to 100.
   */
  method SplitTextAndProcess(inputText: string, synth: (string, nat) -> Option<Bytes>,
                             decode: Bytes -> Option<DecodedBuffer>) returns (run: Run)
    ensures inputText == [] ==> run == Run([0], [], None)
    ensures inputText != [] ==> run == Expected(inputText, synth, decode)
  {
    if inputText == [] {
      return Run([0], [], None);
    }
    var data := Normalize(inputText);
    var trace, requests, audioBuffers, aborted := ProcessChunks(data, synth);
    if aborted {
      assert [0] + trace + [] == [0] + trace;
      return Run([0] + trace, requests, None);
    }
    var mergedAudioBlob := MergeAudioFiles(audioBuffers, decode);
    run := Run([0] + trace + [100], requests, mergedAudioBlob);
  }

  /**
   * The `while` loop of `splitTextAndProcess`. Every pass computes the end of
   * its chunk, sends the trimmed chunk with the pass number, keeps a successful
   * response and reports the progress; `aborted` is the error exit taken when a
   * sentence does not fit in one request.
   */
  method ProcessChunks(data: string, synth: (string, nat) -> Option<Bytes>)
      returns (progress: seq<int>, requests: seq<string>, audioBuffers: seq<Bytes>, aborted: bool)
    requires data != []
    ensures var plan := PlanFrom(data, 0);
      aborted == plan.aborted && requests == ChunkTexts(data, plan.ends) &&
      progress == ProgressTrace(data, plan.ends) && audioBuffers == Synthesized(synth, requests)
  {
    var chunkCount := 0;
    var currentIndex: nat := 0;
    progress, requests, audioBuffers, aborted := [], [], [], false;
    ghost var ends: seq<nat> := [];
    while currentIndex < |data|
      invariant WalkedTo(data, ends, currentIndex)
      invariant chunkCount == |requests|
      invariant requests == ChunkTexts(data, ends)
      invariant audioBuffers == Synthesized(synth, requests)
      invariant progress == ProgressTrace(data, ends)
      decreases |data| - currentIndex
    {
      var next := ChunkEnd(data, currentIndex);
      if next.None? {
        WalkAborts(data, ends, currentIndex);
        aborted := true;
        return;
      }
      var endIndex: nat := next.value;
      var chunk := Trim(Slice(data, currentIndex, endIndex));
      var audioData := synth(chunk, chunkCount);
      SynthesizedSnoc(synth, requests, chunk);
      if audioData.Some? {
        audioBuffers := audioBuffers + [audioData.value];
      }
      chunkCount := chunkCount + 1;
      ChunkTextsSnoc(data, ends, endIndex);
      ProgressTraceSnoc(data, ends, endIndex);
      requests := requests + [chunk];
      WalkSteps(data, ends, currentIndex, endIndex);
      ends := ends + [endIndex];
      currentIndex := endIndex;
      progress := progress + [Percent(currentIndex, |data|)];
    }
    WalkEnds(data, ends, currentIndex);
  }
}
