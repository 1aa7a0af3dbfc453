/**
 What `TrackerDPL::run` computes, stated without the loop. The pattern cursor
 and the per-frame loading depend only on the loader and the input ROF
 records, so the whole run can be read off the chain of loader calls: every
 frame with clusters contributes its LTF tracks then its CA tracks, and the
 output buffers are one `copyTracks` over all of them in frame order.
 */
module TrackerRunProperties {
  import opened MFTTrack
  import opened TrackerRun

  /** The inputs of one run: collaborators, input ROF records, start cursor. */
  datatype RunInputs<!R, !E, !P, L> = RunInputs(c: Collaborators<R, E, P, L>, rofs: seq<ROFRecord<R>>, cursor0: nat)

  /** The pattern cursor before frame `k`: only the loader moves it. */
  function CursorBefore<R, E, P, L>(x: RunInputs<R, E, P, L>, k: nat): nat
    requires k <= |x.rofs|
    decreases k, 0
  {
    if k == 0 then x.cursor0 else LoadAt(x, k - 1).cursor
  }

  /** The loader's result for frame `i`, which sees the input record. */
  function LoadAt<R, E, P, L>(x: RunInputs<R, E, P, L>, i: nat): Loaded<E>
    requires i < |x.rofs|
    decreases i, 1
  {
    x.c.load(x.rofs[i], CursorBefore(x, i))
  }

  /** Frame `i` is processed when the loader used any cluster. */
  predicate Processed<R, E, P, L>(x: RunInputs<R, E, P, L>, i: nat)
    requires i < |x.rofs|
  {
    LoadAt(x, i).nclUsed != 0
  }

  /** The finder's output for frame `i`, told the frame number modulo 2^32. */
  function FoundAt<R, E, P, L>(x: RunInputs<R, E, P, L>, i: nat): Found<P>
    requires i < |x.rofs|
  {
    x.c.findTracks(LoadAt(x, i).event, i % FrameCounterModulus)
  }

  /** The tracks frame `i` contributes: LTF then CA, or none. */
  function FrameTracks<R, E, P, L>(x: RunInputs<R, E, P, L>, i: nat): seq<Track<P>>
    requires i < |x.rofs|
  {
    if Processed(x, i) then FoundAt(x, i).ltf + FoundAt(x, i).ca else []
  }

  /** The tracks of frames `0 .. k-1`, in frame order. */
  function TracksBefore<R, E, P, L>(x: RunInputs<R, E, P, L>, k: nat): seq<Track<P>>
    requires k <= |x.rofs|
  {
    if k == 0 then [] else TracksBefore(x, k - 1) + FrameTracks(x, k - 1)
  }

  /** The labels of frames `0 .. k-1`: what the label routine hands over for
      each processed frame, in frame order, and nothing without MC. */
  function LabelsBefore<R, E, P, L>(x: RunInputs<R, E, P, L>, useMC: bool, k: nat): seq<L>
    requires k <= |x.rofs|
  {
    if k == 0 then []
    else if useMC && Processed(x, k - 1) then
      var ev := LoadAt(x, k - 1).event;
      LabelsBefore(x, useMC, k - 1) + x.c.mcLabels(ev, FoundAt(x, k - 1).ltf, FoundAt(x, k - 1).ca)
    else LabelsBefore(x, useMC, k - 1)
  }

  /** Number of LTF tracks found in frames `0 .. k-1`. */
  function LTFBefore<R, E, P, L>(x: RunInputs<R, E, P, L>, k: nat): nat
    requires k <= |x.rofs|
  {
    if k == 0 then 0
    else LTFBefore(x, k - 1) + (if Processed(x, k - 1) then |FoundAt(x, k - 1).ltf| else 0)
  }

  /** Number of CA tracks found in frames `0 .. k-1`. */
  function CABefore<R, E, P, L>(x: RunInputs<R, E, P, L>, k: nat): nat
    requires k <= |x.rofs|
  {
    if k == 0 then 0
    else CABefore(x, k - 1) + (if Processed(x, k - 1) then |FoundAt(x, k - 1).ca| else 0)
  }

  /** The output record of frame `i`: a processed frame's range starts after
      the tracks of earlier frames and spans its own; any other frame keeps
      the record it was copied with. */
  function ExpectedRof<R, E, P, L>(x: RunInputs<R, E, P, L>, i: nat): ROFRecord<R>
    requires i < |x.rofs|
  {
    if Processed(x, i) then x.rofs[i].(firstEntry := |TracksBefore(x, i)|, nEntries := |FrameTracks(x, i)|)
    else x.rofs[i]
  }

  /** Sum of `nEntries` over the processed frames among `0 .. k-1`. */
  function ProcessedEntriesBefore<R, E, P, L>(x: RunInputs<R, E, P, L>, rofs: seq<ROFRecord<R>>, k: nat): int
    requires k <= |x.rofs| == |rofs|
  {
    if k == 0 then 0
    else ProcessedEntriesBefore(x, rofs, k - 1) + (if Processed(x, k - 1) then rofs[k - 1].nEntries else 0)
  }

  /** Track position `t` lies in the range of some processed frame. */
  ghost predicate InProcessedRange<R, E, P, L>(x: RunInputs<R, E, P, L>, rofs: seq<ROFRecord<R>>, t: int)
    requires |rofs| == |x.rofs|
  {
    exists i :: 0 <= i < |x.rofs| && Processed(x, i) && rofs[i].firstEntry <= t < rofs[i].firstEntry + rofs[i].nEntries
  }

  function RunOf<R, E, P, L>(x: RunInputs<R, E, P, L>, cfg: Config): TrackerState<R, P, L>
  {
    Run(x.c, cfg, x.rofs, x.cursor0)
  }

  // ---------------------------------------------------------------------
  // The loop follows the trace
  // ---------------------------------------------------------------------

  lemma {:induction false} CounterStep(n: nat)
    ensures (n % FrameCounterModulus + 1) % FrameCounterModulus == (n + 1) % FrameCounterModulus
  {
  }

  /** The loop state `st` after `k` frames is the closed form: cursor from
      the loader chain, frame counter `k` modulo 2^32, buffers from one copy
      of all tracks so far, labels and counters from the processed frames,
      every visited ROF record as `ExpectedRof` and the others as input. */
  ghost predicate FollowsTrace<R, E, P, L>(x: RunInputs<R, E, P, L>, useMC: bool, k: nat, st: TrackerState<R, P, L>)
    requires k <= |x.rofs|
  {
    && |st.rofs| == |x.rofs|
    && st.cursor == CursorBefore(x, k)
    && st.roFrame == k % FrameCounterModulus
    && Buffers(st.tracks, st.clusIdx) == CopyTracks(TracksBefore(x, k), EmptyBuffers())
    && st.labels == LabelsBefore(x, useMC, k)
    && st.nTracksLTF == LTFBefore(x, k)
    && st.nTracksCA == CABefore(x, k)
    && (forall i :: 0 <= i < k ==> st.rofs[i] == ExpectedRof(x, i))
    && (forall j :: k <= j < |x.rofs| ==> st.rofs[j] == x.rofs[j])
  }

  /** A frame without clusters moves only the cursor and the frame counter. */
  lemma {:induction false} SkippedFrameFollowsTrace<R, E, P, L>(x: RunInputs<R, E, P, L>, useMC: bool, i: nat, prev: TrackerState<R, P, L>)
    requires i < |x.rofs| && FollowsTrace(x, useMC, i, prev)
    requires !Processed(x, i)
    ensures FollowsTrace(x, useMC, i + 1, ProcessFrame(x.c, useMC, prev, i))
  {
    var st := ProcessFrame(x.c, useMC, prev, i);
    assert x.c.load(prev.rofs[i], prev.cursor) == LoadAt(x, i);
    CounterStep(i);
    assert st == prev.(roFrame := (i + 1) % FrameCounterModulus, cursor := LoadAt(x, i).cursor);
    assert TracksBefore(x, i + 1) == TracksBefore(x, i);
    assert ExpectedRof(x, i) == x.rofs[i];
  }

  /** The buffers after a frame with clusters: LTF then CA appended. */
  lemma {:induction false} TrackedFrameBuffers<P>(before: seq<Track<P>>, found: Found<P>, b: Buffers<P>)
    requires b == CopyTracks(before, EmptyBuffers())
    ensures CopyTracks(found.ca, CopyTracks(found.ltf, b)) == CopyTracks(before + (found.ltf + found.ca), EmptyBuffers())
  {
    calc {
      CopyTracks(before + (found.ltf + found.ca), EmptyBuffers());
      { assert before + (found.ltf + found.ca) == before + found.ltf + found.ca; }
      CopyTracks(before + found.ltf + found.ca, EmptyBuffers());
      { CopyTracksAppend(before + found.ltf, found.ca, EmptyBuffers()); }
      CopyTracks(found.ca, CopyTracks(before + found.ltf, EmptyBuffers()));
      { CopyTracksAppend(before, found.ltf, EmptyBuffers()); }
      CopyTracks(found.ca, CopyTracks(found.ltf, b));
    }
  }

  /** A frame with clusters appends its LTF then CA tracks and writes its
      range. */
  lemma {:induction false} TrackedFrameFollowsTrace<R, E, P, L>(x: RunInputs<R, E, P, L>, useMC: bool, i: nat, prev: TrackerState<R, P, L>)
    requires i < |x.rofs| && FollowsTrace(x, useMC, i, prev)
    requires Processed(x, i)
    ensures FollowsTrace(x, useMC, i + 1, ProcessFrame(x.c, useMC, prev, i))
  {
    var loaded := LoadAt(x, i);
    var found := FoundAt(x, i);
    var st := ProcessFrame(x.c, useMC, prev, i);
    var merged := CopyTracks(found.ca, CopyTracks(found.ltf, Buffers(prev.tracks, prev.clusIdx)));
    assert st == TrackerState(
                   prev.rofs[i := prev.rofs[i].(firstEntry := |prev.tracks|, nEntries := |found.ltf| + |found.ca|)],
                   (prev.roFrame + 1) % FrameCounterModulus,
                   loaded.cursor,
                   merged.tracks,
                   merged.clusIdx,
                   if useMC then prev.labels + x.c.mcLabels(loaded.event, found.ltf, found.ca)
                   else prev.labels,
                   prev.nTracksLTF + |found.ltf|,
                   prev.nTracksCA + |found.ca|) by {
      assert x.c.load(prev.rofs[i], prev.cursor) == loaded;
      assert x.c.findTracks(loaded.event, prev.roFrame) == found;
      TrackedFrameResult(x.c, useMC, prev, i, loaded, found);
    }
    assert TracksBefore(x, i + 1) == TracksBefore(x, i) + (found.ltf + found.ca);
    assert st.roFrame == (i + 1) % FrameCounterModulus by {
      CounterStep(i);
    }
    assert Buffers(st.tracks, st.clusIdx) == CopyTracks(TracksBefore(x, i + 1), EmptyBuffers()) by {
      TrackedFrameBuffers(TracksBefore(x, i), found, Buffers(prev.tracks, prev.clusIdx));
    }
    assert forall j :: 0 <= j < i + 1 ==> st.rofs[j] == ExpectedRof(x, j) by {
      assert |prev.tracks| == |TracksBefore(x, i)|;
      assert st.rofs[i] == ExpectedRof(x, i);
    }
  }

  lemma {:induction false} RunFramesFollowsTrace<R, E, P, L>(x: RunInputs<R, E, P, L>, useMC: bool, k: nat)
    requires k <= |x.rofs|
    ensures FollowsTrace(x, useMC, k, RunFrames(x.c, useMC, x.rofs, x.cursor0, k))
    decreases k
  {
    if k > 0 {
      var i := k - 1;
      RunFramesFollowsTrace(x, useMC, i);
      var prev := RunFrames(x.c, useMC, x.rofs, x.cursor0, i);
      assert RunFrames(x.c, useMC, x.rofs, x.cursor0, k) == ProcessFrame(x.c, useMC, prev, i);
      if Processed(x, i) {
        TrackedFrameFollowsTrace(x, useMC, i, prev);
      } else {
        SkippedFrameFollowsTrace(x, useMC, i, prev);
      }
    }
  }

  /** A continuous run ends in the closed-form state for all its frames. */
  lemma RunFollowsTrace<R, E, P, L>(x: RunInputs<R, E, P, L>, cfg: Config)
    requires cfg.continuous
    ensures FollowsTrace(x, cfg.useMC, |x.rofs|, RunOf(x, cfg))
  {
    RunFramesFollowsTrace(x, cfg.useMC, |x.rofs|);
  }

  // ---------------------------------------------------------------------
  // Properties of a run
  // ---------------------------------------------------------------------

  /** Offset correctness over the whole run: output track `j` comes from the
      `j`-th track of the frame-ordered track list, and its slice of the
      cluster-index buffer holds that track's cluster ids. The cluster-index
      buffer is all cluster ids in that order, the ranges tile it, and the
      track count is the LTF count plus the CA count. */
  lemma {:induction false} RunTracksRepresentFrameTracks<R, E, P, L>(x: RunInputs<R, E, P, L>, cfg: Config)
    requires cfg.continuous
    ensures var out := RunOf(x, cfg); var ts := TracksBefore(x, |x.rofs|);
      && |out.tracks| == |ts|
      && (forall j :: 0 <= j < |ts| ==> Represents(out.tracks[j], ts[j], out.clusIdx))
      && out.clusIdx == Flatten(ts)
      && Contiguous(Buffers(out.tracks, out.clusIdx))
      && out.nTracksLTF == LTFBefore(x, |x.rofs|)
      && out.nTracksCA == CABefore(x, |x.rofs|)
      && |out.tracks| == out.nTracksLTF + out.nTracksCA
  {
    var n := |x.rofs|;
    var ts := TracksBefore(x, n);
    RunFollowsTrace(x, cfg);
    CopiedTracksRepresentInputs(ts, EmptyBuffers());
    CopyTracksPreservesContiguous(ts, EmptyBuffers<P>());
    CountsMatchTracks(x, n);
  }

  lemma {:induction false} CountsMatchTracks<R, E, P, L>(x: RunInputs<R, E, P, L>, k: nat)
    requires k <= |x.rofs|
    ensures |TracksBefore(x, k)| == LTFBefore(x, k) + CABefore(x, k)
    decreases k
  {
    if k > 0 {
      CountsMatchTracks(x, k - 1);
    }
  }

  /** The tracks of earlier frames are a prefix of the tracks of later ones. */
  lemma {:induction false} TracksBeforePrefix<R, E, P, L>(x: RunInputs<R, E, P, L>, k: nat, m: nat)
    requires k <= m <= |x.rofs|
    ensures |TracksBefore(x, k)| <= |TracksBefore(x, m)|
    ensures TracksBefore(x, m)[..|TracksBefore(x, k)|] == TracksBefore(x, k)
    decreases m - k
  {
    if k < m {
      TracksBeforePrefix(x, k, m - 1);
    }
  }

  /** The output ROF records: a processed frame's range is
      `(tracks of earlier frames, |LTF| + |CA|)`; a frame without clusters
      keeps the record it was copied with, range included. */
  lemma {:induction false} RunFrameRecords<R, E, P, L>(x: RunInputs<R, E, P, L>, cfg: Config)
    requires cfg.continuous
    ensures var out := RunOf(x, cfg);
      && (forall i :: 0 <= i < |x.rofs| && Processed(x, i) ==>
            && out.rofs[i].info == x.rofs[i].info
            && out.rofs[i].firstEntry == |TracksBefore(x, i)|
            && out.rofs[i].nEntries == |FoundAt(x, i).ltf| + |FoundAt(x, i).ca|
            && out.rofs[i].firstEntry + out.rofs[i].nEntries == |TracksBefore(x, i + 1)|)
      && (forall i :: 0 <= i < |x.rofs| && !Processed(x, i) ==> out.rofs[i] == x.rofs[i])
  {
    var n := |x.rofs|;
    var out := RunOf(x, cfg);
    RunFollowsTrace(x, cfg);
    forall i | 0 <= i < n && Processed(x, i)
      ensures && out.rofs[i].info == x.rofs[i].info
              && out.rofs[i].firstEntry == |TracksBefore(x, i)|
              && out.rofs[i].nEntries == |FoundAt(x, i).ltf| + |FoundAt(x, i).ca|
              && out.rofs[i].firstEntry + out.rofs[i].nEntries == |TracksBefore(x, i + 1)|
    {
      assert out.rofs[i] == ExpectedRof(x, i);
      assert TracksBefore(x, i + 1) == TracksBefore(x, i) + FrameTracks(x, i);
    }
    forall i | 0 <= i < n && !Processed(x, i)
      ensures out.rofs[i] == x.rofs[i]
    {
      assert out.rofs[i] == ExpectedRof(x, i);
    }
  }

  /** Positions `f ..` of `tracks` hold the LTF list, in order, followed by
      the CA list, in order. */
  ghost predicate FrameRepresented<P>(tracks: seq<TrackMFT<P>>, clusIdx: seq<int>, f: int, ltf: seq<Track<P>>, ca: seq<Track<P>>)
  {
    && f >= 0
    && f + |ltf| + |ca| <= |tracks|
    && (forall k :: 0 <= k < |ltf| ==> Represents(tracks[f + k], ltf[k], clusIdx))
    && (forall k :: 0 <= k < |ca| ==> Represents(tracks[f + |ltf| + k], ca[k], clusIdx))
  }

  /** Within a processed frame the output holds all LTF tracks, in order,
      followed by all CA tracks, in order, from the frame's first entry on. */
  lemma {:induction false} FrameTrackOrder<R, E, P, L>(x: RunInputs<R, E, P, L>, cfg: Config, i: nat)
    requires cfg.continuous
    requires i < |x.rofs| && Processed(x, i)
    ensures var out := RunOf(x, cfg);
      FrameRepresented(out.tracks, out.clusIdx, out.rofs[i].firstEntry, FoundAt(x, i).ltf, FoundAt(x, i).ca)
  {
    var out := RunOf(x, cfg);
    assert out.rofs[i].firstEntry == |TracksBefore(x, i)| by {
      RunFrameRecords(x, cfg);
    }
    assert Buffers(out.tracks, out.clusIdx) == CopyTracks(TracksBefore(x, |x.rofs|), EmptyBuffers()) by {
      RunFollowsTrace(x, cfg);
    }
    FrameTrackOrderIn(x, i, out.tracks, out.clusIdx, out.rofs[i].firstEntry);
  }

  /** `FrameTrackOrder` for the buffers of one copy of the run's tracks. */
  lemma {:induction false} FrameTrackOrderIn<R, E, P, L>(x: RunInputs<R, E, P, L>, i: nat, tracks: seq<TrackMFT<P>>, clusIdx: seq<int>, f: int)
    requires i < |x.rofs| && Processed(x, i)
    requires Buffers(tracks, clusIdx) == CopyTracks(TracksBefore(x, |x.rofs|), EmptyBuffers())
    requires f == |TracksBefore(x, i)|
    ensures FrameRepresented(tracks, clusIdx, f, FoundAt(x, i).ltf, FoundAt(x, i).ca)
  {
    var found := FoundAt(x, i);
    var before := TracksBefore(x, i);
    var all := TracksBefore(x, |x.rofs|);
    assert |before + found.ltf + found.ca| <= |all| && all[..|before + found.ltf + found.ca|] == before + found.ltf + found.ca by {
      FrameBlock(x, i);
    }
    assert |tracks| == |all| && forall j :: 0 <= j < |all| ==> Represents(tracks[j], all[j], clusIdx) by {
      CopiedFromEmptyRepresents(all, tracks, clusIdx);
    }
    FrameSliceRepresents(tracks, clusIdx, all, before, found.ltf, found.ca, f);
  }

  /** The tracks of a processed frame follow those of the earlier frames
      at the head of the whole run's track list. */
  lemma {:induction false} FrameBlock<R, E, P, L>(x: RunInputs<R, E, P, L>, i: nat)
    requires i < |x.rofs| && Processed(x, i)
    ensures var block := TracksBefore(x, i) + FoundAt(x, i).ltf + FoundAt(x, i).ca;
      && |block| <= |TracksBefore(x, |x.rofs|)|
      && TracksBefore(x, |x.rofs|)[..|block|] == block
  {
    TracksBeforePrefix(x, i + 1, |x.rofs|);
    assert TracksBefore(x, i + 1) == TracksBefore(x, i) + FoundAt(x, i).ltf + FoundAt(x, i).ca;
  }

  /** In buffers that represent `all`, a frame's block `before + ltf + ca`
      at the head of `all` puts the LTF tracks right after `before`, then the
      CA tracks. */
  lemma {:induction false} FrameSliceRepresents<P>(tracks: seq<TrackMFT<P>>, clusIdx: seq<int>, all: seq<Track<P>>,
                                before: seq<Track<P>>, ltf: seq<Track<P>>, ca: seq<Track<P>>, f: int)
    requires |tracks| == |all|
    requires forall j :: 0 <= j < |all| ==> Represents(tracks[j], all[j], clusIdx)
    requires |before + ltf + ca| <= |all| && all[..|before + ltf + ca|] == before + ltf + ca
    requires f == |before|
    ensures FrameRepresented(tracks, clusIdx, f, ltf, ca)
  {
    FrameSlice(all, before, ltf, ca);
    SliceRepresents(tracks, clusIdx, all, |before|, ltf);
    SliceRepresents(tracks, clusIdx, all, |before| + |ltf|, ca);
  }

  /** A run of consecutive positions of `all` copied into `tracks`. */
  lemma {:induction false} SliceRepresents<P>(tracks: seq<TrackMFT<P>>, clusIdx: seq<int>, all: seq<Track<P>>, f: nat, part: seq<Track<P>>)
    requires |tracks| == |all|
    requires forall j :: 0 <= j < |all| ==> Represents(tracks[j], all[j], clusIdx)
    requires f + |part| <= |all|
    requires forall k :: 0 <= k < |part| ==> all[f + k] == part[k]
    ensures forall k :: 0 <= k < |part| ==> Represents(tracks[f + k], part[k], clusIdx)
  {
    forall k | 0 <= k < |part|
      ensures Represents(tracks[f + k], part[k], clusIdx)
    {
      assert Represents(tracks[f + k], all[f + k], clusIdx);
    }
  }

  /** Where a frame's LTF and CA lists sit in a list that starts with the
      earlier frames' tracks followed by that frame's. */
  lemma {:induction false} FrameSlice<T>(all: seq<T>, before: seq<T>, ltf: seq<T>, ca: seq<T>)
    requires |before| + |ltf| + |ca| <= |all|
    requires all[..|before + ltf + ca|] == before + ltf + ca
    ensures forall k :: 0 <= k < |ltf| ==> all[|before| + k] == ltf[k]
    ensures forall k :: 0 <= k < |ca| ==> all[|before| + |ltf| + k] == ca[k]
  {
    forall k | 0 <= k < |ltf|
      ensures all[|before| + k] == ltf[k]
    {
      assert all[|before| + k] == (before + ltf + ca)[|before| + k];
    }
    forall k | 0 <= k < |ca|
      ensures all[|before| + |ltf| + k] == ca[k]
    {
      assert all[|before| + |ltf| + k] == (before + ltf + ca)[|before| + |ltf| + k];
    }
  }

  lemma {:induction false} EntriesMatchTracks<R, E, P, L>(x: RunInputs<R, E, P, L>, rofs: seq<ROFRecord<R>>, k: nat)
    requires k <= |x.rofs| == |rofs|
    requires forall i :: 0 <= i < |x.rofs| && Processed(x, i) ==> rofs[i].nEntries == |FrameTracks(x, i)|
    ensures ProcessedEntriesBefore(x, rofs, k) == |TracksBefore(x, k)|
    decreases k
  {
    if k > 0 {
      EntriesMatchTracks(x, rofs, k - 1);
    }
  }

  lemma {:induction false} TrackIndexInSomeFrame<R, E, P, L>(x: RunInputs<R, E, P, L>, k: nat, t: nat)
    requires k <= |x.rofs|
    requires t < |TracksBefore(x, k)|
    ensures exists i :: 0 <= i < k && Processed(x, i) && |TracksBefore(x, i)| <= t < |TracksBefore(x, i + 1)|
    decreases k
  {
    if t < |TracksBefore(x, k - 1)| {
      TrackIndexInSomeFrame(x, k - 1, t);
    } else {
      assert Processed(x, k - 1);
    }
  }

  /** The ranges written by processed frames partition the track buffer:
      each starts where the processed frames before it end (so they are in
      frame order and do not overlap), and every output track lies in the
      range of some processed frame. */
  lemma {:induction false} RunRangesPartitionTracks<R, E, P, L>(x: RunInputs<R, E, P, L>, cfg: Config)
    requires cfg.continuous
    ensures var out := RunOf(x, cfg);
      && (forall i :: 0 <= i < |x.rofs| && Processed(x, i) ==>
            && out.rofs[i].nEntries >= 0
            && out.rofs[i].firstEntry == ProcessedEntriesBefore(x, out.rofs, i))
      && (forall i, j :: 0 <= i < j < |x.rofs| && Processed(x, i) && Processed(x, j) ==>
            out.rofs[i].firstEntry + out.rofs[i].nEntries <= out.rofs[j].firstEntry)
      && |out.tracks| == ProcessedEntriesBefore(x, out.rofs, |x.rofs|)
      && (forall t :: 0 <= t < |out.tracks| ==> InProcessedRange(x, out.rofs, t))
  {
    var n := |x.rofs|;
    var out := RunOf(x, cfg);
    RunFrameRecords(x, cfg);
    assert |out.tracks| == |TracksBefore(x, n)| by {
      RunTracksRepresentFrameTracks(x, cfg);
    }
    forall k | 0 <= k <= n
      ensures ProcessedEntriesBefore(x, out.rofs, k) == |TracksBefore(x, k)|
    {
      EntriesMatchTracks(x, out.rofs, k);
    }
    forall i, j | 0 <= i < j < n && Processed(x, i) && Processed(x, j)
      ensures out.rofs[i].firstEntry + out.rofs[i].nEntries <= out.rofs[j].firstEntry
    {
      TracksBeforePrefix(x, i + 1, j);
    }
    forall t | 0 <= t < |out.tracks|
      ensures InProcessedRange(x, out.rofs, t)
    {
      TrackIndexInSomeFrame(x, n, t);
    }
  }

  /** Labels are appended frame by frame, only for processed frames and only
      in MC mode; the frame counter ends at the frame count modulo 2^32. */
  lemma {:induction false} RunLabelsAndCounter<R, E, P, L>(x: RunInputs<R, E, P, L>, cfg: Config)
    requires cfg.continuous
    ensures RunOf(x, cfg).labels == LabelsBefore(x, cfg.useMC, |x.rofs|)
    ensures !cfg.useMC ==> RunOf(x, cfg).labels == []
    ensures RunOf(x, cfg).roFrame == |x.rofs| % FrameCounterModulus
    ensures RunOf(x, cfg).cursor == CursorBefore(x, |x.rofs|)
  {
    RunFollowsTrace(x, cfg);
    if !cfg.useMC {
      NoLabelsWithoutMC(x, |x.rofs|);
    }
  }

  lemma {:induction false} NoLabelsWithoutMC<R, E, P, L>(x: RunInputs<R, E, P, L>, k: nat)
    requires k <= |x.rofs|
    ensures LabelsBefore(x, false, k) == []
    decreases k
  {
    if k > 0 {
      NoLabelsWithoutMC(x, k - 1);
    }
  }

  /** In this model, where the loader sees only the ROF record and the
      cursor, the pattern cursor and the choice of processed frames depend on
      the loader alone: two runs that share the loader, input and start cursor
      agree on them whatever their track finders and label routines do. */
  lemma {:induction false} CursorIndependentOfFinder<R, E, P, L>(x1: RunInputs<R, E, P, L>, x2: RunInputs<R, E, P, L>, k: nat)
    requires x1.rofs == x2.rofs && x1.cursor0 == x2.cursor0
    requires forall r, cur :: x1.c.load(r, cur) == x2.c.load(r, cur)
    requires k <= |x1.rofs|
    ensures CursorBefore(x1, k) == CursorBefore(x2, k)
    ensures forall i :: 0 <= i < k ==> Processed(x1, i) == Processed(x2, i)
    decreases k
  {
    if k > 0 {
      CursorIndependentOfFinder(x1, x2, k - 1);
      assert LoadAt(x1, k - 1) == LoadAt(x2, k - 1);
    }
  }
}
