/**
 Two small runs worked through end to end with concrete collaborators: the
 frame-info field of each input record tells the stand-in loader and finder
 which frame they are looking at.
 */
module TrackerScenarios {
  import opened MFTTrack
  import opened TrackerRun
  import opened TrackerRunProperties

  /** The stand-in loader: a frame whose info is negative has no usable
      clusters, any other frame has three; the frame's info is its working
      set, and each frame moves the pattern cursor by one. */
  function ScenarioLoad(r: ROFRecord<int>, cur: nat): Loaded<int>
  {
    Loaded(if r.info < 0 then 0 else 3, r.info, cur + 1)
  }

  /** The stand-in finder: frame 0 yields one LTF track on clusters 5 and 7,
      any other frame one CA track on cluster 2. */
  function ScenarioFind(e: int, id: nat): Found<int>
  {
    if e == 0 then Found([Track([5, 7], 10)], []) else Found([], [Track([2], 11)])
  }

  /** The stand-in MC labelling: every track is labelled with its frame. */
  function ScenarioLabels(e: int, ltf: seq<Track<int>>, ca: seq<Track<int>>): seq<int>
  {
    seq(|ltf| + |ca|, k => e)
  }

  function ScenarioCollaborators(): Collaborators<int, int, int, int>
  {
    Collaborators(ScenarioLoad, ScenarioFind, ScenarioLabels)
  }

  /** Both frames have clusters: the tracks are flattened in frame order and
      each frame's range is written over its input cluster range. */
  lemma {:induction false} TwoFrameRun()
    ensures var out := RunOf(RunInputs(ScenarioCollaborators(), [ROFRecord(0, 0, 4), ROFRecord(1, 4, 2)], 0), Config(true, true));
      && out.clusIdx == [5, 7, 2]
      && out.tracks == [TrackMFT(0, 2, 10), TrackMFT(2, 1, 11)]
      && out.rofs == [ROFRecord(0, 0, 1), ROFRecord(1, 1, 1)]
      && out.labels == [0, 1]
      && out.cursor == 2 && out.roFrame == 2
      && out.nTracksLTF == 1 && out.nTracksCA == 1
  {
    var c := ScenarioCollaborators();
    var input := [ROFRecord(0, 0, 4), ROFRecord(1, 4, 2)];
    assert RunFrames(c, true, input, 0, 0) == TwoFrameState0();
    TwoFrameFirst();
    assert RunFrames(c, true, input, 0, 1) == TwoFrameState1();
    TwoFrameSecond();
    assert RunFrames(c, true, input, 0, 2) == TwoFrameState2();
  }

  function TwoFrameState0(): TrackerState<int, int, int>
  {
    TrackerState([ROFRecord(0, 0, 4), ROFRecord(1, 4, 2)], 0, 0, [], [], [], 0, 0)
  }

  function TwoFrameState1(): TrackerState<int, int, int>
  {
    TrackerState([ROFRecord(0, 0, 1), ROFRecord(1, 4, 2)], 1, 1, [TrackMFT(0, 2, 10)], [5, 7], [0], 1, 0)
  }

  function TwoFrameState2(): TrackerState<int, int, int>
  {
    TrackerState([ROFRecord(0, 0, 1), ROFRecord(1, 1, 1)], 2, 2, [TrackMFT(0, 2, 10), TrackMFT(2, 1, 11)], [5, 7, 2], [0, 1], 1, 1)
  }

  lemma {:induction false} TwoFrameFirst()
    ensures ProcessFrame(ScenarioCollaborators(), true, TwoFrameState0(), 0) == TwoFrameState1()
  {
    var c := ScenarioCollaborators();
    var s0 := TwoFrameState0();
    var s1 := TwoFrameState1();
    var r := ProcessFrame(c, true, s0, 0);
    assert c.load(s0.rofs[0], 0) == Loaded(3, 0, 1);
    assert c.findTracks(0, 0) == Found([Track([5, 7], 10)], []);
    TrackedFrameResult(c, true, s0, 0, Loaded(3, 0, 1), Found([Track([5, 7], 10)], []));
    assert r.roFrame == 1 by {
      CounterBelowWrap(0);
    }
    assert r.rofs == s1.rofs;
    assert r.labels == [] + c.mcLabels(0, [Track([5, 7], 10)], []);
    assert r.labels == s1.labels;
    assert Buffers(r.tracks, r.clusIdx) == CopyTracks([], CopyTracks([Track([5, 7], 10)], Buffers([], [])));
    assert Buffers(r.tracks, r.clusIdx) == Buffers(s1.tracks, s1.clusIdx) by {
      OneTrackCopied(Track([5, 7], 10), Buffers([], []));
    }
  }

  lemma {:induction false} TwoFrameSecond()
    ensures ProcessFrame(ScenarioCollaborators(), true, TwoFrameState1(), 1) == TwoFrameState2()
  {
    var c := ScenarioCollaborators();
    var s1 := TwoFrameState1();
    var s2 := TwoFrameState2();
    var r := ProcessFrame(c, true, s1, 1);
    assert c.load(s1.rofs[1], 1) == Loaded(3, 1, 2);
    assert c.findTracks(1, 1) == Found([], [Track([2], 11)]);
    TrackedFrameResult(c, true, s1, 1, Loaded(3, 1, 2), Found([], [Track([2], 11)]));
    assert r.roFrame == 2 by {
      CounterBelowWrap(1);
    }
    assert r.rofs == s2.rofs;
    assert r.labels == [0] + c.mcLabels(1, [], [Track([2], 11)]);
    assert r.labels == s2.labels;
    assert Buffers(r.tracks, r.clusIdx) == CopyTracks([Track([2], 11)], CopyTracks([], Buffers(s1.tracks, s1.clusIdx)));
    assert Buffers(r.tracks, r.clusIdx) == Buffers(s2.tracks, s2.clusIdx) by {
      OneTrackCopied(Track([2], 11), Buffers(s1.tracks, s1.clusIdx));
    }
  }

  /** A frame with an empty cluster range uses no clusters and keeps the
      range it was copied with: that range is a cluster range, so it starts
      past the end of the track buffer rather than at the track count. */
  lemma {:induction false} EmptyFrameKeepsInputRange()
    ensures var out := RunOf(RunInputs(ScenarioCollaborators(), [ROFRecord(-1, 7, 0), ROFRecord(0, 4, 2)], 0), Config(true, false));
      && out.rofs == [ROFRecord(-1, 7, 0), ROFRecord(0, 0, 1)]
      && |out.tracks| == 1
      && out.rofs[0].firstEntry > |out.tracks|
  {
    var c := ScenarioCollaborators();
    var input := [ROFRecord(-1, 7, 0), ROFRecord(0, 4, 2)];
    var s0 := TrackerState(input, 0, 0, [], [], [], 0, 0);
    var s1 := TrackerState(input, 1, 1, [], [], [], 0, 0);
    var s2 := TrackerState([ROFRecord(-1, 7, 0), ROFRecord(0, 0, 1)], 2, 2, [TrackMFT(0, 2, 10)], [5, 7], [], 1, 0);
    assert RunFrames(c, false, input, 0, 0) == s0;
    assert ProcessFrame(c, false, s0, 0) == s1 by {
      assert c.load(input[0], 0) == Loaded(0, -1, 1);
    }
    assert RunFrames(c, false, input, 0, 1) == s1;
    assert ProcessFrame(c, false, s1, 1) == s2 by {
      assert c.load(input[1], 1) == Loaded(3, 0, 2);
      assert c.findTracks(0, 1) == Found([Track([5, 7], 10)], []);
      TrackedFrameResult(c, false, s1, 1, Loaded(3, 0, 2), Found([Track([5, 7], 10)], []));
      assert CopyTracks([Track([5, 7], 10)], Buffers([], [])) == Buffers([TrackMFT(0, 2, 10)], [5, 7]) by {
        OneTrackCopied(Track([5, 7], 10), Buffers([], []));
      }
    }
    assert RunFrames(c, false, input, 0, 2) == s2;
  }

  /** Copying a single track appends it after the buffers' clusters. */
  lemma {:induction false} OneTrackCopied<P>(t: Track<P>, b: Buffers<P>)
    ensures CopyTracks([t], b) == Buffers(b.tracks + [TrackMFT(|b.clusIdx|, |t.clusterIds|, t.payload)], b.clusIdx + t.clusterIds)
  {
    assert [t][..0] == [];
  }

  /** Far below 2^32 the frame counter steps without wrapping. */
  lemma {:induction false} CounterBelowWrap(n: nat)
    requires n + 1 < FrameCounterModulus
    ensures (n + 1) % FrameCounterModulus == n + 1
  {
  }
}
