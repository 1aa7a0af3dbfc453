/**
 The frame loop of `TrackerDPL::run` for the MFT: read-out frames are visited
 in input order; each frame's clusters are loaded, and when any were loaded the
 frame's LTF and CA tracks are found, the frame's output range is written into
 the (copied) ROF records and both track lists are flattened into the global
 buffers. The cluster loader, the track finder and the MC label routine are
 outside collaborators and are passed in as function values.
 */
module TrackerRun {
  import opened MFTTrack

  /** `roFrame` is a `std::uint32_t`: its increment wraps modulo 2^32. */
  const FrameCounterModulus: nat := 0x1_0000_0000

  /** A read-out frame record. `info` stands for the fields this stage
      never looks at (interaction record, frame number); `firstEntry` and
      `nEntries` hold the frame's cluster range on input and are overwritten
      with its track range when the frame is processed. */
  datatype ROFRecord<R> = ROFRecord(info: R, firstEntry: int, nEntries: int)

  /** What loading one frame yields: the number of clusters used, the filled
      frame working set, and the pattern cursor after the frame's patterns. */
  datatype Loaded<E> = Loaded(nclUsed: int, event: E, cursor: nat)

  /** The two track lists the finder leaves in the frame. */
  datatype Found<P> = Found(ltf: seq<Track<P>>, ca: seq<Track<P>>)

  /** The collaborators whose code is outside this stage.
      - `load`: `ioutils::loadROFrameData`, given the frame record and the
        pattern cursor (clusters, dictionary and MC truth are fixed for a run);
      - `findTracks`: `Tracker::clustersToTracks` on the loaded frame, told
        the frame counter through `setROFrame`;
      - `mcLabels`: the labels the tracker hands over after
        `computeTracksMClabels` has run on the LTF list and then on the CA
        list of the frame. */
  datatype Collaborators<!R, !E, !P, L> = Collaborators(
    load: (ROFRecord<R>, nat) -> Loaded<E>,
    findTracks: (E, nat) -> Found<P>,
    mcLabels: (E, seq<Track<P>>, seq<Track<P>>) -> seq<L>)

  /** Run conditions: continuous read-out (from the GRP object) and MC mode. */
  datatype Config = Config(continuous: bool, useMC: bool)

  /** Everything `run` changes while it walks the frames. */
  datatype TrackerState<R, P, L> = TrackerState(
    rofs: seq<ROFRecord<R>>,
    roFrame: nat,
    cursor: nat,
    tracks: seq<TrackMFT<P>>,
    clusIdx: seq<int>,
    labels: seq<L>,
    nTracksLTF: nat,
    nTracksCA: nat)

  /** Before the loop: the ROF records are a copy of the input, the counters
      are zero, the buffers are empty and the cursor is at the patterns' start. */
  function Initial<R, P, L>(input: seq<ROFRecord<R>>, cursor0: nat): TrackerState<R, P, L>
  {
    TrackerState(input, 0, cursor0, [], [], [], 0, 0)
  }

  /** One iteration of the frame loop, on the ROF record at position `i`. */
  function ProcessFrame<R, E, P, L>(c: Collaborators<R, E, P, L>, useMC: bool, st: TrackerState<R, P, L>, i: nat)
    : (r: TrackerState<R, P, L>)
    requires i < |st.rofs|
    ensures |r.rofs| == |st.rofs|
    ensures forall j :: 0 <= j < |st.rofs| && j != i ==> r.rofs[j] == st.rofs[j]
    ensures r.roFrame == (st.roFrame + 1) % FrameCounterModulus
    ensures r.cursor == c.load(st.rofs[i], st.cursor).cursor
    ensures |st.tracks| <= |r.tracks| && r.tracks[..|st.tracks|] == st.tracks
    ensures |st.clusIdx| <= |r.clusIdx| && r.clusIdx[..|st.clusIdx|] == st.clusIdx
    ensures |r.tracks| + st.nTracksLTF + st.nTracksCA == |st.tracks| + r.nTracksLTF + r.nTracksCA
    ensures c.load(st.rofs[i], st.cursor).nclUsed == 0 ==>
              r == st.(roFrame := r.roFrame, cursor := r.cursor)
    ensures c.load(st.rofs[i], st.cursor).nclUsed != 0 ==>
              && r.rofs[i].info == st.rofs[i].info
              && r.rofs[i].firstEntry == |st.tracks|
              && r.rofs[i].firstEntry + r.rofs[i].nEntries == |r.tracks|
    ensures var loaded := c.load(st.rofs[i], st.cursor);
            var found := c.findTracks(loaded.event, st.roFrame);
            loaded.nclUsed != 0 ==> r.rofs[i].nEntries == |found.ltf| + |found.ca|
  {
    var loaded := c.load(st.rofs[i], st.cursor);
    var next := (st.roFrame + 1) % FrameCounterModulus;
    if loaded.nclUsed != 0 then
      var found := c.findTracks(loaded.event, st.roFrame);
      var labels :=
        if useMC then st.labels + c.mcLabels(loaded.event, found.ltf, found.ca)
        else st.labels;
      var first := |st.tracks|;
      var number := |found.ltf| + |found.ca|;
      var rofs := st.rofs[i := st.rofs[i].(firstEntry := first, nEntries := number)];
      var afterLTF := CopyTracks(found.ltf, Buffers(st.tracks, st.clusIdx));
      var afterCA := CopyTracks(found.ca, afterLTF);
      assert afterCA.clusIdx[..|st.clusIdx|] == st.clusIdx by {
        assert afterCA.clusIdx == st.clusIdx + Flatten(found.ltf) + Flatten(found.ca);
      }
      TrackerState(rofs, next, loaded.cursor, afterCA.tracks, afterCA.clusIdx, labels,
                   st.nTracksLTF + |found.ltf|, st.nTracksCA + |found.ca|)
    else
      st.(roFrame := next, cursor := loaded.cursor)
  }

  /** The result of a frame with clusters, field by field, given what the
      loader and the finder return for it. */
  lemma TrackedFrameResult<R, E, P, L>(c: Collaborators<R, E, P, L>, useMC: bool, st: TrackerState<R, P, L>, i: nat,
                                       loaded: Loaded<E>, found: Found<P>)
    requires i < |st.rofs|
    requires loaded == c.load(st.rofs[i], st.cursor) && loaded.nclUsed != 0
    requires found == c.findTracks(loaded.event, st.roFrame)
    ensures var merged := CopyTracks(found.ca, CopyTracks(found.ltf, Buffers(st.tracks, st.clusIdx)));
      ProcessFrame(c, useMC, st, i)
      == TrackerState(
           st.rofs[i := st.rofs[i].(firstEntry := |st.tracks|, nEntries := |found.ltf| + |found.ca|)],
           (st.roFrame + 1) % FrameCounterModulus,
           loaded.cursor,
           merged.tracks,
           merged.clusIdx,
           if useMC then st.labels + c.mcLabels(loaded.event, found.ltf, found.ca)
           else st.labels,
           st.nTracksLTF + |found.ltf|,
           st.nTracksCA + |found.ca|)
  {
  }

  /** The state after the loop has visited the first `k` frames. */
  function RunFrames<R, E, P, L>(c: Collaborators<R, E, P, L>, useMC: bool, input: seq<ROFRecord<R>>, cursor0: nat, k: nat)
    : (st: TrackerState<R, P, L>)
    requires k <= |input|
    ensures |st.rofs| == |input|
    ensures forall j :: k <= j < |input| ==> st.rofs[j] == input[j]
    decreases k
  {
    if k == 0 then Initial(input, cursor0)
    else ProcessFrame(c, useMC, RunFrames(c, useMC, input, cursor0, k - 1), k - 1)
  }

  /** `TrackerDPL::run`: the frame loop runs only under continuous read-out;
      otherwise the outputs are the copied ROF records and empty buffers. */
  function Run<R, E, P, L>(c: Collaborators<R, E, P, L>, cfg: Config, input: seq<ROFRecord<R>>, cursor0: nat)
    : (out: TrackerState<R, P, L>)
    ensures |out.rofs| == |input|
    ensures !cfg.continuous ==>
              && out.rofs == input
              && out.tracks == [] && out.clusIdx == [] && out.labels == []
              && out.cursor == cursor0 && out.roFrame == 0
              && out.nTracksLTF == 0 && out.nTracksCA == 0
  {
    if cfg.continuous then RunFrames(c, cfg.useMC, input, cursor0, |input|)
    else Initial(input, cursor0)
  }
}
