# MFT tracker frame loop

This project models the track-merging core of the MFT tracker workflow,
`TrackerDPL::run` in `Detectors/ITSMFT/MFT/workflow/src/TrackerSpec.cxx`.
It covers the frame loop and its `copyTracks` lambda. The model is in Dafny
and its properties are proved.

The loop visits the read-out frames (ROFs) in input order. For each frame it:

1. loads the frame's clusters through the external loader, which also
   advances the pattern cursor;
2. if any cluster was used, runs the track finder, which yields an LTF list
   and a CA list;
3. adds the MC labels when running on simulation;
4. writes the frame's output range `(firstEntry, nEntries)` into the copied
   ROF records;
5. flattens the LTF tracks, then the CA tracks, into the global track buffer
   and the append-only global cluster-index buffer. Each output track records
   the offset where its own cluster ids begin.

The 32-bit frame counter `roFrame` steps once per frame, whether or not the
frame was processed.

Files:

- `tracks.dfy` (module `MFTTrack`) holds the track types and `copyTracks`.
  `CopyTracks` is a function and `CopyTracksLoop` follows the nested loops.
  The module also holds the offset and append lemmas.
- `tracker_run.dfy` (module `TrackerRun`) holds the ROF record, one loop
  iteration (`ProcessFrame`), the loop as a left fold (`RunFrames`) and
  `Run`. The loader, the track finder and the MC label routine have no code
  in this file. They are function values in `Collaborators`.
- `run_properties.dfy` (module `TrackerRunProperties`) gives a reference
  description of the run without the loop. It is built from the chain of
  loader calls (`CursorBefore`, `LoadAt`), the per-frame tracks
  (`TracksBefore`) and the expected output record (`ExpectedRof`). The
  module proves that the loop computes this description (`RunFollowsTrace`)
  and derives the run-level properties from it.
- `scenarios.dfy` (module `TrackerScenarios`) proves the outcome of two
  small concrete runs.

A frame whose loader reports no used clusters is skipped:
its ROF record keeps the `firstEntry`/`nEntries` it was copied with from the
input (`TrackerSpec.cxx` lines 96 and 144). Those values are a cluster range,
not a track range. They are not reset to an empty range at the current track
count. `EmptyFrameKeepsInputRange` shows such a kept range starting past the
end of the track buffer.

## Model

| member | source | states |
|---|---|---|
| MFTTrack.CopyTracks | Detectors/ITSMFT/MFT/workflow/src/TrackerSpec.cxx:128-138 | the cluster-index buffer becomes the old buffer followed by every track's cluster ids in track order; exactly one output track per input track is appended; the existing tracks are left as they were |
| MFTTrack.CopyTracksLoop | Detectors/ITSMFT/MFT/workflow/src/TrackerSpec.cxx:128-138 | the nested loops, pushing ids one by one and emplacing each track after its ids, leave exactly the buffers `CopyTracks` describes |
| MFTTrack.CopyTracksOffsets | Detectors/ITSMFT/MFT/workflow/src/TrackerSpec.cxx:130-136 | the k-th copied track gets as offset the cluster-index buffer length just before its own ids are pushed (old length plus the points of the tracks before it), keeps its point count and its payload |
| MFTTrack.CopiedTracksRepresentInputs | Detectors/ITSMFT/MFT/workflow/src/TrackerSpec.cxx:130-136 | for every copied track with offset o and n points, `allClusIdx[o..o+n)` equals that track's external cluster ids in point order |
| MFTTrack.CopiedTrackRepresents | Detectors/ITSMFT/MFT/workflow/src/TrackerSpec.cxx:130-136 | the same offset-correctness statement for one chosen track of the list |
| MFTTrack.CopiedFromEmptyRepresents | Detectors/ITSMFT/MFT/workflow/src/TrackerSpec.cxx:128-138 | buffers filled from empty by one copy hold one output track per input track, and each represents its input track |
| MFTTrack.FlattenLength | Detectors/ITSMFT/MFT/workflow/src/TrackerSpec.cxx:131-135 | the cluster-index buffer grows by the sum of the point counts of the copied tracks |
| MFTTrack.CopyTracksAppend | Detectors/ITSMFT/MFT/workflow/src/TrackerSpec.cxx:169-170 | copying the LTF list and then the CA list gives the same buffers as one copy of the list `LTF ++ CA` |
| MFTTrack.CopyTracksPreservesContiguous | Detectors/ITSMFT/MFT/workflow/src/TrackerSpec.cxx:128-138 | if the cluster ranges of the buffered tracks tile the cluster-index buffer before a copy, they still do after it |
| MFTTrack.AppendTrackPreservesContiguous | Detectors/ITSMFT/MFT/workflow/src/TrackerSpec.cxx:130-136 | one track appended at the current end of the cluster-index buffer keeps the ranges tiling it |
| MFTTrack.ZeroPointTrackAppended | Detectors/ITSMFT/MFT/workflow/src/TrackerSpec.cxx:129-136 | a track without points is still appended, with offset equal to the current cluster-index buffer length, and the cluster-index buffer is unchanged |
| TrackerRun.ProcessFrame | Detectors/ITSMFT/MFT/workflow/src/TrackerSpec.cxx:142-173 | one frame changes at most its own ROF record; the counter steps by one modulo 2^32; the cursor is the loader's; both buffers only grow at the end; the track count and the LTF/CA counters grow together; a frame without used clusters changes nothing but counter and cursor; a processed frame keeps its info and gets `firstEntry` equal to the old track count, `nEntries` equal to the finder's LTF count plus CA count, and `firstEntry + nEntries` equal to the new track count |
| TrackerRun.RunFrames | Detectors/ITSMFT/MFT/workflow/src/TrackerSpec.cxx:141-173 | after k frames there are as many ROF records as in the input, and the records the loop has not reached yet are still the input records |
| TrackerRun.Run | Detectors/ITSMFT/MFT/workflow/src/TrackerSpec.cxx:96-174 | the output has one ROF record per input record; without continuous read-out no frame is processed: the records equal the input, the buffers and labels are empty, the counters are zero and the cursor has not moved |
| TrackerRunProperties.SkippedFrameFollowsTrace | Detectors/ITSMFT/MFT/workflow/src/TrackerSpec.cxx:143-172 | a frame without used clusters moves the loop state from the reference state after i frames to the one after i + 1 frames |
| TrackerRunProperties.TrackedFrameFollowsTrace | Detectors/ITSMFT/MFT/workflow/src/TrackerSpec.cxx:143-172 | a processed frame moves the loop state from the reference state after i frames to the one after i + 1 frames: range written, LTF then CA appended, labels and counters added |
| TrackerRunProperties.TrackedFrameBuffers | Detectors/ITSMFT/MFT/workflow/src/TrackerSpec.cxx:169-170 | if the buffers are one copy of the earlier frames' tracks, the two copies of a frame make them one copy of the earlier tracks followed by the frame's LTF and CA tracks |
| TrackerRunProperties.RunFramesFollowsTrace | Detectors/ITSMFT/MFT/workflow/src/TrackerSpec.cxx:141-173 | after k frames the loop state is the reference state: cursor from the loader chain, counter k modulo 2^32, buffers from one copy of all tracks so far in frame order, labels and counters of the processed frames, visited records as expected and the rest as input |
| TrackerRunProperties.RunFollowsTrace | Detectors/ITSMFT/MFT/workflow/src/TrackerSpec.cxx:141-174 | a continuous run ends in the reference state for all its frames |
| TrackerRunProperties.RunTracksRepresentFrameTracks | Detectors/ITSMFT/MFT/workflow/src/TrackerSpec.cxx:141-174 | output track j represents the j-th track of the frame-ordered list of all found tracks; the cluster-index buffer is all their ids in that order; the ranges tile it; the track count is `nTracksLTF + nTracksCA` |
| TrackerRunProperties.CountsMatchTracks | Detectors/ITSMFT/MFT/workflow/src/TrackerSpec.cxx:150-153 | the number of tracks of the first k frames is the LTF count plus the CA count of those frames |
| TrackerRunProperties.TracksBeforePrefix | Detectors/ITSMFT/MFT/workflow/src/TrackerSpec.cxx:169-170 | the tracks of earlier frames are a prefix of the tracks of later frames, so no frame changes what an earlier frame appended |
| TrackerRunProperties.RunFrameRecords | Detectors/ITSMFT/MFT/workflow/src/TrackerSpec.cxx:142-171 | in the output, a processed frame's record keeps its info and has `firstEntry` = number of tracks of earlier frames and `nEntries` = LTF count + CA count, ending where the next frame's tracks start; a frame without used clusters keeps its input record, range included |
| TrackerRunProperties.FrameTrackOrder | Detectors/ITSMFT/MFT/workflow/src/TrackerSpec.cxx:165-170 | from a processed frame's `firstEntry` on, the output holds all its LTF tracks in order and then all its CA tracks in order, each representing its input track |
| TrackerRunProperties.FrameBlock | Detectors/ITSMFT/MFT/workflow/src/TrackerSpec.cxx:169-170 | the earlier frames' tracks followed by a processed frame's LTF and CA tracks form a prefix of the whole run's track list |
| TrackerRunProperties.FrameSliceRepresents | Detectors/ITSMFT/MFT/workflow/src/TrackerSpec.cxx:169-170 | in buffers that represent a track list starting with `before ++ ltf ++ ca`, the LTF tracks sit right after `before` and the CA tracks right after them |
| TrackerRunProperties.EntriesMatchTracks | Detectors/ITSMFT/MFT/workflow/src/TrackerSpec.cxx:165-168 | if every processed frame's `nEntries` is its track count, the sum of `nEntries` over the processed frames before k is the number of their tracks |
| TrackerRunProperties.TrackIndexInSomeFrame | Detectors/ITSMFT/MFT/workflow/src/TrackerSpec.cxx:165-170 | every position of the track list of the first k frames lies in the block of some processed frame among them |
| TrackerRunProperties.RunRangesPartitionTracks | Detectors/ITSMFT/MFT/workflow/src/TrackerSpec.cxx:165-170 | each processed frame's range starts at the sum of the processed earlier frames' `nEntries`; ranges of processed frames are in frame order and do not overlap; together they are as long as the track buffer and cover every output track |
| TrackerRunProperties.RunLabelsAndCounter | Detectors/ITSMFT/MFT/workflow/src/TrackerSpec.cxx:155-172 | the output labels are the labels of the processed frames in frame order, and none without MC; the counter ends at the frame count modulo 2^32; the cursor is the end of the loader chain |
| TrackerRunProperties.NoLabelsWithoutMC | Detectors/ITSMFT/MFT/workflow/src/TrackerSpec.cxx:155-161 | without MC no frame adds labels |
| TrackerRunProperties.CursorIndependentOfFinder | Detectors/ITSMFT/MFT/workflow/src/TrackerSpec.cxx:140-144 | two runs with the same loader, input records and start cursor agree on every cursor position and on which frames are processed, whatever their track finders and label routines do |
| TrackerScenarios.TwoFrameRun | Detectors/ITSMFT/MFT/workflow/src/TrackerSpec.cxx:141-173 | with a stand-in loader and finder, two processed frames yield cluster ids `[5, 7, 2]`, tracks at offsets 0 and 2, ROF ranges (0, 1) and (1, 1), labels in frame order, counter 2 and one LTF and one CA track |
| TrackerScenarios.TwoFrameFirst | Detectors/ITSMFT/MFT/workflow/src/TrackerSpec.cxx:143-172 | the first frame of that run leaves one LTF track at offset 0 over clusters 5 and 7, with range (0, 1) |
| TrackerScenarios.TwoFrameSecond | Detectors/ITSMFT/MFT/workflow/src/TrackerSpec.cxx:143-172 | the second frame appends its CA track at offset 2 and writes range (1, 1) |
| TrackerScenarios.EmptyFrameKeepsInputRange | Detectors/ITSMFT/MFT/workflow/src/TrackerSpec.cxx:142-171 | a frame with the empty cluster range (7, 0) uses no clusters and keeps that record, so its `firstEntry` 7 lies past the one-track buffer, while the next frame's range is rewritten to (0, 1) |

## Left out

- `TrackerDPL::init`, which reads the GRP file, sets up the geometry and the magnetic field (floating point) and reads the dictionary file, is I/O and foreign calls. The continuous-read-out flag and the MC flag are plain inputs (`Config`).
- `ioutils::loadROFrameData`, `Tracker::clustersToTracks` and `Tracker::computeTracksMClabels` have no code here. They are function values. The loader sees the ROF record and the pattern cursor. The finder sees the loaded frame and the frame counter. The label routine sees the frame and both track lists and returns the labels the tracker hands over.
- The loader is taken not to modify the ROF record it is given. Whether it does is not visible here.
- State that the loader, the finder or the `event` working set might carry from one frame to the next is not modelled. Each frame's results depend only on what the model passes in. In particular, the `swap` of the track lists is taken to leave exactly the current frame's tracks in `tracksLTF` and `tracksCA`.
- Whether the MC labels match the tracks one-to-one depends on the external tracker and is not stated.
- Logging, `mTimer`, `endOfStream`, the input/output wiring of `getTrackerSpec`, and the snapshots of the MC outputs are framework plumbing. The labels themselves are modelled; their output is not.
- `Detectors/TPC/qc/include/TPCQC/GPUError.h` and `Detectors/TPC/qc/src/GPUError.cxx` are ROOT histogram QC code with no logic to state.
- MFTTrack.CopyTracks: cluster offsets are unbounded naturals; the `int` narrowing of `allClusIdx.size()` handed to `setExternalClusterIndexOffset` is not modelled, so nothing is said about cluster-index buffers longer than 2^31 - 1.
- TrackerRun.ProcessFrame: the narrowing of sizes to C++ `int` (`first`, `number`, `ncl`, the `nTracksLTF`/`nTracksCA` counters) is not modelled. Sizes are unbounded integers, so the model says nothing about buffers longer than 2^31 - 1.
- TrackerRun.Run: the same `int` narrowing is left out of the run as a whole.
- Fit payloads (parameters, covariances, chi2) are an opaque type parameter. The model only states that they are copied unchanged.
