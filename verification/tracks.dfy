/**
 The track flattening step of the MFT tracker workflow: every track found in a
 read-out frame is turned into an output track whose cluster indices live in one
 shared, append-only cluster-index buffer (the `copyTracks` lambda of
 `TrackerDPL::run`).
 */
module MFTTrack {

  /** A track as the frame-local track finder hands it over (LTF or CA alike):
      the external cluster id behind each of its points, in point order, and
      the fit payload (parameters, covariances, chi2, ...) that this stage
      copies without looking at it. */
  datatype Track<P> = Track(clusterIds: seq<int>, payload: P)
  {
    function NumberOfPoints(): nat { |clusterIds| }
  }

  /** The output track: where its cluster indices begin in the global
      cluster-index buffer, how many points it has, and the copied payload. */
  datatype TrackMFT<P> = TrackMFT(clusterOffset: nat, nPoints: nat, payload: P)

  /** The two global output buffers that grow across frames. */
  datatype Buffers<P> = Buffers(tracks: seq<TrackMFT<P>>, clusIdx: seq<int>)

  function EmptyBuffers<P>(): Buffers<P> { Buffers([], []) }

  /** All cluster ids of `ts`, track after track, each in point order. */
  function Flatten<P>(ts: seq<Track<P>>): seq<int>
  {
    if |ts| == 0 then [] else Flatten(ts[..|ts| - 1]) + ts[|ts| - 1].clusterIds
  }

  /** Sum of the point counts of `ts`. */
  function TotalPoints<P>(ts: seq<Track<P>>): nat
  {
    if |ts| == 0 then 0 else ts[0].NumberOfPoints() + TotalPoints(ts[1..])
  }

  /** `out` is the output form of `t`: same payload and point count, and its
      slice of `clusIdx` holds exactly `t`'s cluster ids in point order. */
  ghost predicate Represents<P>(out: TrackMFT<P>, t: Track<P>, clusIdx: seq<int>)
  {
    && out.payload == t.payload
    && out.nPoints == t.NumberOfPoints()
    && out.clusterOffset + out.nPoints <= |clusIdx|
    && clusIdx[out.clusterOffset .. out.clusterOffset + out.nPoints] == t.clusterIds
  }

  /** The offset a track would get after all earlier tracks of the buffer. */
  function NextOffset<P>(tracks: seq<TrackMFT<P>>): nat
  {
    if |tracks| == 0 then 0
    else tracks[|tracks| - 1].clusterOffset + tracks[|tracks| - 1].nPoints
  }

  /** The tracks' cluster ranges tile the cluster-index buffer: the first
      starts at 0, each starts where the previous one ends, and the last ends
      at the end of the buffer. */
  ghost predicate Contiguous<P>(b: Buffers<P>)
  {
    && (|b.tracks| > 0 ==> b.tracks[0].clusterOffset == 0)
    && (forall i :: 0 < i < |b.tracks| ==>
          b.tracks[i].clusterOffset == b.tracks[i - 1].clusterOffset + b.tracks[i - 1].nPoints)
    && NextOffset(b.tracks) == |b.clusIdx|
  }

  /** One iteration of the outer loop: the offset is taken from the buffer
      length before the track's own ids are pushed, then the track is added. */
  function AppendTrack<P>(t: Track<P>, b: Buffers<P>): Buffers<P>
  {
    Buffers(b.tracks + [TrackMFT(|b.clusIdx|, t.NumberOfPoints(), t.payload)],
            b.clusIdx + t.clusterIds)
  }

  /** `copyTracks`: flatten `ts` into the buffers, in input order. */
  function CopyTracks<P>(ts: seq<Track<P>>, b: Buffers<P>): (r: Buffers<P>)
    ensures r.clusIdx == b.clusIdx + Flatten(ts)
    ensures |r.tracks| == |b.tracks| + |ts|
    ensures r.tracks[..|b.tracks|] == b.tracks
    decreases |ts|
  {
    if |ts| == 0 then b
    else AppendTrack(ts[|ts| - 1], CopyTracks(ts[..|ts| - 1], b))
  }

  /** Each copied track's offset is the cluster-index buffer length right
      before its own ids were pushed: the old length plus the points of the
      tracks copied before it in the same call. */
  lemma {:induction false} CopyTracksOffsets<P>(ts: seq<Track<P>>, b: Buffers<P>)
    ensures forall k :: 0 <= k < |ts| ==>
              CopyTracks(ts, b).tracks[|b.tracks| + k]
              == TrackMFT(|b.clusIdx| + |Flatten(ts[..k])|, ts[k].NumberOfPoints(), ts[k].payload)
    decreases |ts|
  {
    if |ts| > 0 {
      var n := |ts|;
      var init := ts[..n - 1];
      var prev := CopyTracks(init, b);
      var r := CopyTracks(ts, b);
      CopyTracksOffsets(init, b);
      assert r.tracks == prev.tracks + [TrackMFT(|prev.clusIdx|, ts[n - 1].NumberOfPoints(), ts[n - 1].payload)];
      forall k | 0 <= k < n
        ensures r.tracks[|b.tracks| + k]
                == TrackMFT(|b.clusIdx| + |Flatten(ts[..k])|, ts[k].NumberOfPoints(), ts[k].payload)
      {
        if k < n - 1 {
          assert init[k] == ts[k];
          assert init[..k] == ts[..k];
          assert r.tracks[|b.tracks| + k] == prev.tracks[|b.tracks| + k];
        } else {
          assert ts[..k] == init;
        }
      }
    }
  }

  /** The nested loops of `copyTracks` as written, with the buffers as
      mutable sequences; they compute exactly `CopyTracks`. */
  method CopyTracksLoop<P>(tracks: seq<Track<P>>, allTracks: seq<TrackMFT<P>>, allClusIdx: seq<int>)
    returns (tracksOut: seq<TrackMFT<P>>, clusIdxOut: seq<int>)
    ensures Buffers(tracksOut, clusIdxOut) == CopyTracks(tracks, Buffers(allTracks, allClusIdx))
  {
    tracksOut, clusIdxOut := allTracks, allClusIdx;
    for j := 0 to |tracks|
      invariant Buffers(tracksOut, clusIdxOut) == CopyTracks(tracks[..j], Buffers(allTracks, allClusIdx))
    {
      var trc := tracks[j];
      var offset := |clusIdxOut|;
      var ncl := trc.NumberOfPoints();
      for ic := 0 to ncl
        invariant clusIdxOut == CopyTracks(tracks[..j], Buffers(allTracks, allClusIdx)).clusIdx + trc.clusterIds[..ic]
      {
        clusIdxOut := clusIdxOut + [trc.clusterIds[ic]];
      }
      assert trc.clusterIds[..ncl] == trc.clusterIds;
      tracksOut := tracksOut + [TrackMFT(offset, ncl, trc.payload)];
      assert tracks[..j + 1][..j] == tracks[..j];
    }
    assert tracks[..|tracks|] == tracks;
  }

  // ---------------------------------------------------------------------
  // Lemmas
  // ---------------------------------------------------------------------

  /** The cluster-index buffer grows by the sum of the point counts. */
  lemma {:induction false} FlattenLength<P>(ts: seq<Track<P>>)
    ensures |Flatten(ts)| == TotalPoints(ts)
    decreases |ts|
  {
    if |ts| > 0 {
      FlattenLength(ts[1..]);
      FlattenCons(ts);
    }
  }

  /** Flattening a non-empty list: first track's ids, then the rest. */
  lemma {:induction false} FlattenCons<P>(ts: seq<Track<P>>)
    requires |ts| > 0
    ensures Flatten(ts) == ts[0].clusterIds + Flatten(ts[1..])
    decreases |ts|
  {
    if |ts| > 1 {
      var init := ts[..|ts| - 1];
      assert init[0] == ts[0];
      assert init[1..] == ts[1..][..|ts[1..]| - 1];
      FlattenCons(init);
    } else {
      assert ts[1..] == [];
      assert ts[..0] == [];
    }
  }

  /** Flattening distributes over concatenation. */
  lemma {:induction false} FlattenAppend<P>(a: seq<Track<P>>, c: seq<Track<P>>)
    ensures Flatten(a + c) == Flatten(a) + Flatten(c)
    decreases |c|
  {
    if |c| == 0 {
      assert a + c == a;
    } else {
      assert (a + c)[..|a + c| - 1] == a + c[..|c| - 1];
      FlattenAppend(a, c[..|c| - 1]);
    }
  }

  /** The ids of the first `k` tracks are a prefix of the ids of all tracks. */
  lemma {:induction false} FlattenPrefix<P>(ts: seq<Track<P>>, k: nat)
    requires k <= |ts|
    ensures Flatten(ts) == Flatten(ts[..k]) + Flatten(ts[k..])
  {
    assert ts == ts[..k] + ts[k..];
    FlattenAppend(ts[..k], ts[k..]);
  }

  /** Offset correctness: the track copied from `ts[k]` points at a slice of
      the cluster-index buffer that holds exactly `ts[k]`'s cluster ids. */
  lemma {:induction false} CopiedTracksRepresentInputs<P>(ts: seq<Track<P>>, b: Buffers<P>)
    ensures forall k :: 0 <= k < |ts| ==>
              Represents(CopyTracks(ts, b).tracks[|b.tracks| + k], ts[k], CopyTracks(ts, b).clusIdx)
  {
    forall k | 0 <= k < |ts|
      ensures Represents(CopyTracks(ts, b).tracks[|b.tracks| + k], ts[k], CopyTracks(ts, b).clusIdx)
    {
      CopiedTrackRepresents(ts, b, k);
    }
  }

  /** Buffers filled from empty by one copy represent the copied tracks
      position by position. */
  lemma {:induction false} CopiedFromEmptyRepresents<P>(ts: seq<Track<P>>, tracks: seq<TrackMFT<P>>, clusIdx: seq<int>)
    requires Buffers(tracks, clusIdx) == CopyTracks(ts, EmptyBuffers())
    ensures |tracks| == |ts|
    ensures forall j :: 0 <= j < |ts| ==> Represents(tracks[j], ts[j], clusIdx)
  {
    var e: Buffers<P> := EmptyBuffers();
    assert |e.tracks| == 0;
    forall j | 0 <= j < |ts|
      ensures Represents(tracks[j], ts[j], clusIdx)
    {
      CopiedTrackRepresents(ts, e, j);
      assert tracks[j] == CopyTracks(ts, e).tracks[|e.tracks| + j];
    }
  }

  lemma {:induction false} CopiedTrackRepresents<P>(ts: seq<Track<P>>, b: Buffers<P>, k: nat)
    requires k < |ts|
    ensures Represents(CopyTracks(ts, b).tracks[|b.tracks| + k], ts[k], CopyTracks(ts, b).clusIdx)
  {
    var r := CopyTracks(ts, b);
    var head := b.clusIdx + Flatten(ts[..k]);
    var rest := Flatten(ts[k..][1..]);
    assert r.tracks[|b.tracks| + k] == TrackMFT(|head|, ts[k].NumberOfPoints(), ts[k].payload) by {
      CopyTracksOffsets(ts, b);
    }
    assert r.clusIdx == head + ts[k].clusterIds + rest by {
      FlattenPrefix(ts, k);
      FlattenCons(ts[k..]);
      assert ts[k..][0] == ts[k];
      ConcatAssoc(b.clusIdx, Flatten(ts[..k]), ts[k].clusterIds, rest);
    }
    RepresentsInMiddle(r.tracks[|b.tracks| + k], ts[k], head, rest);
  }

  lemma ConcatAssoc<T>(a: seq<T>, b: seq<T>, c: seq<T>, d: seq<T>)
    ensures a + (b + (c + d)) == a + b + c + d
  {
  }

  /** A track whose ids sit right after `head` is represented there. */
  lemma RepresentsInMiddle<P>(out: TrackMFT<P>, t: Track<P>, head: seq<int>, rest: seq<int>)
    requires out == TrackMFT(|head|, t.NumberOfPoints(), t.payload)
    ensures Represents(out, t, head + t.clusterIds + rest)
  {
    assert (head + t.clusterIds + rest)[|head| .. |head| + |t.clusterIds|] == t.clusterIds;
  }

  /** Copying two lists one after the other is copying their concatenation:
      the LTF-then-CA pair of calls behaves as one call on `ltf + ca`. */
  lemma {:induction false} CopyTracksAppend<P>(a: seq<Track<P>>, c: seq<Track<P>>, b: Buffers<P>)
    ensures CopyTracks(a + c, b) == CopyTracks(c, CopyTracks(a, b))
    decreases |c|
  {
    if |c| == 0 {
      assert a + c == a;
    } else {
      assert (a + c)[..|a + c| - 1] == a + c[..|c| - 1];
      assert (a + c)[|a + c| - 1] == c[|c| - 1];
      CopyTracksAppend(a, c[..|c| - 1], b);
    }
  }

  /** Appending one track keeps the cluster ranges tiling the buffer. */
  lemma AppendTrackPreservesContiguous<P>(t: Track<P>, b: Buffers<P>)
    requires Contiguous(b)
    ensures Contiguous(AppendTrack(t, b))
  {
    var r := AppendTrack(t, b);
    forall i | 0 < i < |r.tracks|
      ensures r.tracks[i].clusterOffset == r.tracks[i - 1].clusterOffset + r.tracks[i - 1].nPoints
    {
      if i < |b.tracks| {
        assert r.tracks[i] == b.tracks[i] && r.tracks[i - 1] == b.tracks[i - 1];
      } else {
        assert r.tracks[i - 1] == b.tracks[|b.tracks| - 1];
      }
    }
    if |b.tracks| > 0 {
      assert r.tracks[0] == b.tracks[0];
    }
  }

  /** `copyTracks` keeps the cluster ranges tiling the cluster-index buffer. */
  lemma {:induction false} CopyTracksPreservesContiguous<P>(ts: seq<Track<P>>, b: Buffers<P>)
    requires Contiguous(b)
    ensures Contiguous(CopyTracks(ts, b))
    decreases |ts|
  {
    if |ts| > 0 {
      var init := ts[..|ts| - 1];
      CopyTracksPreservesContiguous(init, b);
      AppendTrackPreservesContiguous(ts[|ts| - 1], CopyTracks(init, b));
    }
  }

  /** A track without points is still appended, at the current end of the
      cluster-index buffer, and the cluster-index buffer does not change. */
  lemma ZeroPointTrackAppended<P>(t: Track<P>, b: Buffers<P>)
    requires t.NumberOfPoints() == 0
    ensures CopyTracks([t], b) == Buffers(b.tracks + [TrackMFT(|b.clusIdx|, 0, t.payload)], b.clusIdx)
  {
    assert [t][..0] == [];
  }
}
