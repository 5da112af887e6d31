/**
 Integer index logic of the track summaries: the window of detections kept
 around a track's median detection, and the per-track detection index.
 The data frame is abstracted to what the index logic reads: the fields of
 one row of the median table, and the track lengths in sorted track order.
 */
module DataCarp {

  /** The integers lo, lo + 1, ..., hi - 1 (empty when hi <= lo), as numpy's arange with step 1. */
  function Range(lo: int, hi: int): (r: seq<int>)
    decreases hi - lo
    ensures |r| == if lo < hi then hi - lo else 0
    ensures forall k :: 0 <= k < |r| ==> r[k] == lo + k
  {
    if hi <= lo then [] else [lo] + Range(lo + 1, hi)
  }

  /** The elements of xs with 0 <= x < length, in their original order (a boolean mask). */
  function Clip(xs: seq<int>, length: int): (r: seq<int>)
    ensures |r| <= |xs|
    ensures forall k :: 0 <= k < |r| ==> 0 <= r[k] < length
  {
    if xs == [] then []
    else (if 0 <= xs[0] < length then [xs[0]] else []) + Clip(xs[1..], length)
  }

  /** One row of the median table: a track, the index of its median detection, its length. */
  datatype MedianRow<T> = MedianRow(trackId: T, dist: int, length: int)

  /**
   A selected detection. The source writes the key as the string of the
   detection index followed by the track id; here the two parts are kept as a pair.
   */
  datatype Detection<T> = Detection(detIdx: int, trackId: T)

  /** The detection indices kept for row x: the window [dist - idxRange, dist + idxRange) clipped to [0, length). */
  function Kept<T>(x: MedianRow<T>, idxRange: int): (r: seq<int>)
    ensures |r| <= if idxRange > 0 then 2 * idxRange else 0
    ensures forall k :: 0 <= k < |r| ==> 0 <= r[k] < x.length
  {
    Clip(Range(x.dist - idxRange, x.dist + idxRange), x.length)
  }

  /** Pairs every index of ks with the track id, in order (the list comprehension of select_detections). */
  function Tag<T>(ks: seq<int>, trackId: T): (r: seq<Detection<T>>)
    ensures |r| == |ks|
    ensures forall i :: 0 <= i < |r| ==> r[i] == Detection(ks[i], trackId)
  {
    if ks == [] then [] else [Detection(ks[0], trackId)] + Tag(ks[1..], trackId)
  }

  /**
   The detections selected around the median detection of row x: at most
   2 * idxRange of them, every one of the row's track and inside the track.
   */
  function SelectDetections<T>(x: MedianRow<T>, idxRange: int): (r: seq<Detection<T>>)
    ensures |r| <= if idxRange > 0 then 2 * idxRange else 0
    ensures forall i :: 0 <= i < |r| ==> r[i].trackId == x.trackId && 0 <= r[i].detIdx < x.length
  {
    Tag(Kept(x, idxRange), x.trackId)
  }

  predicate StrictlyIncreasing(xs: seq<int>)
  {
    forall i, j :: 0 <= i < j < |xs| ==> xs[i] < xs[j]
  }

  lemma {:induction false} ClipKeepsIncreasing(xs: seq<int>, length: int)
    requires StrictlyIncreasing(xs)
    ensures StrictlyIncreasing(Clip(xs, length))
  {
    if xs != [] {
      var rest := Clip(xs[1..], length);
      assert StrictlyIncreasing(xs[1..]);
      ClipKeepsIncreasing(xs[1..], length);
      forall k | 0 <= k < |rest| ensures xs[0] < rest[k] {
        ClipSound(xs[1..], length, rest[k]);
        var j :| 0 <= j < |xs[1..]| && xs[1..][j] == rest[k];
        assert xs[1 + j] == rest[k];
      }
    }
  }

  lemma {:induction false} ClipSound(xs: seq<int>, length: int, v: int)
    requires v in Clip(xs, length)
    ensures v in xs && 0 <= v < length
  {
    if xs[0] != v {
      ClipSound(xs[1..], length, v);
    }
  }

  lemma {:induction false} ClipComplete(xs: seq<int>, length: int, v: int)
    requires v in xs && 0 <= v < length
    ensures v in Clip(xs, length)
  {
    if xs[0] != v {
      ClipComplete(xs[1..], length, v);
    }
  }

  /** A detection index is kept exactly when it lies in the window and inside the track. */
  lemma KeptExactly<T>(x: MedianRow<T>, idxRange: int, k: int)
    ensures k in Kept(x, idxRange) <==>
      x.dist - idxRange <= k < x.dist + idxRange && 0 <= k < x.length
  {
    var lo := x.dist - idxRange;
    var window := Range(lo, x.dist + idxRange);
    if k in Kept(x, idxRange) {
      ClipSound(window, x.length, k);
      var j :| 0 <= j < |window| && window[j] == k;
    }
    if lo <= k < x.dist + idxRange && 0 <= k < x.length {
      assert window[k - lo] == k;
      ClipComplete(window, x.length, k);
    }
  }

  /**
   A detection is selected for row x exactly when it carries the row's track id
   and its index lies in the window and inside the track.
   */
  lemma SelectedExactly<T>(x: MedianRow<T>, idxRange: int, d: Detection<T>)
    ensures d in SelectDetections(x, idxRange) <==>
      d.trackId == x.trackId && x.dist - idxRange <= d.detIdx < x.dist + idxRange && 0 <= d.detIdx < x.length
  {
    var kept := Kept(x, idxRange);
    var r := SelectDetections(x, idxRange);
    KeptExactly(x, idxRange, d.detIdx);
    if d in r {
      var i :| 0 <= i < |r| && r[i] == d;
      assert kept[i] in kept;
    }
    if d.trackId == x.trackId && d.detIdx in kept {
      var i :| 0 <= i < |kept| && kept[i] == d.detIdx;
      assert r[i] == d;
    }
  }

  lemma RangeIncreasing(lo: int, hi: int)
    ensures StrictlyIncreasing(Range(lo, hi))
  {
    var r := Range(lo, hi);
    forall i, j | 0 <= i < j < |r| ensures r[i] < r[j] {
      assert r[i] == lo + i && r[j] == lo + j;
    }
  }

  lemma KeptIncreasing<T>(x: MedianRow<T>, idxRange: int)
    ensures StrictlyIncreasing(Kept(x, idxRange))
  {
    var window := Range(x.dist - idxRange, x.dist + idxRange);
    RangeIncreasing(x.dist - idxRange, x.dist + idxRange);
    ClipKeepsIncreasing(window, x.length);
  }

  lemma TagIncreasing<T>(ks: seq<int>, trackId: T)
    requires StrictlyIncreasing(ks)
    ensures var r := Tag(ks, trackId);
      forall i, j :: 0 <= i < j < |r| ==> r[i].detIdx < r[j].detIdx
  {
    var r := Tag(ks, trackId);
    forall i, j | 0 <= i < j < |r| ensures r[i].detIdx < r[j].detIdx {
      assert r[i].detIdx == ks[i] && r[j].detIdx == ks[j];
    }
  }

  /** The selection of row x lists its detections in strictly increasing index order, so without duplicates. */
  lemma SelectionIncreasing<T>(x: MedianRow<T>, idxRange: int)
    ensures var r := SelectDetections(x, idxRange);
      forall i, j :: 0 <= i < j < |r| ==> r[i].detIdx < r[j].detIdx
  {
    KeptIncreasing(x, idxRange);
    TagIncreasing(Kept(x, idxRange), x.trackId);
  }

  /**
   At the call site dist is the position of the median detection within its track,
   so 0 <= dist < length; for any idxRange >= 1 the median detection itself is selected.
   */
  lemma MedianIsSelected<T>(x: MedianRow<T>, idxRange: int)
    requires 0 <= x.dist < x.length && idxRange >= 1
    ensures Detection(x.dist, x.trackId) in SelectDetections(x, idxRange)
  {
    SelectedExactly(x, idxRange, Detection(x.dist, x.trackId));
  }

  // ---------------------------------------------------------------------
  // The det_idx column of create_det_idx
  // ---------------------------------------------------------------------

  function Total(lengths: seq<nat>): nat
  {
    if lengths == [] then 0 else Total(lengths[..|lengths| - 1]) + lengths[|lengths| - 1]
  }

  /** The concatenation, over the tracks in order, of 0, 1, ..., length - 1. */
  function DetIdx(lengths: seq<nat>): (r: seq<int>)
    ensures forall i :: 0 <= i < |r| ==> r[i] >= 0
  {
    if lengths == [] then [] else DetIdx(lengths[..|lengths| - 1]) + Range(0, lengths[|lengths| - 1])
  }

  /** The loop that extends det_idx track by track, over the track lengths in sorted track order. */
  method CreateDetIdx(lengths: seq<nat>) returns (detIdx: seq<int>)
    ensures detIdx == DetIdx(lengths)
  {
    detIdx := [];
    var i := 0;
    while i < |lengths|
      invariant 0 <= i <= |lengths|
      invariant detIdx == DetIdx(lengths[..i])
    {
      assert lengths[..i + 1][..i] == lengths[..i];
      detIdx := detIdx + Range(0, lengths[i]);
      i := i + 1;
    }
    assert lengths[..i] == lengths;
  }

  /** det_idx has one entry per row: as many as the track lengths add up to. */
  lemma {:induction false} DetIdxLength(lengths: seq<nat>)
    ensures |DetIdx(lengths)| == Total(lengths)
  {
    if lengths != [] {
      DetIdxLength(lengths[..|lengths| - 1]);
    }
  }

  /** Within the block of track t, which starts after the rows of the earlier tracks, det_idx counts 0, 1, 2, ... */
  lemma {:induction false} DetIdxBlock(lengths: seq<nat>, t: nat, j: nat)
    requires t < |lengths| && j < lengths[t]
    ensures Total(lengths[..t]) + j < |DetIdx(lengths)|
    ensures DetIdx(lengths)[Total(lengths[..t]) + j] == j
  {
    var n := |lengths|;
    var front := lengths[..n - 1];
    DetIdxLength(front);
    if t == n - 1 {
      assert lengths[..t] == front;
    } else {
      assert front[..t] == lengths[..t];
      DetIdxBlock(front, t, j);
    }
  }

  /** v repeated n times. */
  function Repeat<T>(v: T, n: nat): (r: seq<T>)
    ensures |r| == n && forall i :: 0 <= i < n ==> r[i] == v
  {
    seq(n, _ => v)
  }

  /** The rows of the sorted data frame: track ids[t] repeated lengths[t] times, track after track. */
  function Rows<T>(ids: seq<T>, lengths: seq<nat>): (r: seq<T>)
    requires |ids| == |lengths|
    ensures |r| == Total(lengths)
  {
    if ids == [] then []
    else Rows(ids[..|ids| - 1], lengths[..|ids| - 1]) + Repeat(ids[|ids| - 1], lengths[|ids| - 1])
  }

  lemma {:induction false} RowsFromIds<T>(ids: seq<T>, lengths: seq<nat>, v: T)
    requires |ids| == |lengths| && v !in ids
    ensures v !in Rows(ids, lengths)
  {
    if ids != [] {
      var n := |ids|;
      assert v !in ids[..n - 1];
      RowsFromIds(ids[..n - 1], lengths[..n - 1], v);
      var block := Repeat(ids[n - 1], lengths[n - 1]);
      assert Rows(ids, lengths) == Rows(ids[..n - 1], lengths[..n - 1]) + block;
    }
  }

  lemma {:induction false} ConstantCount<T>(n: nat, v: T)
    ensures multiset(Repeat(v, n))[v] == n
  {
    if n > 0 {
      assert Repeat(v, n) == Repeat(v, n - 1) + [v];
      ConstantCount(n - 1, v);
    }
  }

  lemma LastIdIsNew<T>(ids: seq<T>)
    requires ids != []
    requires forall i, j :: 0 <= i < j < |ids| ==> ids[i] != ids[j]
    ensures ids[|ids| - 1] !in ids[..|ids| - 1]
  {
    var n := |ids|;
    var front := ids[..n - 1];
    forall i | 0 <= i < |front| ensures front[i] != ids[n - 1] {
      assert front[i] == ids[i];
    }
  }

  /** A sequence made of rows without v followed by j copies of v holds v exactly j times. */
  lemma CountAfterOthers<T>(s: seq<T>, front: seq<T>, v: T, j: nat)
    requires v !in front && s == front + Repeat(v, j)
    ensures multiset(s)[v] == j
  {
    assert multiset(front)[v] == 0;
    ConstantCount(j, v);
    assert multiset(s) == multiset(front) + multiset(Repeat(v, j));
  }

  /** The rows of the last track's block: row |front| + j holds the last id, after the earlier rows and j rows of that id. */
  lemma LastBlockRows<T>(ids: seq<T>, lengths: seq<nat>, j: nat)
    requires |ids| == |lengths| && ids != [] && j < lengths[|ids| - 1]
    ensures var n := |ids|;
      var front := Rows(ids[..n - 1], lengths[..n - 1]);
      var rows := Rows(ids, lengths);
      |front| + j < |rows| && rows[|front| + j] == ids[n - 1] && rows[..|front| + j] == front + Repeat(ids[n - 1], j)
  {
    var n := |ids|;
    var front := Rows(ids[..n - 1], lengths[..n - 1]);
    var block := Repeat(ids[n - 1], lengths[n - 1]);
    assert Rows(ids, lengths) == front + block;
    assert block[..j] == Repeat(ids[n - 1], j);
  }

  /** In the last track's block, row Total(front) + j is preceded by exactly j rows of its own track. */
  lemma LastBlockCount<T>(ids: seq<T>, lengths: seq<nat>, j: nat)
    requires |ids| == |lengths| && ids != [] && j < lengths[|ids| - 1]
    requires ids[|ids| - 1] !in ids[..|ids| - 1]
    ensures var p := Total(lengths[..|ids| - 1]) + j;
      var rows := Rows(ids, lengths);
      p < |rows| && multiset(rows[..p])[rows[p]] == j
  {
    var n := |ids|;
    var v := ids[n - 1];
    var front := Rows(ids[..n - 1], lengths[..n - 1]);
    var rows := Rows(ids, lengths);
    var p := |front| + j;
    LastBlockRows(ids, lengths, j);
    RowsFromIds(ids[..n - 1], lengths[..n - 1], v);
    CountAfterOthers(rows[..p], front, v, j);
  }

  /** A row in the block of the last track: its det_idx is its offset in the block, the count of earlier rows of that track. */
  lemma LastTrackCount<T>(ids: seq<T>, lengths: seq<nat>, p: nat)
    requires |ids| == |lengths| && ids != []
    requires forall i, j :: 0 <= i < j < |ids| ==> ids[i] != ids[j]
    requires Total(lengths[..|ids| - 1]) <= p < Total(lengths)
    ensures |Rows(ids, lengths)| == |DetIdx(lengths)| == Total(lengths)
    ensures DetIdx(lengths)[p] == multiset(Rows(ids, lengths)[..p])[Rows(ids, lengths)[p]]
  {
    var n := |ids|;
    var j := p - Total(lengths[..n - 1]);
    DetIdxLength(lengths);
    LastIdIsNew(ids);
    LastBlockCount(ids, lengths, j);
    DetIdxBlock(lengths, n - 1, j);
  }

  /**
   With distinct track ids (the sorted index of track lengths), the det_idx entry
   of every row is the number of earlier rows of the same track: the column indexes
   the detections within each track, starting from 0.
   */
  lemma {:induction false} DetIdxCountsWithinTrack<T>(ids: seq<T>, lengths: seq<nat>, p: nat)
    requires |ids| == |lengths|
    requires forall i, j :: 0 <= i < j < |ids| ==> ids[i] != ids[j]
    requires p < Total(lengths)
    ensures |Rows(ids, lengths)| == |DetIdx(lengths)| == Total(lengths)
    ensures DetIdx(lengths)[p] == multiset(Rows(ids, lengths)[..p])[Rows(ids, lengths)[p]]
  {
    DetIdxLength(lengths);
    var n := |ids|;
    var frontIds, frontLengths := ids[..n - 1], lengths[..n - 1];
    if p < Total(frontLengths) {
      var frontRows := Rows(frontIds, frontLengths);
      var rows := Rows(ids, lengths);
      DetIdxLength(frontLengths);
      DetIdxCountsWithinTrack(frontIds, frontLengths, p);
      assert rows == frontRows + Repeat(ids[n - 1], lengths[n - 1]);
      assert rows[..p] == frontRows[..p];
      assert rows[p] == frontRows[p];
    } else {
      LastTrackCount(ids, lengths, p);
    }
  }
}
