/**
 * The per-frame projection of the sky-field targets ("blobs") and the sensor
 * handlers of the screen painter that this model covers. Each blob's view-space
 * direction (the world direction turned by the inverse of the current
 * orientation) is given to `Draw` as input; floats are modelled as reals.
 */
module Painter {
  import opened Wrappers
  import Timing

  datatype Vec3 = Vec3(x: real, y: real, z: real)

  datatype Point = Point(x: real, y: real)

  /** A filled circle: which blob, where, and how large. */
  datatype Disc = Disc(blob: nat, centre: Point, r: real)

  /** What one frame hands to the canvas: the discs to fill, in blob order, the drawing
      and location rates of the status line, and the three overlay values that are
      fresh enough to show. */
  datatype Frame = Frame(discs: seq<Disc>, drawRate: Timing.Rate, gpsRate: Timing.Rate,
                         heading: Option<real>, baroAltitude: Option<real>, gpsAltitude: Option<real>)

  /** A fix from the location service; either field may be missing. */
  datatype Location = Location(altitude: Option<real>, accuracy: Option<real>)

  /** Seconds a trace point is kept. */
  const TraceSeconds: real := 1.0

  /** Worst horizontal accuracy, in metres, of a fix that is used. */
  const MaxAccuracy: real := 50.0

  const FeetPerMeter: real := 3.2808399

  /** A blob whose view vector does not point into the screen is behind the viewer. */
  predicate Behind(v: Vec3) {
    v.z >= 0.0
  }

  function Max(a: real, b: real): real {
    if a >= b then a else b
  }

  /** Screen position of a view vector: the viewport centre plus X and Y scaled by
      max(width, height) per `fov` radians, with screen Y pointing down. */
  function Centre(width: real, height: real, fov: real, v: Vec3): Point
    requires fov != 0.0
  {
    var wh := Max(width, height);
    Point(width / 2.0 + v.x / fov * wh, height / 2.0 - v.y / fov * wh)
  }

  /** Screen radius of a blob of the given angular size, on the same scale. */
  function Radius(width: real, height: real, fov: real, size: real): real
    requires fov != 0.0
  {
    size / fov * Max(width, height)
  }

  function DiscOf(width: real, height: real, fov: real, v: Vec3, size: real, blob: nat): Disc
    requires fov != 0.0
  {
    Disc(blob, Centre(width, height, fov, v), Radius(width, height, fov, size))
  }

  /** The disc's bounding box meets the open viewport (0, width) x (0, height). */
  predicate Overlaps(width: real, height: real, d: Disc) {
    d.centre.x + d.r > 0.0 && d.centre.y + d.r > 0.0 &&
    d.centre.x - d.r < width && d.centre.y - d.r < height
  }

  /** Whether blob `i`, with view vector `v`, is filled this frame. */
  predicate Shown(width: real, height: real, fov: real, v: Vec3, size: real, i: nat)
    requires fov != 0.0
  {
    !Behind(v) && Overlaps(width, height, DiscOf(width, height, fov, v, size, i))
  }

  /** The discs filled for blobs 0 .. |views| - 1, in blob order. */
  function Filled(width: real, height: real, fov: real, views: seq<Vec3>, sizes: seq<real>): seq<Disc>
    requires fov != 0.0 && |views| == |sizes|
    decreases |views|
  {
    if views == [] then []
    else
      var n := |views| - 1;
      var rest := Filled(width, height, fov, views[..n], sizes[..n]);
      if Shown(width, height, fov, views[n], sizes[n], n)
      then rest + [DiscOf(width, height, fov, views[n], sizes[n], n)]
      else rest
  }

  /** Every disc belongs to a blob in front of the viewer whose box meets the viewport,
      is that blob's projected disc, and the discs come in increasing blob order. */
  predicate DiscsSound(width: real, height: real, fov: real, views: seq<Vec3>, sizes: seq<real>, ds: seq<Disc>)
    requires fov != 0.0 && |views| == |sizes|
  {
    (forall k :: 0 <= k < |ds| ==>
      ds[k].blob < |views| && !Behind(views[ds[k].blob]) &&
      ds[k] == DiscOf(width, height, fov, views[ds[k].blob], sizes[ds[k].blob], ds[k].blob) &&
      Overlaps(width, height, ds[k])) &&
    (forall k, l :: 0 <= k < l < |ds| ==> ds[k].blob < ds[l].blob)
  }

  /** The discs filled for blobs 0 .. i - 1, counted from the front as the frame loop
      visits them. */
  function FilledUpTo(width: real, height: real, fov: real, views: seq<Vec3>, sizes: seq<real>, i: nat): seq<Disc>
    requires fov != 0.0 && |views| == |sizes| && i <= |views|
  {
    if i == 0 then []
    else
      var rest := FilledUpTo(width, height, fov, views, sizes, i - 1);
      if Shown(width, height, fov, views[i - 1], sizes[i - 1], i - 1)
      then rest + [DiscOf(width, height, fov, views[i - 1], sizes[i - 1], i - 1)]
      else rest
  }

  /** Visiting the blobs front to back fills the same discs as `Filled`. */
  lemma {:induction false} FilledUpToAll(width: real, height: real, fov: real, views: seq<Vec3>, sizes: seq<real>, i: nat)
    requires fov != 0.0 && |views| == |sizes| && i <= |views|
    ensures FilledUpTo(width, height, fov, views, sizes, i) == Filled(width, height, fov, views[..i], sizes[..i])
  {
    if i > 0 {
      FilledUpToAll(width, height, fov, views, sizes, i - 1);
      assert views[..i][..i - 1] == views[..i - 1] && sizes[..i][..i - 1] == sizes[..i - 1];
    }
  }

  /** Soundness of the filled list. */
  lemma {:induction false} FilledSound(width: real, height: real, fov: real, views: seq<Vec3>, sizes: seq<real>)
    requires fov != 0.0 && |views| == |sizes|
    ensures DiscsSound(width, height, fov, views, sizes, Filled(width, height, fov, views, sizes))
    decreases |views|
  {
    if views != [] {
      var n := |views| - 1;
      FilledSound(width, height, fov, views[..n], sizes[..n]);
      var rest := Filled(width, height, fov, views[..n], sizes[..n]);
      forall k | 0 <= k < |rest|
        ensures rest[k].blob < n
        ensures views[..n][rest[k].blob] == views[rest[k].blob] && sizes[..n][rest[k].blob] == sizes[rest[k].blob]
      {
      }
    }
  }

  /** Completeness: the disc of every blob in front of the viewer whose box meets the
      viewport is filled. */
  lemma {:induction false} FilledComplete(width: real, height: real, fov: real, views: seq<Vec3>, sizes: seq<real>, i: nat)
    requires fov != 0.0 && |views| == |sizes| && i < |views|
    requires Shown(width, height, fov, views[i], sizes[i], i)
    ensures DiscOf(width, height, fov, views[i], sizes[i], i) in Filled(width, height, fov, views, sizes)
    decreases |views|
  {
    var n := |views| - 1;
    if i < n {
      FilledComplete(width, height, fov, views[..n], sizes[..n], i);
    }
  }

  /** Blob `i` is filled exactly when it is in front of the viewer and its box meets the
      viewport; in particular a blob with view Z >= 0 is never filled. */
  lemma FilledIff(width: real, height: real, fov: real, views: seq<Vec3>, sizes: seq<real>, i: nat)
    requires fov != 0.0 && |views| == |sizes| && i < |views|
    ensures DiscOf(width, height, fov, views[i], sizes[i], i) in Filled(width, height, fov, views, sizes)
      <==> Shown(width, height, fov, views[i], sizes[i], i)
  {
    FilledSound(width, height, fov, views, sizes);
    if Shown(width, height, fov, views[i], sizes[i], i) {
      FilledComplete(width, height, fov, views, sizes, i);
    }
  }

  /** A blob's trace after one frame: drop the points older than a second from the
      front, then record the blob's screen centre if it is in front of the viewer,
      whether or not its disc is filled. An untraced blob keeps no points. */
  function TraceAfterFrame(trace: seq<Timing.Stamped<Point>>, traced: bool, width: real, height: real,
                           fov: real, v: Vec3, now: real): seq<Timing.Stamped<Point>>
    requires fov != 0.0
  {
    if !traced then trace
    else
      var kept := Timing.DropStale(trace, now - TraceSeconds);
      if Behind(v) then kept else kept + [Timing.Stamped(now, Centre(width, height, fov, v))]
  }

  /** With nondecreasing frame times, a trace stays in time order and after a frame
      holds only points from the last second. */
  lemma TraceKeepsLastSecond(trace: seq<Timing.Stamped<Point>>, width: real, height: real,
                             fov: real, v: Vec3, now: real)
    requires fov != 0.0
    requires Timing.Sorted(trace) && Timing.NotAfter(trace, now)
    ensures var r := TraceAfterFrame(trace, true, width, height, fov, v, now);
      Timing.Sorted(r) && Timing.NotBefore(r, now - TraceSeconds) && Timing.NotAfter(r, now)
  {
    var kept := Timing.DropStale(trace, now - TraceSeconds);
    Timing.DropStaleSorted(trace, now - TraceSeconds);
    Timing.DropStaleNotAfter(trace, now - TraceSeconds, now);
    if !Behind(v) {
      var e := Timing.Stamped(now, Centre(width, height, fov, v));
      Timing.SortedAppend(kept, e);
      Timing.AppendNotBefore(kept, e, now - TraceSeconds);
    }
  }

  /** A traced blob in front of the viewer whose disc is culled is not filled, yet its
      trace still ends with its screen centre at this frame's time. */
  lemma CulledBlobIsTraced(width: real, height: real, fov: real, views: seq<Vec3>, sizes: seq<real>, i: nat,
                           trace: seq<Timing.Stamped<Point>>, now: real)
    requires fov != 0.0 && |views| == |sizes| && i < |views|
    requires !Behind(views[i]) && !Overlaps(width, height, DiscOf(width, height, fov, views[i], sizes[i], i))
    ensures DiscOf(width, height, fov, views[i], sizes[i], i) !in Filled(width, height, fov, views, sizes)
    ensures var r := TraceAfterFrame(trace, true, width, height, fov, views[i], now);
      r != [] && r[|r| - 1] == Timing.Stamped(now, Centre(width, height, fov, views[i]))
  {
    FilledIff(width, height, fov, views, sizes, i);
  }

  /** A blob behind the viewer gets no disc, and its trace only loses stale points. */
  lemma BehindBlobSkipped(width: real, height: real, fov: real, views: seq<Vec3>, sizes: seq<real>, i: nat,
                          trace: seq<Timing.Stamped<Point>>, traced: bool, now: real)
    requires fov != 0.0 && |views| == |sizes| && i < |views| && Behind(views[i])
    ensures forall d :: d in Filled(width, height, fov, views, sizes) ==> d.blob != i
    ensures TraceAfterFrame(trace, traced, width, height, fov, views[i], now) ==
      if traced then Timing.DropStale(trace, now - TraceSeconds) else trace
  {
    FilledSound(width, height, fov, views, sizes);
  }

  /** A fix is used unless it reports an accuracy worse than 50 m. */
  predicate Accepted(d: Location) {
    !(d.accuracy.Some? && d.accuracy.value > MaxAccuracy)
  }

  /** A sky-field target as the frame loop sees it: its angular size in radians, whether
      it has a trace queue at all, and the queued trace points, oldest first. Its
      direction enters `Draw` as a view vector. */
  datatype Blob = Blob(angularSize: real, traced: bool, trace: seq<Timing.Stamped<Point>>)

  /** A blob without a trace queue holds no trace points. */
  predicate WellFormed(b: Blob) {
    !b.traced ==> b.trace == []
  }

  function Sizes(bs: seq<Blob>): (s: seq<real>)
    ensures |s| == |bs| && forall i :: 0 <= i < |bs| ==> s[i] == bs[i].angularSize
  {
    seq(|bs|, i requires 0 <= i < |bs| => bs[i].angularSize)
  }

  /** A blob after the first loop of a frame: a traced blob drops its points older
      than a second. */
  function Pruned(b: Blob, now: real): Blob {
    if b.traced then b.(trace := Timing.DropStale(b.trace, now - TraceSeconds)) else b
  }

  /** A blob after the second loop of a frame: a traced blob in front of the viewer
      records its screen centre. */
  function Projected(b: Blob, width: real, height: real, fov: real, v: Vec3, now: real): Blob
    requires fov != 0.0
  {
    if b.traced && !Behind(v) then b.(trace := b.trace + [Timing.Stamped(now, Centre(width, height, fov, v))]) else b
  }

  /** The two loops together move each trace as `TraceAfterFrame` says and change
      nothing else about the blob. */
  lemma FrameMovesTrace(b: Blob, width: real, height: real, fov: real, v: Vec3, now: real)
    requires fov != 0.0
    ensures Projected(Pruned(b, now), width, height, fov, v, now) ==
      b.(trace := TraceAfterFrame(b.trace, b.traced, width, height, fov, v, now))
  {
  }

  /** Dequeues trace points from the front while the oldest is older than `cutoff`. */
  method PruneTrace(trace: seq<Timing.Stamped<Point>>, cutoff: real) returns (kept: seq<Timing.Stamped<Point>>)
    ensures kept == Timing.DropStale(trace, cutoff)
  {
    kept := trace;
    ghost var k := 0;
    while |kept| > 0 && kept[0].t < cutoff
      invariant 0 <= k <= |trace| && kept == trace[k..]
      invariant forall i :: 0 <= i < k ==> trace[i].t < cutoff
      decreases |kept|
    {
      kept := kept[1..];
      k := k + 1;
    }
    Timing.DropStaleAt(trace, k, cutoff);
  }

  /** One pass of the first loop: a blob with a trace queue drops its stale points. */
  method PruneBlob(b: Blob, now: real) returns (r: Blob)
    ensures r == Pruned(b, now)
  {
    r := b;
    if b.traced {
      var kept := PruneTrace(b.trace, now - TraceSeconds);
      r := b.(trace := kept);
    }
  }

  /** The first loop of a frame, over every blob that has a trace queue. */
  method PruneTraces(bs: seq<Blob>, now: real) returns (r: seq<Blob>)
    ensures |r| == |bs| && forall k :: 0 <= k < |bs| ==> r[k] == Pruned(bs[k], now)
  {
    r := bs;
    for i := 0 to |bs|
      invariant |r| == |bs|
      invariant forall k :: 0 <= k < i ==> r[k] == Pruned(bs[k], now)
      invariant forall k :: i <= k < |bs| ==> r[k] == bs[k]
    {
      var b := PruneBlob(r[i], now);
      r := r[i := b];
    }
  }

  /** One pass of the second loop for blob `b`, number `i`, with view vector `v`:
      nothing for a blob behind the viewer; otherwise its disc when its box meets the
      viewport, and its centre recorded when it is traced. */
  method ProjectBlob(b: Blob, i: nat, width: real, height: real, fov: real, v: Vec3, now: real)
    returns (disc: Option<Disc>, r: Blob)
    requires fov > 0.0
    ensures disc == if Shown(width, height, fov, v, b.angularSize, i) then Some(DiscOf(width, height, fov, v, b.angularSize, i)) else None
    ensures r == Projected(b, width, height, fov, v, now)
  {
    disc, r := None, b;
    if v.z >= 0.0 {
      return;
    }
    var c := Centre(width, height, fov, v);
    var cr := Radius(width, height, fov, b.angularSize);
    if c.x + cr > 0.0 && c.y + cr > 0.0 && c.x - cr < width && c.y - cr < height {
      disc := Some(Disc(i, c, cr));
    }
    if b.traced {
      r := b.(trace := b.trace + [Timing.Stamped(now, c)]);
    }
  }

  /** The second loop of a frame: skips blobs behind the viewer; fills the disc of every
      other blob whose box meets the viewport, in blob order; records the centre of every
      other traced blob. */
  method ProjectAll(bs: seq<Blob>, width: real, height: real, fov: real, views: seq<Vec3>, now: real)
    returns (discs: seq<Disc>, r: seq<Blob>)
    requires fov > 0.0 && |views| == |bs|
    ensures discs == Filled(width, height, fov, views, Sizes(bs))
    ensures |r| == |bs| && forall k :: 0 <= k < |bs| ==> r[k] == Projected(bs[k], width, height, fov, views[k], now)
  {
    ghost var sizes := Sizes(bs);
    discs, r := [], bs;
    for i := 0 to |bs|
      invariant discs == FilledUpTo(width, height, fov, views, sizes, i)
      invariant |r| == |bs|
      invariant forall k :: 0 <= k < i ==> r[k] == Projected(bs[k], width, height, fov, views[k], now)
      invariant forall k :: i <= k < |bs| ==> r[k] == bs[k]
    {
      var disc, b := ProjectBlob(r[i], i, width, height, fov, views[i], now);
      if disc.Some? {
        discs := discs + [disc.value];
      }
      r := r[i := b];
    }
    FilledUpToAll(width, height, fov, views, sizes, |bs|);
    assert views[..|bs|] == views && sizes[..|bs|] == sizes;
  }

  /** The painter: viewport size, field of view, the blobs, and the counters and
      histories the covered handlers and the frame read. */
  class ScreenPainter {
    var width: real
    var height: real
    var fov: real
    var blobs: seq<Blob>
    const fpsDraw: Timing.FpsCounter
    const fpsGps: Timing.FpsCounter
    const baroAltitude: Timing.History
    const compassHdg: Timing.History
    const gpsAltitude: Timing.History

    ghost predicate Valid()
      reads this
    {
      fov > 0.0 && fpsDraw != fpsGps &&
      baroAltitude != compassHdg && compassHdg != gpsAltitude && gpsAltitude != baroAltitude &&
      forall i :: 0 <= i < |blobs| ==> WellFormed(blobs[i])
    }

    /** A painter over the given blobs; the viewport is 0 x 0 until it is sized. */
    constructor (blobs: seq<Blob>, fov: real)
      requires fov > 0.0 && forall i :: 0 <= i < |blobs| ==> WellFormed(blobs[i])
      ensures Valid() && fpsDraw.Valid() && fpsGps.Valid() && this.blobs == blobs && this.fov == fov && width == 0.0 && height == 0.0
      ensures fresh(fpsDraw) && fresh(fpsGps) && fresh(baroAltitude) && fresh(compassHdg) && fresh(gpsAltitude)
      ensures fpsDraw.stamps == [] && fpsGps.stamps == []
      ensures baroAltitude.entries == [] && compassHdg.entries == [] && gpsAltitude.entries == []
    {
      width, height := 0.0, 0.0;
      this.fov := fov;
      this.blobs := blobs;
      fpsDraw := new Timing.FpsCounter();
      fpsGps := new Timing.FpsCounter();
      baroAltitude := new Timing.History();
      compassHdg := new Timing.History();
      gpsAltitude := new Timing.History();
    }

    /** One frame at time `now`, given each blob's view vector. Nothing happens on an
        empty viewport. Otherwise the frame is counted, the status line shows the drawing
        and location rates, every trace loses its points
        older than a second, every blob in front of the viewer is filled if its box
        meets the viewport and, when traced, records its centre; the overlays show the
        heading and barometric altitude if at most 1 s old and the GPS altitude if at
        most 2 s old. */
    method Draw(views: seq<Vec3>, now: real) returns (frame: Option<Frame>)
      requires Valid() && fpsDraw.Valid() && |views| == |blobs|
      modifies this`blobs, fpsDraw
      ensures Valid() && fpsDraw.Valid() && |blobs| == |old(blobs)|
      ensures (width <= 0.0 || height <= 0.0) ==> frame == None && unchanged(fpsDraw) && blobs == old(blobs)
      ensures width > 0.0 && height > 0.0 ==>
        fpsDraw.stamps == old(fpsDraw.stamps) + [now] &&
        frame == Some(Frame(Filled(width, height, fov, views, Sizes(old(blobs))), fpsDraw.AvgFps(), fpsGps.AvgFps(),
                            compassHdg.Last(now, 1.0), baroAltitude.Last(now, 1.0), gpsAltitude.Last(now, 2.0)))
      ensures width > 0.0 && height > 0.0 ==>
        forall i :: 0 <= i < |blobs| ==>
          blobs[i] == old(blobs[i]).(trace := TraceAfterFrame(old(blobs[i].trace), old(blobs[i].traced), width, height, fov, views[i], now))
    {
      if width <= 0.0 || height <= 0.0 {
        return None;
      }
      var _ := fpsDraw.CountFrame(now);
      var pruned := PruneTraces(blobs, now);
      var discs, projected := ProjectAll(pruned, width, height, fov, views, now);
      assert Sizes(pruned) == Sizes(blobs);
      forall i | 0 <= i < |blobs|
        ensures projected[i] == blobs[i].(trace := TraceAfterFrame(blobs[i].trace, blobs[i].traced, width, height, fov, views[i], now))
      {
        FrameMovesTrace(blobs[i], width, height, fov, views[i], now);
      }
      blobs := projected;
      frame := Some(Frame(discs, fpsDraw.AvgFps(), fpsGps.AvgFps(), compassHdg.Last(now, 1.0), baroAltitude.Last(now, 1.0), gpsAltitude.Last(now, 2.0)));
    }

    /** A location fix at time `now`: ignored when its accuracy is worse than 50 m;
        otherwise counted, and its altitude, if any, is stored in feet. */
    method Geolocation(d: Location, now: real)
      requires Valid() && fpsGps.Valid()
      modifies fpsGps, gpsAltitude
      ensures Valid() && fpsGps.Valid()
      ensures unchanged(baroAltitude, compassHdg)
      ensures !Accepted(d) ==> unchanged(fpsGps, gpsAltitude)
      ensures Accepted(d) ==> fpsGps.stamps == old(fpsGps.stamps) + [now]
      ensures Accepted(d) && d.altitude == None ==> gpsAltitude.entries == old(gpsAltitude.entries)
      ensures Accepted(d) && d.altitude != None ==>
        gpsAltitude.entries == Timing.Added(old(gpsAltitude.entries), now, d.altitude.value * FeetPerMeter)
    {
      if d.accuracy.Some? && d.accuracy.value > MaxAccuracy {
        return;
      }
      var _ := fpsGps.CountFrame(now);
      label Counted:
      if d.altitude.Some? {
        gpsAltitude.AddValue(now, d.altitude.value * FeetPerMeter);
      }
      assert unchanged@Counted(fpsGps);
    }
  }
}
