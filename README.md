# EfisBlobs core in Dafny

This project models two parts of EfisBlobs, a small attitude and sky-field display app.

1. **The filter bank** (`Filters.cs`).
   - The identity filter.
   - The second-order IIR low-pass section. It seeds its two-input/two-output history with the first sample, then applies a fixed five-coefficient recurrence and shifts the history.
   - The factory that hands out fresh, unstepped sections with the four Bessel coefficient sets.
2. **The time-windowed queues and the per-frame logic of the screen painter** (`MainPage.xaml.cs`).
   - The frame-rate counter: a queue of the newest 100 gaps between calls, with a rate reported only once there are at least five gaps.
   - The value history: timestamped values with eager 70-second eviction on insert, and an age-limited "last value" query.
   - The trace pruning, the behind-the-viewer test, the linear screen mapping, the viewport cull and the trace append in `ScreenPainter.Draw`.
   - The 50 m accuracy gate in `ScreenPainter.Geolocation`.

Doubles and floats are modelled as `real`. Every operation that reads the clock receives the current time as a `now` parameter instead, and callers pass nondecreasing times. Each blob's view-space vector, which is the world direction turned by the inverse orientation, is an input to `Draw`.

Files:
- `wrappers.dfy`: `Option`.
- `filters.dfy`: module `Filters`.
- `timing.dfy`: module `Timing`, holding `History`, `FpsCounter` and the front-eviction function `DropStale` they share with the blob traces.
- `painter.dfy`: module `Painter`, holding the projection, the per-frame loops and `ScreenPainter`.

The stateful parts are classes whose methods update their fields:
- `IirOrder2Filter`
- `History`
- `FpsCounter`
- `ScreenPainter`

Each method is proved against a specification function of the old state: `Output`/`Next`, `Added`, `Tracks`/`Newest`/`Gaps`, and `Filled`/`TraceAfterFrame`. Lemmas then state what the source promises about those functions.

## Model

| member | source | states |
|---|---|---|
| Filters.IirOrder2Filter.Step | Filters.cs:34-49 | The result is the five-term recurrence over the history, with the history seeded first if no sample was seen. The new history is the shifted one and the coefficients are not touched. |
| Filters.IirOrder2Filter.constructor | Filters.cs:26-30 | The object initialiser sets the given coefficients; the history is all zeros and `first` is set. |
| Filters.IirOrder2Filter.New | Filters.cs:32 | Returns a fresh section with identical coefficients and an unstepped history. |
| Filters.StepCopy | Filters.cs:32 | Stepping a copy made by `New` leaves the original's history and coefficients unchanged. The copy's first output is the input times the DC gain. |
| Filters.Filter.New | Filters.cs:18-32 | The identity filter's `New` gives the identity filter. An IIR section's `New` gives a fresh section with the same coefficients and no history. |
| Filters.Filter.Step | Filters.cs:15-21 | The identity filter returns its input unchanged. An IIR section steps its recurrence. |
| Filters.None | Filters.cs:5 | The `None` factory yields the identity filter. |
| Filters.BesselD5 | Filters.cs:6 | Each access yields a new, unstepped section with the listed 5-sample-delay coefficients. |
| Filters.BesselD10 | Filters.cs:7 | Each access yields a new, unstepped section with the listed 10-sample-delay coefficients. |
| Filters.BesselD20 | Filters.cs:8 | Each access yields a new, unstepped section with the listed 20-sample-delay coefficients. |
| Filters.BesselD40 | Filters.cs:9 | Each access yields a new, unstepped section with the listed 40-sample-delay coefficients. |
| Filters.DifferenceEquation | Filters.cs:36-48 | Over any input stream fed from any history, output i is `Recurrence` = B0·x[i] + B1·x[i-1] + B2·x[i-2] + A1·y[i-1] + A2·y[i-2]. The two places before the stream read the history that the first step sees, seeded if no sample was seen. So recurrence plus shift is a second-order difference equation over the streams. |
| Filters.UnsteppedDifferenceEquation | Filters.cs:36-48 | From a new section, the output stream follows that difference equation, with x[0] standing for every input and output before the stream starts. |
| Filters.FirstOutputIsGainTimesInput | Filters.cs:36-43 | On the first sample all four slots hold x, so the output is x·(B0+B1+B2+A1+A2). |
| Filters.FirstNeverReturns | Filters.cs:28-41 | After any sequence of samples, `first` holds exactly when it held at the start and no sample was fed. Once cleared it never returns. |
| Filters.ConstantInputPassesThrough | Filters.cs:36-47 | With coefficient sum exactly 1, a constant input fed from the first sample on (or into a history settled at it) comes out unchanged at every step, and the history stays settled. |
| Filters.BesselGainsNearUnity | Filters.cs:6-9 | Each listed coefficient set sums to within 10^-16 of 1. |
| Timing.DropStale | MainPage.xaml.cs:292-293 | Front eviction by age: the result is a suffix of the queue, and it is empty or starts with an entry not older than the cutoff. |
| Timing.DropStaleOnlyStale | MainPage.xaml.cs:292-293 | Every entry removed was older than the cutoff. |
| Timing.DropStaleAt | MainPage.xaml.cs:292-293 | If the first k entries are stale and entry k is not (or k is the length), eviction leaves exactly the entries from k on. |
| Timing.DropStaleSorted | MainPage.xaml.cs:292-293 | On a queue in time order, eviction keeps the order and leaves no entry older than the cutoff. |
| Timing.DropStaleNotAfter | MainPage.xaml.cs:292-293 | Eviction keeps every remaining entry at or before `now`. |
| Timing.SortedAppend | MainPage.xaml.cs:291 | Enqueuing an entry not older than any queued one keeps the queue in time order. |
| Timing.History.constructor | MainPage.xaml.cs:287 | A new history is empty. |
| Timing.History.AddValue | MainPage.xaml.cs:289-294 | Enqueue `(now, val)`, then evict from the front while the head is older than 70 s. The new queue is `Added(old queue, now, val)` and ends with `(now, val)`, so, with one `now` for the whole call, the unguarded head read in the loop never meets an empty queue. |
| Timing.AddedKeepsNewEntry | MainPage.xaml.cs:289-294 | After an insert the queue is non-empty and ends with the new entry. The survivors before it are the newest entries of the old queue, in their old order. |
| Timing.AddedRetainsWindow | MainPage.xaml.cs:289-294 | With nondecreasing times, after an insert no entry older than `now - 70` remains, the queue is in time order and no entry lies in the future. |
| Timing.Latest | MainPage.xaml.cs:296-303 | `Last(limit)` is absent exactly when the queue is empty or its last entry is older than `now - limit`. Otherwise it is the last value, so an age exactly equal to `limit` still counts. |
| Timing.History.Last | MainPage.xaml.cs:296-303 | The query on this history's queue is absent exactly when the queue is empty or its last entry is older than `now - limit`. Otherwise it is the last queued value. It is computed by `Latest`. |
| Timing.LatestAfterAdd | MainPage.xaml.cs:289-303 | Right after inserting `val` at `now`, a query at `later` with age limit `limit` returns `val` exactly when `later - limit <= now`, and nothing otherwise. |
| Timing.NewestAppend | MainPage.xaml.cs:275-278 | Keeping the newest cap gaps before and after an enqueue agrees with keeping them only after. |
| Timing.GapsAppend | MainPage.xaml.cs:274-275 | One more call appends exactly the new gap to the gap sequence. |
| Timing.GapsTelescope | MainPage.xaml.cs:282 | The gaps between consecutive calls add up to the time from the first call to the last. |
| Timing.NewestGaps | MainPage.xaml.cs:277-278 | The newest k gaps are the gaps of the newest k+1 call times. |
| Timing.TracksAfterFrame | MainPage.xaml.cs:268-281 | At the first call nothing is enqueued. At each later call the window becomes the newest 100 of the old window plus the new gap, and the last call time becomes `now`. |
| Timing.FpsCounter.constructor | MainPage.xaml.cs:266-267 | A new counter has no gaps and no previous call. |
| Timing.FpsCounter.Evict | MainPage.xaml.cs:277-278 | Dequeuing while over 100 keeps exactly the newest 100 gaps (all of them if there are fewer), in order. |
| Timing.FpsCounter.CountFrame | MainPage.xaml.cs:268-281 | The first call returns 0 and enqueues nothing. Each later call returns `now - last`, enqueues it and keeps the newest 100 gaps. Afterwards the last call time is `now`, and the counter invariant `Tracks` (the window is the newest 100 gaps of all call times) holds. |
| Timing.FpsCounter.AvgFps | MainPage.xaml.cs:282 | The rate is 0 exactly when fewer than 5 gaps are stored. Otherwise it is 1/mean = count/sum of the gaps, or infinity when the gaps sum to 0. |
| Timing.AvgFpsIsWindowRate | MainPage.xaml.cs:282 | With at least 5 gaps stored, the rate is n over the time between the newest call and the call n calls earlier, where n is the number of stored gaps. |
| Painter.FilledUpToAll | MainPage.xaml.cs:153-165 | Visiting the blobs front to back fills the same discs as the recursive `Filled`. |
| Painter.FilledSound | MainPage.xaml.cs:155-161 | Every filled disc belongs to a blob with view Z < 0 and is that blob's projected disc (cx, cy, cr from max(W,H)/FOV). Its box meets the open viewport under strict inequalities, and the discs come in blob order. |
| Painter.FilledComplete | MainPage.xaml.cs:155-161 | Every blob with view Z < 0 whose box meets the viewport has its disc filled. |
| Painter.FilledIff | MainPage.xaml.cs:155-161 | A blob's disc is filled if and only if it is in front of the viewer and its box meets the viewport. |
| Painter.BehindBlobSkipped | MainPage.xaml.cs:155-157 | A blob with view Z >= 0 gets no disc, and its trace only loses stale points. |
| Painter.CulledBlobIsTraced | MainPage.xaml.cs:158-167 | A traced blob in front of the viewer whose box misses the viewport is not filled, yet its trace still ends with `(now, (cx, cy))`. |
| Painter.TraceKeepsLastSecond | MainPage.xaml.cs:136-167 | With nondecreasing frame times, a trace stays in time order, and after a frame it holds only points from the last second. |
| Painter.FrameMovesTrace | MainPage.xaml.cs:136-167 | The pruning loop followed by the drawing loop moves a blob's trace as `TraceAfterFrame` says and changes nothing else about the blob. |
| Painter.PruneTrace | MainPage.xaml.cs:139-140 | Dequeuing while the oldest point is older than the cutoff leaves `DropStale(trace, cutoff)`. |
| Painter.PruneBlob | MainPage.xaml.cs:136-140 | A blob with a trace queue drops its points older than `now - 1`; a blob without one is unchanged. |
| Painter.PruneTraces | MainPage.xaml.cs:136-140 | The first loop prunes every blob and keeps their number and order. |
| Painter.ProjectBlob | MainPage.xaml.cs:155-167 | A blob behind the viewer yields no disc and is unchanged. Otherwise its disc is yielded exactly when its box meets the viewport, and a traced blob records its centre whether or not it was culled. |
| Painter.ProjectAll | MainPage.xaml.cs:153-168 | The second loop fills exactly `Filled(...)`, in blob order, and moves every blob as `Projected` says. |
| Painter.ScreenPainter.constructor | MainPage.xaml.cs:103-124 | A painter over the given blobs with fresh, empty counters and histories. The two modelled counters are distinct, and so are the three histories, each allocated on its own. Every blob without a trace queue holds no trace points, and `Valid` keeps that for every blob. |
| Painter.ScreenPainter.Draw | MainPage.xaml.cs:126-197 | Nothing changes on an empty viewport. Otherwise the frame is counted, and the status line shows the drawing and location rates (`AvgFps`) after the count. The filled discs are `Filled` over the view vectors and sizes. Every blob's trace becomes `TraceAfterFrame` of its old trace. The heading and barometric overlays show a value at most 1 s old, and the GPS altitude overlay one at most 2 s old. |
| Painter.ScreenPainter.Geolocation | MainPage.xaml.cs:228-236 | The heading and barometric histories are never touched. A fix with accuracy worse than 50 m changes nothing else either. Otherwise the fix is counted, and its altitude, if present, is stored in feet (×3.2808399). |

## Left out

- The `MainPage` class (MainPage.xaml.cs:6-96) is left out. It is sensor event wiring, invalidation, a dead timer branch and a background thread: UI plumbing and concurrency.
- All canvas calls, colours, fonts, string formatting and the trace alpha (MainPage.xaml.cs:131-132,141-149,162-164,170-196) are left out. They are rendering and float colour math. The values the frame would display are modelled as `Frame`: the discs, the drawing and location rates of the status line, and the three overlays. The status line's gyroscope, barometer and compass rates are not part of `Frame` (see the line on the other counters below).
- `ScreenPainter.Gyroscope` is left out. It is float quaternion integration through library calls, and it has no guard against a zero angular velocity.
- `ScreenPainter.Barometer` is left out. It is `Math.Exp`/`Math.Log` floating-point numerics with a fixed reference pressure of 101325 Pa.
- `ScreenPainter.Compass` is left out. It only counts a frame and stores the filtered heading. The code has no heading unwrap, so the model has none either.
- `Blob.CreateRandom` and the blob setup in the painter's constructor are left out: random sampling, trigonometry and quaternion transforms. The constructor takes the blobs as given. The code has no pairwise-separation or rejection check, and it never enables a trace queue (the assignment is commented out), so the traced case is modelled for when it is enabled.
- The quaternion inverse transform is a library call. `Draw` takes the view vectors as input.
- The three other counters (`_fpsGyroscope`, `_fpsBarometer`, `_fpsCompass`) are left out. They are updated only by handlers that are not modelled, so their rates in the status line are not part of `Frame`.
- `_gpsSpeed` is not modelled. It is never written, because its update in `Geolocation` is commented out, and it is never read.
- Painter.Blob: `_blobs` is an array whose slots are written only while the painter is built. The model keeps it as a sequence of blob values held by the painter, because every mutation of a blob (its trace queue) happens through the painter. The model is therefore silent about aliasing of blob objects, which the code never does.
- Timing.FpsCounter.CountFrame: `_last == default(DateTime)` is the code's "no previous call" test, modelled as `Option`. A real call at the default timestamp is not modelled.
- Timing.FpsCounter.CountFrame: the code reads the clock twice per call, once for the stored time and once for the gap. The model reads one `now`, so it ignores the time that passes between the two reads.
- Timing.History.AddValue: the code reads the clock once for the stored time, and again at every test of the eviction loop, so the cutoff moves forward while the loop runs. The model uses one cutoff, `now - 70`, for the whole loop. The proof that the head read never meets an empty queue rests on this simplification. In the code, if the clock moved more than 70 s past the new entry's stamp during the loop, the new entry would be dequeued too and the next head read would throw.
- Painter.ScreenPainter.Draw: every test of the pruning loop, every trace append and every overlay query reads the clock separately, so the pruning cutoff moves forward while the loop runs. The model uses one `now` per frame, so it has one cutoff, `now - 1`, for every trace.
- Timing.FpsCounter.AvgFps: `1.0 / Average()` with a zero mean gives IEEE infinity; it is modelled as `Rate.Infinite`. Rounding, NaN and signed zero are not modelled.
- Floating-point rounding in general is not modelled. The constant-input property of the IIR section is proved for a coefficient sum of exactly 1. The four listed sets differ from 1 by less than 10^-16 (`Filters.BesselGainsNearUnity`).
- Painter.ScreenPainter.Draw: the field of view is a positive number given at construction; `Valid` requires it to be greater than 0.
- A `History` evicts only on insert. Between inserts, stale entries stay queued, and `Last` hides them by its age limit. The model does the same and promises the 70 s window only right after an insert (`Timing.AddedRetainsWindow`).
- Concurrency between sensor callbacks and `Draw` is left out. The code has no synchronisation, and the model is sequential.
