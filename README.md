# klusta waveform extraction and loading, modelled in Dafny

This project models `klusta/traces/waveform.py`, the part of klusta that
turns spike detections into waveforms. It has two halves.

- **Extraction.** `WaveformExtractor` takes one connected component of
  threshold crossings, a list of (sample, channel) points. From it, it finds:
  - the component's channel group and member channels, from the
    `channels_per_group` topology;
  - a time window of the trace, 3 samples before the component and 4 after,
    clipped to the trace;
  - a sparse wave holding the trace values at the component's points only;
  - one soft mask per member channel: the channel's peak value, normalised
    between the weak and strong thresholds and clipped to [0, 1];
  - the raw zero-padded window of `before + after + 3` samples around the
    aligned spike time (`_get_padded`, `extract`).
- **Loading.** `WaveformLoader` cuts fixed-length windows out of a trace at
  given sample times. Each read is widened by a filter margin and
  zero-padded at the trace's ends. It is optionally filtered, trimmed back to
  its length and restricted to a channel subset. A batch fills one slot per
  requested time in a preallocated 3-D buffer, skips invalid times, and then
  applies a DC offset and a scale factor. `SpikeLoader` turns spike ids into
  sample times and hands them to a waveform loader.

The modules follow the file's structure:

- `Outcomes` holds the exceptions the code raises, as values of a `Result`.
- `Arrays` holds two-dimensional numpy arrays as rectangular lists of rows,
  with Python slicing, numpy integer-array indexing with negative wrap-round,
  and a reference window `PaddedWindow(data, start, end)`: rows
  [start, end), zero rows outside the array.
- `Extractor` covers `_get_padded` and the `WaveformExtractor` class.
- `Loader` covers `_before_after`, `_slice`, `_load_at`, and the
  `WaveformLoader` and `SpikeLoader` classes.

Pure code is written as functions. Code that changes state step by step is
written as methods over arrays and class fields:
- `_comp_wave`'s writes into a zeroed buffer;
- `masks`' binary mask;
- the setters;
- `set_thresholds`;
- `__getitem__`'s slot-by-slot fill and in-place offset and scale.

Amplitudes are `real`. Times, offsets and sample counts are unbounded
integers.

Where the code does not do what its names or docstrings suggest, the model
follows the code:
- `_get_padded` raises when `start < 0` and `end == len(data)`, although its
  docstring only excludes `end > len(data)`.
- Even when the range leaves the array on one side only, `_get_padded` does
  not always return `end - start` rows, because numpy's slicing does not
  zero-fill. A negative end with a negative start is counted from the
  array's end (`NegativeEndOverCounts`). A start past the array takes no
  data rows, but is still padded with `end - len(data)` zero rows
  (`StartPastEndOverCounts`).
- When the margin-extended read starts at or before sample 0 and also runs
  past the trace's end, `_load_at` pads only on the left. The samples then
  sit later in the window than their times say (`ChunkShiftsOnShortTrace`).
- A filter margin `(mb, 0)` with `mb > 0` is never trimmed, so `_load_at`'s
  shape assertion always fails for it without a filter, or with one that
  keeps the shape.
- A slot of a batch whose time is invalid is never written. It keeps whatever
  `np.empty` left there, so its contents are unspecified, not zero.
- On a touched channel none of whose component amplitudes is positive, `masks`
  reads the peak at the first cell holding the sparse column's largest
  value. Unless the channel's component points cover the whole window, that
  is a zero cell, which can be a sample that is no component point and whose
  trace value can be large
  (`NegativeChannelReadsNeighbour`). The model states the mask as the code
  computes it.
- `n_channels_waveforms` raises AttributeError when neither traces nor a
  channel subset were given, because `n_channels_traces` is then never set.

## Model

| member | source | states |
|---|---|---|
| Extractor.GetPadded | klusta/traces/waveform.py:23-40 | raises RuntimeError exactly when start < 0 and end >= the row count (so end == len raises too); otherwise keeps the channel count |
| Extractor.GetPaddedIsWindow | klusta/traces/waveform.py:23-40 | when the range does not both start before 0 and end at or after the row count, its end is not negative, and a range ending past the array does not start past it, the result is the reference window: end - start rows, row i being data[start + i] inside the array and a zero row outside |
| Extractor.NegativeEndOverCounts | klusta/traces/waveform.py:31-34 | on ten zero rows, the range [-5, -2) gives 13 rows, because `data[:end]` counts a negative end from the array's end |
| Extractor.StartPastEndOverCounts | klusta/traces/waveform.py:35-38 | on three zero rows, the range [5, 7) gives 4 rows, because the right padding is sized from the array's end, not from start |
| Extractor.DepChannels | klusta/traces/waveform.py:57-60 | a channel has an entry exactly when some group of the topology lists it |
| Extractor.ChannelGroups | klusta/traces/waveform.py:61-63 | a channel has a group exactly when some group of the topology lists it |
| Extractor.LastGroup | klusta/traces/waveform.py:58-63 | for a listed channel, the index of a group listing it after which no group lists it |
| Extractor.LastGroupWins | klusta/traces/waveform.py:58-63 | both comprehensions resolve a channel through the last group listing it, as later dictionary items override earlier ones |
| Extractor.ChannelLookup | klusta/traces/waveform.py:58-63 | with disjoint groups, a member channel of group g maps to g's member list and to g's id |
| Extractor.Normalize | klusta/traces/waveform.py:90-94 | the mask is in [0, 1]; with weak < strong, values at or below weak give 0 and values at or above strong give 1 |
| Extractor.NormalizeMonotonic | klusta/traces/waveform.py:90-94 | with weak < strong, a larger amplitude never gets a smaller mask |
| Extractor.ColumnArgMax | klusta/traces/waveform.py:117 | the row `np.argmax` picks in one column: a largest value, and the first one among equals |
| Extractor.PositiveMax | klusta/traces/waveform.py:103-119 | the largest amplitude of the component's points on a channel, or zero: it bounds every such amplitude and, when positive, is one of them |
| Extractor.PeakAmplitude | klusta/traces/waveform.py:114-119 | the peak value `masks` uses on a channel: 0 when no component point lies on it, otherwise the trace value at a row of the window where the given wave's column is largest |
| Extractor.Peak | klusta/traces/waveform.py:101-119 | the same peak computed from the trace and the component alone: 0 on an untouched channel, otherwise the trace value at a window row where the sparse column is largest |
| Extractor.SparseArgMax | klusta/traces/waveform.py:101-117 | the row `np.argmax` picks in a channel's column of the sparse wave, computed from the trace and the component alone: a largest sparse value, and the first one among equals |
| Extractor.ArgMaxOfSparse | klusta/traces/waveform.py:96-117 | the argmax of a column of the array `_comp_wave` fills is the argmax of that column as computed from the trace and the component |
| Extractor.PeakOfSparse | klusta/traces/waveform.py:96-119 | the peak value `masks` reads on a channel is `Peak`: the trace value at the window's start plus the sparse column's argmax when the channel is touched, and 0 otherwise |
| Extractor.NegativeChannelReadsNeighbour | klusta/traces/waveform.py:101-119 | on a trace [-1, 100, 0, 0] with the one component point (0, 0), the touched channel's peak is the 100 at sample 1, which is no component point, and thresholds 2 and 10 give it mask 1 |
| Extractor.SparseCell | klusta/traces/waveform.py:101-103 | a non-zero cell of the sparse wave is a component point and holds the trace value there |
| Extractor.SparseBound | klusta/traces/waveform.py:101-117 | no cell of a channel of the sparse wave exceeds that channel's largest component amplitude |
| Extractor.SparseAtPoint | klusta/traces/waveform.py:103 | the sparse wave holds the trace value at every component point |
| Extractor.SparseColumnMax | klusta/traces/waveform.py:101-117 | when a channel has a positive component amplitude, its argmax cell holds the largest one |
| Extractor.SparsePeak | klusta/traces/waveform.py:101-119 | the peak value `masks` reads on such a channel is its largest component amplitude |
| Extractor.MaskSaturates | klusta/traces/waveform.py:90-125 | with weak < strong and 0 < strong, a channel on which some component point reaches the strong threshold gets mask 1 |
| Extractor.MaskSilent | klusta/traces/waveform.py:90-125 | with 0 <= weak < strong, a channel whose component amplitudes stay at or below weak gets mask 0 (when untouched, or when one of them is positive) |
| Extractor.WaveformExtractor.constructor | klusta/traces/waveform.py:45-63 | a missing weight power becomes 1; the two maps are derived from the topology |
| Extractor.WaveformExtractor.Component | klusta/traces/waveform.py:65-88 | an empty component raises IndexError; a dead first channel raises the dead-channel error exactly when no group lists it; the window assertion fails exactly when the clipped window is empty; otherwise it succeeds, the members and group are the first channel's, and the window is [max(min - 3, 0), min(max + 4, n)) |
| Extractor.WaveformExtractor.ComponentWindow | klusta/traces/waveform.py:65-88 | a component inside the trace on a live channel always resolves; every point lies in the window, 3 samples past its start and 4 before its end unless clipped; with disjoint groups, members and group are those of the group listing the first channel |
| Extractor.WaveformExtractor.CompWave | klusta/traces/waveform.py:96-104 | a fresh (sMax - sMin) x nc array holding the trace value at each component point and zero everywhere else |
| Extractor.WaveformExtractor.Masks | klusta/traces/waveform.py:106-125 | KeyError without both thresholds; IndexError exactly when a member channel is outside the trace; otherwise one mask per member channel, the normalised `PeakAmplitude`: the trace value at the argmax row of that channel's column of the given wave, times the binary mask (on the array `_comp_wave` builds, `PeakOfSparse` shows it equals `Peak`) |
| Extractor.WaveformExtractor.Extract | klusta/traces/waveform.py:137-143 | fails exactly when the window [s - before - 1, s + after + 2) around s = int(sAligned) starts before 0 and ends at or after the trace's row count, or a channel is outside the trace; the result has one column per requested channel |
| Extractor.WaveformExtractor.ExtractWindow | klusta/traces/waveform.py:137-143 | for s = int(sAligned) in [0, row count], with non-negative before and after and channels inside the trace, and when the window [s - before - 1, s + after + 2) does not both start before 0 and end at or after the row count, the result is the reference window of before + after + 3 rows restricted to the channels |
| Extractor.WaveformExtractor.SetThresholds | klusta/traces/waveform.py:159-160 | the dictionary is updated with the given keys and keeps every other key |
| Extractor.WaveformExtractor.Call | klusta/traces/waveform.py:162-181 | AssertionError when the two traces' shapes differ; otherwise the component's, the thresholds' and the window's errors in the source's order; on success the group, the time, the raw window on the member channels and one mask per member channel in [0, 1], as many masks as window columns, each the normalised peak (`Peak`) of its channel |
| Loader.BeforeAfter | klusta/traces/waveform.py:188-200 | a count n splits into two non-negative parts summing to n, the second at most one larger; a pair is kept; AssertionError exactly for a negative count, a list not of two items or a negative part |
| Loader.Slice | klusta/traces/waveform.py:203-218 | the stop is index + after + margin_after; the start is index - before - margin_before clipped at zero |
| Loader.Pad | klusta/traces/waveform.py:303-307 | assumed contract of `_pad`: zero rows added on the named side up to n rows |
| Loader.Chunk | klusta/traces/waveform.py:298-309 | the padded chunk always has n_samples_extract rows and the trace's channel count, so the assertion at line 309 holds |
| Loader.ChunkIsWindow | klusta/traces/waveform.py:298-307 | except when the read both starts at or before sample 0 and passes the trace's end, the chunk is the reference window [timeO - before - mb, timeO + after + ma) |
| Loader.ChunkOnShortTrace | klusta/traces/waveform.py:298-307 | in that remaining case the chunk is zero rows followed by the whole trace |
| Loader.ChunkShiftsOnShortTrace | klusta/traces/waveform.py:298-307 | in that case, when the trace's last sample is not all zero, the chunk differs from the reference window |
| Loader.Trim | klusta/traces/waveform.py:319-322 | the margin is cut only when margin_after > 0, leaving the length minus both margins; otherwise nothing changes |
| Loader.TrimWindow | klusta/traces/waveform.py:319-322 | trimming a margin-extended reference window gives the reference window without its margin |
| Loader.Select | klusta/traces/waveform.py:325-328 | the channel subset when one is set (IndexError for a channel outside the trace), else the waveforms unchanged; the sample count is kept |
| Loader.Finish | klusta/traces/waveform.py:325-332 | a result has the asserted shape (n_samples_waveforms, n_channels_waveforms); on input of the right shape it is the channel subset |
| Loader.Load | klusta/traces/waveform.py:290-332 | raises the invalid-time error exactly when time - offset is outside [0, n_samples_trace); a result has the shape (n_samples_waveforms, n_channels_waveforms) |
| Loader.LoadOutcome | klusta/traces/waveform.py:290-332 | with a shape-keeping filter, a load succeeds exactly when the time is valid, the margin is not (mb, 0) with mb > 0, and the channel subset is inside the trace; a bad subset raises IndexError and the margin case AssertionError |
| Loader.LoadWindowed | klusta/traces/waveform.py:290-322 | without a filter and away from the short-trace case, the load finishes the margin-extended reference window |
| Loader.FinishWindow | klusta/traces/waveform.py:319-332 | finishing a margin-extended reference window gives the channel subset of the window without its margin |
| Loader.LoadIsWindow | klusta/traces/waveform.py:290-332 | without a filter and away from the short-trace case, a valid load is the channel subset of the reference window [timeO - before, timeO + after) |
| Loader.LoadAll | klusta/traces/waveform.py:357-363 | one fresh slot per time; succeeds exactly when no load fails other than by an invalid time; otherwise fails with the first such failure; every loaded slot holds its window |
| Loader.Store | klusta/traces/waveform.py:361 | slot i holds the window and every other slot is unchanged |
| Loader.WaveformLoader.constructor | klusta/traces/waveform.py:224-261 | fields as given; sizes derived from the trace; n_samples_waveforms and n_samples_extract are the sums |
| Loader.WaveformLoader.Create | klusta/traces/waveform.py:224-261 | SamplesNotSpecified when n_samples is missing; AssertionError exactly when either count is not a valid split; otherwise a valid loader with the split counts and the given settings |
| Loader.WaveformLoader.SetTraces | klusta/traces/waveform.py:268-271 | the trace and both sizes are replaced and the channel subset is kept |
| Loader.WaveformLoader.SetChannels | klusta/traces/waveform.py:278-280 | the channel subset is replaced and the trace is kept |
| Loader.WaveformLoader.NChannelsWaveforms | klusta/traces/waveform.py:282-288 | the subset's size, else the trace's channel count; AttributeError exactly when neither was given |
| Loader.WaveformLoader.AdjustAll | klusta/traces/waveform.py:364-367 | every element has the DC offset subtracted and the scale factor applied, each only when set and non-zero |
| Loader.WaveformLoader.GetItem | klusta/traces/waveform.py:334-368 | a slice raises NotImplementedError; the channel count's AttributeError comes first; otherwise one slot per requested time; an empty trace gives zeros; invalid times are skipped; any other load failure fails the batch with the first such failure; every loaded slot holds the adjusted window |
| Loader.SpikeLoader.constructor | klusta/traces/waveform.py:374-381 | the shape is (number of spikes, n_samples_waveforms, n_channels_waveforms) |
| Loader.SpikeLoader.Create | klusta/traces/waveform.py:374-381 | AttributeError exactly when the loader's channel count is unavailable; otherwise a loader with that shape |
| Loader.SpikeLoader.Len | klusta/traces/waveform.py:387-388 | the number of spikes; indexing accepts exactly the ids in [-len, len) |
| Loader.SpikeLoader.Lookup | klusta/traces/waveform.py:383-384 | an id or an id list outside the spike table (negative ids counting from the end) raises IndexError; otherwise the times of those ids, in order; an id slice gives the Python slice of the times |
| Loader.SpikeLoader.GetItem | klusta/traces/waveform.py:383-385 | the waveform loader's result for the looked-up times, one slot per id; IndexError for an id outside the table |

## Left out

- `align` (interpolation with scipy's cubic `interp1d`) is not modelled:
  it is a foreign numeric library working on floats.
- `spike_sample_aligned` (a weighted centroid using `np.power`) is not
  modelled: it is floating-point arithmetic. The aligned time is an input of
  `Call`.
- Extractor.WaveformExtractor.Call: returns the unaligned window. The
  interpolated one `align` would return is not modelled, so neither is the
  `weight_power` it uses.
- Extractor.WaveformExtractor.Call: requires the component's points to lie
  inside the trace, as their detection guarantees. It also requires the two
  thresholds to differ, since numpy would divide by zero.
- Extractor.Normalize: requires weak != strong. With equal thresholds numpy
  produces inf or NaN, and the model has no floating-point special values.
- Extractor.WaveformExtractor.Masks: requires the component to fit its
  window and the trace, which `Component` guarantees (`ComponentWindow`).
- Loader.Pad: the body of `_pad` (in `klusta/utils.py`) is not part of this
  model. The function states the behaviour `_load_at` relies on: zero rows
  on the named side up to the target length.
- The `filter` callable is foreign code. It is an arbitrary function from
  arrays to arrays. `LoadOutcome` assumes it keeps the shape, and
  `LoadIsWindow` covers the case without a filter.
- Loader.LoadAll: takes the outcomes of `_load_at` for all requested times
  at once. `_load_at` only reads the loader's state, so computing outcomes
  past the first failing time changes nothing.
- The `float32` dtype and the rounding of the offset and scale arithmetic
  are not modelled; amplitudes are exact reals. The shape of the result is
  modelled.
- Logging of skipped times is not modelled.
- The unsized-ndarray coercion in `__getitem__` (lines 343-349) is not
  modelled; an index is a time or a list of times.
- Times are integers, so `int(time)` and `int(offset)` are the identity.
  `extract`'s `int(s_aligned)` is modelled as truncation toward zero.
- `thresholds=None` is not modelled: the topology and the thresholds are
  always given as values.
- Extractor.WaveformExtractor.SetThresholds: updates the extractor's own
  dictionary. The source stores the caller's dict (`thresholds or {}`, line
  55), so the `update` at line 160 also changes the caller's dict; this
  aliasing is not modelled.
- The `dtype` attributes and the `traces` and `channels` getters are not
  modelled; they only return stored fields.
- Loader.SpikeLoader.constructor: requires the loader's channel count to be
  available. `Loader.SpikeLoader.Create` models the AttributeError raised
  otherwise.
- Id slices with a step are not modelled: `IdRange` is `start:stop` with
  unit step.
- Memory-mapped trace storage is not modelled; the trace is a value.
