/** The waveform loader: fixed-length windows of a trace at given sample
    times, read with a filter margin, zero-padded at the trace's ends,
    optionally filtered, restricted to a channel subset, offset and scaled;
    and the spike loader, which turns spike ids into sample times. */
module Loader {
  import opened Outcomes
  import opened Arrays

  // ---------------------------------------------------------------------------
  // Window arithmetic
  // ---------------------------------------------------------------------------

  /** A number of samples as the loader accepts it: one count, to be split
      before/after, or a list that must be a (before, after) pair. */
  datatype Span = Count(n: int) | Parts(parts: seq<int>)

  /** `_before_after`: a count n splits into (n // 2, n - n // 2); a pair is
      kept as given; both parts must be non-negative. */
  function BeforeAfter(n: Span): (r: Result<(nat, nat)>)
    ensures r.Ok? <==> (if n.Count? then n.n >= 0 else |n.parts| == 2 && n.parts[0] >= 0 && n.parts[1] >= 0)
    ensures r.Err? ==> r.error == AssertionError
    ensures r.Ok? && n.Count? ==> r.value.0 + r.value.1 == n.n && r.value.0 <= r.value.1 <= r.value.0 + 1
    ensures r.Ok? && n.Parts? ==> [r.value.0, r.value.1] == n.parts
  {
    match n
    case Count(total) =>
      // Dafny's division by a positive divisor floors, as Python's `//` does.
      var before := total / 2;
      var after := total - before;
      if before < 0 || after < 0 then Err(AssertionError) else Ok((before, after))
    case Parts(parts) =>
      if |parts| != 2 then Err(AssertionError)
      else if parts[0] < 0 || parts[1] < 0 then Err(AssertionError)
      else Ok((parts[0], parts[1]))
  }

  datatype Range = Range(start: int, stop: int)

  /** `_slice`: the window [index - before - margin_before,
      index + after + margin_after), its start clipped at zero. */
  function Slice(index: int, nSamples: (int, int), margin: (int, int)): (r: Range)
    ensures 0 <= r.start && index - (nSamples.0 + margin.0) <= r.start
    ensures r.start > 0 ==> r.start == index - (nSamples.0 + margin.0)
    ensures r.stop - index == nSamples.1 + margin.1
  {
    var before := nSamples.0 + margin.0;
    var after := nSamples.1 + margin.1;
    Range(if index - before > 0 then index - before else 0, index + after)
  }

  datatype Side = Left | Right

  /** `_pad` of the utilities, whose source is not part of this model. Its
      assumed contract: zero rows added on the named side up to n rows. */
  function Pad(m: Matrix, n: nat, side: Side): (r: Matrix)
    requires |m.rows| <= n
    ensures |r.rows| == n && r.cols == m.cols
    ensures side == Left ==> r.rows == Zeros(n - |m.rows|, m.cols).rows + m.rows
    ensures side == Right ==> r.rows == m.rows + Zeros(n - |m.rows|, m.cols).rows
  {
    if side == Left then Stack(Zeros(n - |m.rows|, m.cols), m)
    else Stack(m, Zeros(n - |m.rows|, m.cols))
  }

  /** The chunk `_load_at` reads before filtering: the margin-extended slice
      of the trace around timeO, padded on the left when the slice starts at
      sample 0, else on the right when it reaches sample ns - 1. The length
      assertion that follows in the source always holds. */
  function Chunk(traces: Matrix, timeO: int, ba: (nat, nat), margin: (nat, nat)): (c: Matrix)
    requires 0 <= timeO < |traces.rows|
    ensures |c.rows| == ba.0 + ba.1 + margin.0 + margin.1
    ensures c.cols == traces.cols
  {
    var ns := |traces.rows|;
    var nExtract := ba.0 + ba.1 + margin.0 + margin.1;
    var sl := Slice(timeO, ba, margin);
    var extract := SliceRows(traces, sl.start, sl.stop);
    assert |extract.rows| <= nExtract;
    if sl.start <= 0 then Pad(extract, nExtract, Left)
    else if sl.stop >= ns - 1 then Pad(extract, nExtract, Right)
    else extract
  }

  /** Unless the margin-extended window both starts at or before sample 0 and
      runs past the trace's end, the chunk is exactly the reference window
      [timeO - before - mb, timeO + after + ma). */
  lemma ChunkIsWindow(traces: Matrix, timeO: int, ba: (nat, nat), margin: (nat, nat))
    requires 0 <= timeO < |traces.rows|
    requires var b, a := ba.0 + margin.0, ba.1 + margin.1;
      !(timeO <= b && timeO + a > |traces.rows|)
    ensures Chunk(traces, timeO, ba, margin) ==
      PaddedWindow(traces, timeO - (ba.0 + margin.0), timeO + ba.1 + margin.1)
  {
    var ns := |traces.rows|;
    var b, a := ba.0 + margin.0, ba.1 + margin.1;
    var c := Chunk(traces, timeO, ba, margin);
    var w := PaddedWindow(traces, timeO - b, timeO + a);
    var sl := Slice(timeO, ba, margin);
    assert |c.rows| == |w.rows|;
    forall k | 0 <= k < |w.rows| ensures c.rows[k] == w.rows[k] {
      if sl.start <= 0 {
        var extract := SliceRows(traces, sl.start, sl.stop);
        assert |extract.rows| == timeO + a;
        if k < b - timeO {
          assert c.rows[k] == Zeros(b - timeO, traces.cols).rows[k];
        } else {
          assert c.rows[k] == extract.rows[k - (b - timeO)];
        }
      } else if sl.stop >= ns - 1 {
        var extract := SliceRows(traces, sl.start, sl.stop);
        if k >= |extract.rows| {
          assert c.rows[k] == Zeros(a + b - |extract.rows|, traces.cols).rows[k - |extract.rows|];
        }
      }
    }
    assert c.rows == w.rows;
  }

  /** When the window starts at or before sample 0 and also runs past the
      trace's end, all the padding goes on the left: the chunk is the whole
      trace pushed against the chunk's end. */
  lemma ChunkOnShortTrace(traces: Matrix, timeO: int, ba: (nat, nat), margin: (nat, nat))
    requires 0 <= timeO < |traces.rows|
    requires var b, a := ba.0 + margin.0, ba.1 + margin.1;
      timeO <= b && timeO + a > |traces.rows|
    ensures var n := ba.0 + ba.1 + margin.0 + margin.1;
      Chunk(traces, timeO, ba, margin).rows == Zeros(n - |traces.rows|, traces.cols).rows + traces.rows
  {
    var n := ba.0 + ba.1 + margin.0 + margin.1;
    var sl := Slice(timeO, ba, margin);
    assert sl.start == 0 && sl.stop > |traces.rows|;
    var extract := SliceRows(traces, sl.start, sl.stop);
    assert extract.rows == traces.rows;
    assert Chunk(traces, timeO, ba, margin) == Pad(extract, n, Left);
  }

  /** In that case the trace's samples sit timeO + after + ma - ns rows
      later than in the reference window, so the chunk differs from it
      whenever the trace's last sample is not all zero. */
  lemma ChunkShiftsOnShortTrace(traces: Matrix, timeO: int, ba: (nat, nat), margin: (nat, nat))
    requires 0 <= timeO < |traces.rows|
    requires var b, a := ba.0 + margin.0, ba.1 + margin.1;
      timeO <= b && timeO + a > |traces.rows|
    requires traces.rows[|traces.rows| - 1] != ZeroRow(traces.cols)
    ensures Chunk(traces, timeO, ba, margin) !=
      PaddedWindow(traces, timeO - (ba.0 + margin.0), timeO + ba.1 + margin.1)
  {
    var ns := |traces.rows|;
    var b, a := ba.0 + margin.0, ba.1 + margin.1;
    var c := Chunk(traces, timeO, ba, margin);
    var w := PaddedWindow(traces, timeO - b, timeO + a);
    ChunkOnShortTrace(traces, timeO, ba, margin);
    assert c.rows[a + b - 1] == traces.rows[ns - 1];
    assert w.rows[a + b - 1] == ZeroRow(traces.cols);
  }

  /** `waveforms[mb:-ma]`, done only when ma > 0: a margin (mb, 0) is kept. */
  function Trim(w: Matrix, margin: (nat, nat)): (t: Matrix)
    ensures t.cols == w.cols
    ensures margin.1 > 0 && margin.0 + margin.1 <= |w.rows| ==> |t.rows| == |w.rows| - margin.0 - margin.1
    ensures margin.1 == 0 ==> t == w
  {
    if margin.1 > 0 then SliceRows(w, margin.0, -(margin.1 as int)) else w
  }

  /** Trimming the margin off a reference window leaves the reference
      window without its margin. */
  lemma TrimWindow(data: Matrix, lo: int, hi: int, margin: (nat, nat))
    requires margin.1 > 0 || margin.0 == 0
    requires lo + margin.0 + margin.1 <= hi
    ensures Trim(PaddedWindow(data, lo, hi), margin) == PaddedWindow(data, lo + margin.0, hi - margin.1)
  {
    var c := PaddedWindow(data, lo, hi);
    var t := Trim(c, margin);
    var w := PaddedWindow(data, lo + margin.0, hi - margin.1);
    assert |t.rows| == |w.rows|;
    forall k | 0 <= k < |w.rows| ensures t.rows[k] == w.rows[k] {
      if margin.1 > 0 {
        assert t.rows[k] == c.rows[margin.0 + k];
      }
    }
    assert t.rows == w.rows;
  }

  /** `waveforms[:, channels]` when a channel subset is set, else the
      waveforms unchanged. */
  function Select(m: Matrix, channels: Option<seq<int>>): (r: Result<Matrix>)
    ensures channels.None? ==> r == Ok(m)
    ensures channels.Some? ==> r == TakeColumns(m, channels.value)
    ensures r.Ok? ==> (|r.value.rows| == |m.rows| &&
      r.value.cols == if channels.Some? then |channels.value| else m.cols)
  {
    if channels.Some? then TakeColumns(m, channels.value) else Ok(m)
  }

  /** The filter, when there is one, keeps the shape of what it filters. */
  ghost predicate PreservesShape(filter: Option<Matrix -> Matrix>) {
    filter.None? ||
    forall m: Matrix :: |filter.value(m).rows| == |m.rows| && filter.value(m).cols == m.cols
  }

  /** A failure of `_load_at` that `__getitem__` does not catch: anything but
      the invalid-time ValueError. */
  predicate Fatal(r: Result<Matrix>) {
    r.Err? && !r.error.InvalidTime?
  }

  /** The index of a loader: one time, a list of times, or a slice. */
  datatype Index = At(time: int) | Times(times: seq<int>) | SliceIndex

  /** The times an index requests: a single time is wrapped into a list. */
  function Requested(item: Index): (ts: seq<int>)
    requires !item.SliceIndex?
    ensures item.At? ==> ts == [item.time]
    ensures item.Times? ==> ts == item.times
  {
    if item.At? then [item.time] else item.times
  }

  /** What `_load_at` reads of a loader: its trace, offset, filter, sample
      counts, filter margin and channel subset. */
  datatype Setup = Setup(traces: Option<Matrix>, offset: int, filter: Option<Matrix -> Matrix>,
                         nSamples: (nat, nat), margin: (nat, nat), channels: Option<seq<int>>)
  {
    /** `n_samples_trace`: zero before a trace is set. */
    function NSamplesTrace(): (n: nat) {
      if traces.Some? then |traces.value.rows| else 0
    }
  }

  /** `_load_at`: the window at one absolute time. The time is made relative
      to the trace by the offset and must fall inside it; the margin-extended
      chunk is filtered, trimmed, restricted to the channel subset and checked
      against the expected shape. */
  function Load(s: Setup, time: int): (r: Result<Matrix>)
    ensures (r.Err? && r.error.InvalidTime?) <==> !(0 <= time - s.offset < s.NSamplesTrace())
    ensures r.Ok? ==> (s.traces.Some? && |r.value.rows| == s.nSamples.0 + s.nSamples.1 &&
      r.value.cols == if s.channels.Some? then |s.channels.value| else s.traces.value.cols)
  {
    var timeO := time - s.offset;
    var ns := s.NSamplesTrace();
    if !(0 <= timeO < ns) then Err(InvalidTime(timeO, ns))
    else
      var extract := Chunk(s.traces.value, timeO, s.nSamples, s.margin);
      var waveforms := if s.filter.Some? then s.filter.value(extract) else extract;
      Finish(s, Trim(waveforms, s.margin))
  }

  /** The end of `_load_at` on the trimmed waveforms: the channel subset, then
      the assertion on the output's shape. */
  function Finish(s: Setup, trimmed: Matrix): (r: Result<Matrix>)
    requires s.traces.Some?
    ensures r.Ok? ==> (|r.value.rows| == s.nSamples.0 + s.nSamples.1 &&
      r.value.cols == if s.channels.Some? then |s.channels.value| else s.traces.value.cols)
    ensures |trimmed.rows| == s.nSamples.0 + s.nSamples.1 && trimmed.cols == s.traces.value.cols ==>
      r == Select(trimmed, s.channels)
    ensures Select(trimmed, s.channels).Err? ==> r == Select(trimmed, s.channels)
  {
    var nc := if s.channels.Some? then |s.channels.value| else s.traces.value.cols;
    match Select(trimmed, s.channels)
    case Err(e) => Err(e)
    case Ok(out) =>
      if |out.rows| == s.nSamples.0 + s.nSamples.1 && out.cols == nc then Ok(out)
      else Err(AssertionError)
  }

  /** With a shape-keeping filter, a load succeeds exactly when the time is
      inside the trace, the margin is not (mb, 0) with mb > 0 (that margin is
      never trimmed, so the shape assertion fails), and the channel subset
      indexes the trace's channels, a bad subset raising IndexError. */
  lemma LoadOutcome(s: Setup, time: int)
    requires PreservesShape(s.filter)
    ensures Load(s, time).Ok? <==>
      0 <= time - s.offset < s.NSamplesTrace() &&
      (s.margin.1 > 0 || s.margin.0 == 0) &&
      (s.channels.Some? && s.traces.Some? ==> AllInAxis(s.channels.value, s.traces.value.cols))
    ensures Load(s, time).Err? && 0 <= time - s.offset < s.NSamplesTrace() ==>
      Load(s, time).error == if s.channels.Some? && !AllInAxis(s.channels.value, s.traces.value.cols)
                             then IndexError else AssertionError
  {
    var timeO := time - s.offset;
    if 0 <= timeO < s.NSamplesTrace() {
      var extract := Chunk(s.traces.value, timeO, s.nSamples, s.margin);
      var waveforms := if s.filter.Some? then s.filter.value(extract) else extract;
      assert |waveforms.rows| == s.nSamples.0 + s.nSamples.1 + s.margin.0 + s.margin.1;
      assert waveforms.cols == s.traces.value.cols;
    }
  }

  /** Without a filter, a load away from the case where the margin-extended
      window overhangs both ends of the trace is the reference window
      [timeO - before, timeO + after) on the channel subset. */
  lemma LoadIsWindow(s: Setup, time: int)
    requires s.filter.None?
    requires 0 <= time - s.offset < s.NSamplesTrace()
    requires s.margin.1 > 0 || s.margin.0 == 0
    requires var b, a := s.nSamples.0 + s.margin.0, s.nSamples.1 + s.margin.1;
      !(time - s.offset <= b && time - s.offset + a > s.NSamplesTrace())
    ensures var timeO := time - s.offset;
      Load(s, time) == Select(PaddedWindow(s.traces.value, timeO - s.nSamples.0, timeO + s.nSamples.1), s.channels)
  {
    var timeO := time - s.offset;
    var c := PaddedWindow(s.traces.value, timeO - (s.nSamples.0 + s.margin.0), timeO + s.nSamples.1 + s.margin.1);
    var w := PaddedWindow(s.traces.value, timeO - s.nSamples.0, timeO + s.nSamples.1);
    LoadWindowed(s, time);
    FinishWindow(s, c, timeO);
  }

  /** Without a filter and away from the short-trace case, a load at a valid
      time finishes the margin-extended reference window. */
  lemma LoadWindowed(s: Setup, time: int)
    requires s.filter.None? && 0 <= time - s.offset < s.NSamplesTrace()
    requires var b, a := s.nSamples.0 + s.margin.0, s.nSamples.1 + s.margin.1;
      !(time - s.offset <= b && time - s.offset + a > s.NSamplesTrace())
    ensures s.traces.Some? && var timeO := time - s.offset;
      Load(s, time) == Finish(s, Trim(PaddedWindow(s.traces.value, timeO - (s.nSamples.0 + s.margin.0),
                                                   timeO + s.nSamples.1 + s.margin.1), s.margin))
  {
    ChunkIsWindow(s.traces.value, time - s.offset, s.nSamples, s.margin);
  }

  /** The end of `_load_at` on the margin-extended reference window around
      timeO: the channel subset of the window without its margin. */
  lemma FinishWindow(s: Setup, c: Matrix, timeO: int)
    requires s.traces.Some? && (s.margin.1 > 0 || s.margin.0 == 0)
    requires c == PaddedWindow(s.traces.value, timeO - (s.nSamples.0 + s.margin.0), timeO + s.nSamples.1 + s.margin.1)
    ensures Finish(s, Trim(c, s.margin)) ==
      Select(PaddedWindow(s.traces.value, timeO - s.nSamples.0, timeO + s.nSamples.1), s.channels)
  {
    var lo, hi := timeO - (s.nSamples.0 + s.margin.0), timeO + s.nSamples.1 + s.margin.1;
    TrimWindow(s.traces.value, lo, hi, s.margin);
    assert lo + s.margin.0 == timeO - s.nSamples.0 && hi - s.margin.1 == timeO + s.nSamples.1;
  }

  /** The loading loop of `__getitem__` on a non-empty trace, given the
      outcome of `_load_at` for each requested time in order, every window
      of shape (ns, nc): one slot per time, an invalid time skipped with its
      slot left unwritten, any other failure ending the batch with that
      failure. */
  method LoadAll(loads: seq<Result<Matrix>>, ns: nat, nc: nat) returns (r: Result<array3<real>>)
    requires forall i | 0 <= i < |loads| :: loads[i].Ok? ==> |loads[i].value.rows| == ns && loads[i].value.cols == nc
    ensures r.Ok? ==> (fresh(r.value) &&
      r.value.Length0 == |loads| && r.value.Length1 == ns && r.value.Length2 == nc)
    ensures r.Ok? <==> forall i | 0 <= i < |loads| :: !Fatal(loads[i])
    ensures r.Err? ==> exists i | 0 <= i < |loads| ::
      Fatal(loads[i]) && loads[i].error == r.error &&
      forall j | 0 <= j < i :: !Fatal(loads[j])
    ensures r.Ok? ==> forall i, a, b | 0 <= i < |loads| && 0 <= a < ns && 0 <= b < nc && loads[i].Ok? ::
      r.value[i, a, b] == loads[i].value.rows[a][b]
  {
    var n := |loads|;
    var w := new real[n, ns, nc];
    for i := 0 to n
      invariant forall j | 0 <= j < i :: !Fatal(loads[j])
      invariant forall j, a, b | 0 <= j < i && 0 <= a < ns && 0 <= b < nc && loads[j].Ok? ::
        w[j, a, b] == loads[j].value.rows[a][b]
    {
      if loads[i].Ok? {
        Store(w, i, loads[i].value);
      } else if !loads[i].error.InvalidTime? {
        return Err(loads[i].error);
      }
    }
    r := Ok(w);
  }

  /** `waveforms[i, ...] = m`: one window written into slot i of a batch. */
  method Store(w: array3<real>, i: nat, m: Matrix)
    requires i < w.Length0 && |m.rows| == w.Length1 && m.cols == w.Length2
    modifies w
    ensures forall j, a, b | 0 <= j < w.Length0 && 0 <= a < w.Length1 && 0 <= b < w.Length2 ::
      w[j, a, b] == if j == i then m.rows[a][b] else old(w[j, a, b])
  {
    forall a, b | 0 <= a < w.Length1 && 0 <= b < w.Length2 {
      w[i, a, b] := m.rows[a][b];
    }
  }

  // ---------------------------------------------------------------------------
  // The waveform loader
  // ---------------------------------------------------------------------------

  class WaveformLoader {
    var nSamplesTrace: int
    var nChannelsTraces: Option<nat>
    var traces: Option<Matrix>
    const scaleFactor: Option<real>
    const dcOffset: Option<real>
    const offset: int
    var channels: Option<seq<int>>
    const filter: Option<Matrix -> Matrix>
    const nSamplesBeforeAfter: (nat, nat)
    const nSamplesWaveforms: nat
    const filterMargin: (nat, nat)
    const nSamplesExtract: nat

    /** The trace fields agree with the trace, the sizes with their parts. */
    ghost predicate Valid()
      reads this
    {
      nSamplesWaveforms == nSamplesBeforeAfter.0 + nSamplesBeforeAfter.1 &&
      nSamplesExtract == nSamplesWaveforms + filterMargin.0 + filterMargin.1 &&
      (traces.None? ==> nSamplesTrace == 0 && nChannelsTraces.None?) &&
      (traces.Some? ==> nSamplesTrace == |traces.value.rows| && nChannelsTraces == Some(traces.value.cols))
    }

    constructor(traces: Option<Matrix>, offset: int, filter: Option<Matrix -> Matrix>,
                filterMargin: (nat, nat), nSamples: (nat, nat), channels: Option<seq<int>>,
                scaleFactor: Option<real>, dcOffset: Option<real>)
      ensures Valid()
      ensures this.traces == traces && this.offset == offset && this.filter == filter
      ensures this.channels == channels && this.scaleFactor == scaleFactor && this.dcOffset == dcOffset
      ensures nSamplesBeforeAfter == nSamples && this.filterMargin == filterMargin
    {
      this.traces := traces;
      if traces.Some? {
        nSamplesTrace, nChannelsTraces := |traces.value.rows|, Some(traces.value.cols);
      } else {
        nSamplesTrace, nChannelsTraces := 0, None;
      }
      this.scaleFactor := scaleFactor;
      this.dcOffset := dcOffset;
      this.offset := offset;
      this.channels := channels;
      this.filter := filter;
      nSamplesBeforeAfter := nSamples;
      nSamplesWaveforms := nSamples.0 + nSamples.1;
      this.filterMargin := filterMargin;
      nSamplesExtract := nSamples.0 + nSamples.1 + filterMargin.0 + filterMargin.1;
    }

    /** `__init__`, which raises when `n_samples` is missing and when either
        sample count is not a valid (before, after) split. */
    static method Create(traces: Option<Matrix>, offset: int, filter: Option<Matrix -> Matrix>,
                         filterMargin: Span, nSamples: Option<Span>, channels: Option<seq<int>>,
                         scaleFactor: Option<real>, dcOffset: Option<real>)
      returns (r: Result<WaveformLoader>)
      ensures nSamples.None? ==> r == Err(SamplesNotSpecified)
      ensures nSamples.Some? ==>
        (r.Err? <==> BeforeAfter(nSamples.value).Err? || BeforeAfter(filterMargin).Err?)
      ensures nSamples.Some? && r.Err? ==> r.error == AssertionError
      ensures r.Ok? ==> (fresh(r.value) && r.value.Valid() && nSamples.Some? &&
        r.value.nSamplesBeforeAfter == BeforeAfter(nSamples.value).value &&
        r.value.filterMargin == BeforeAfter(filterMargin).value &&
        r.value.traces == traces && r.value.offset == offset && r.value.filter == filter &&
        r.value.channels == channels && r.value.scaleFactor == scaleFactor && r.value.dcOffset == dcOffset)
    {
      if nSamples.None? {
        return Err(SamplesNotSpecified);
      }
      var ba := BeforeAfter(nSamples.value);
      if ba.Err? {
        return Err(ba.error);
      }
      var fm := BeforeAfter(filterMargin);
      if fm.Err? {
        return Err(fm.error);
      }
      var loader := new WaveformLoader(traces, offset, filter, fm.value, ba.value, channels, scaleFactor, dcOffset);
      r := Ok(loader);
    }

    /** The `traces` setter. */
    method SetTraces(value: Matrix)
      requires Valid()
      modifies this
      ensures Valid()
      ensures traces == Some(value) && nSamplesTrace == |value.rows| && nChannelsTraces == Some(value.cols)
      ensures channels == old(channels)
    {
      nSamplesTrace, nChannelsTraces := |value.rows|, Some(value.cols);
      traces := Some(value);
    }

    /** The `channels` setter. */
    method SetChannels(value: Option<seq<int>>)
      requires Valid()
      modifies this
      ensures Valid() && channels == value
      ensures traces == old(traces) && nSamplesTrace == old(nSamplesTrace) && nChannelsTraces == old(nChannelsTraces)
    {
      channels := value;
    }

    /** `n_channels_waveforms`: the subset's size, else the trace's channel
        count, which does not exist before a trace is set. */
    function NChannelsWaveforms(): (r: Result<nat>)
      reads this
      requires Valid()
      ensures r.Err? <==> channels.None? && traces.None?
      ensures r.Err? ==> r.error == AttributeError
      ensures r.Ok? ==> r.value == if channels.Some? then |channels.value| else traces.value.cols
    {
      if channels.Some? then Ok(|channels.value|)
      else if nChannelsTraces.Some? then Ok(nChannelsTraces.value)
      else Err(AttributeError)
    }

    /** The settings `_load_at` reads, as they stand. */
    function Snapshot(): (s: Setup)
      reads this
      requires Valid()
      ensures s.NSamplesTrace() == nSamplesTrace
      ensures s.traces == traces && s.offset == offset && s.filter == filter && s.channels == channels
      ensures s.nSamples == nSamplesBeforeAfter && s.margin == filterMargin
    {
      Setup(traces, offset, filter, nSamplesBeforeAfter, filterMargin, channels)
    }

    /** What the batch load applies to every loaded value: the DC offset is
        subtracted and the scale factor multiplied in, each only when it is
        set and non-zero. */
    function Adjust(x: real): (y: real) {
      var y := if dcOffset.Some? && dcOffset.value != 0.0 then x - dcOffset.value else x;
      if scaleFactor.Some? && scaleFactor.value != 0.0 then y * scaleFactor.value else y
    }

    /** What `__getitem__` promises for an index and its outcome. A slice is
        refused; the output has one slot per requested time; an empty trace
        gives zeros; an invalid time leaves its slot unwritten (its contents
        unspecified, as `np.empty` leaves them) without aborting the batch;
        any other failure of a load aborts it with that load's error; every
        loaded slot holds the adjusted window. */
    ghost predicate Loaded(item: Index, r: Result<array3<real>>)
      reads this, if r.Ok? then {r.value} else {}
      requires Valid()
    {
      if item.SliceIndex? then r == Err(NotImplementedError)
      else if NChannelsWaveforms().Err? then r == Err(AttributeError)
      else
        var ts := Requested(item);
        var nc := NChannelsWaveforms().value;
        var s := Snapshot();
        (r.Ok? ==> r.value.Length0 == |ts| && r.value.Length1 == nSamplesWaveforms && r.value.Length2 == nc) &&
        if nSamplesTrace == 0 then
          r.Ok? &&
          forall i, a, b | 0 <= i < |ts| && 0 <= a < nSamplesWaveforms && 0 <= b < nc :: r.value[i, a, b] == 0.0
        else
          (r.Ok? <==> forall i | 0 <= i < |ts| :: !Fatal(Load(s, ts[i]))) &&
          (r.Err? ==> exists i | 0 <= i < |ts| ::
             Fatal(Load(s, ts[i])) && Load(s, ts[i]).error == r.error &&
             forall j | 0 <= j < i :: !Fatal(Load(s, ts[j]))) &&
          (r.Ok? ==> forall i, a, b | 0 <= i < |ts| && 0 <= a < nSamplesWaveforms && 0 <= b < nc &&
                       Load(s, ts[i]).Ok? ::
             r.value[i, a, b] == Adjust(Load(s, ts[i]).value.rows[a][b]))
    }

    /** The DC offset and the scale factor applied in place to a batch. */
    method AdjustAll(w: array3<real>)
      modifies w
      ensures forall i, a, b | 0 <= i < w.Length0 && 0 <= a < w.Length1 && 0 <= b < w.Length2 ::
        w[i, a, b] == Adjust(old(w[i, a, b]))
    {
      if dcOffset.Some? && dcOffset.value != 0.0 {
        forall i, a, b | 0 <= i < w.Length0 && 0 <= a < w.Length1 && 0 <= b < w.Length2 {
          w[i, a, b] := w[i, a, b] - dcOffset.value;
        }
      }
      if scaleFactor.Some? && scaleFactor.value != 0.0 {
        forall i, a, b | 0 <= i < w.Length0 && 0 <= a < w.Length1 && 0 <= b < w.Length2 {
          w[i, a, b] := w[i, a, b] * scaleFactor.value;
        }
      }
    }

    /** `__getitem__`: the batch of windows at the requested times. */
    method GetItem(item: Index) returns (r: Result<array3<real>>)
      requires Valid()
      ensures r.Ok? ==> fresh(r.value)
      ensures Loaded(item, r)
    {
      if item.SliceIndex? {
        return Err(NotImplementedError);
      }
      var ncw := NChannelsWaveforms();
      if ncw.Err? {
        return Err(ncw.error);
      }
      var ts := Requested(item);
      if nSamplesTrace == 0 {
        var zeros := new real[|ts|, nSamplesWaveforms, ncw.value]((i, a, b) => 0.0);
        return Ok(zeros);
      }
      var setup := Snapshot();
      var loads := seq(|ts|, i requires 0 <= i < |ts| => Load(setup, ts[i]));
      forall i | 0 <= i < |loads| && loads[i].Ok?
        ensures |loads[i].value.rows| == nSamplesWaveforms && loads[i].value.cols == ncw.value
      {
        assert loads[i] == Load(setup, ts[i]);
      }
      r := LoadAll(loads, nSamplesWaveforms, ncw.value);
      if r.Ok? {
        AdjustAll(r.value);
      }
      assert Snapshot() == setup;
      assert forall i | 0 <= i < |ts| :: loads[i] == Load(Snapshot(), ts[i]);
    }
  }

  // ---------------------------------------------------------------------------
  // The spike loader
  // ---------------------------------------------------------------------------

  /** What a spike loader is indexed with: one spike id, a list of ids, or a
      slice `start:stop` of ids (unit step). */
  datatype SpikeIndex = Spike(id: int) | Spikes(ids: seq<int>) | IdRange(start: int, stop: int)

  class SpikeLoader {
    const spikeSamples: seq<int>
    const waveforms: WaveformLoader
    const shape: (nat, nat, nat)

    /** `__init__`: the shape is taken from the loader at construction. */
    constructor(waveforms: WaveformLoader, spikeSamples: seq<int>)
      requires waveforms.Valid() && waveforms.NChannelsWaveforms().Ok?
      ensures this.waveforms == waveforms && this.spikeSamples == spikeSamples
      ensures shape == (|spikeSamples|, waveforms.nSamplesWaveforms, waveforms.NChannelsWaveforms().value)
    {
      this.spikeSamples := spikeSamples;
      this.waveforms := waveforms;
      shape := (|spikeSamples|, waveforms.nSamplesWaveforms, waveforms.NChannelsWaveforms().value);
    }

    /** `__init__` as a whole: computing the shape reads the waveform loader's
        channel count, which raises AttributeError when neither traces nor a
        channel subset are set. */
    static method Create(waveforms: WaveformLoader, spikeSamples: seq<int>) returns (r: Result<SpikeLoader>)
      requires waveforms.Valid()
      ensures r.Err? <==> waveforms.NChannelsWaveforms().Err?
      ensures r.Err? ==> r.error == AttributeError
      ensures r.Ok? ==> (fresh(r.value) && r.value.waveforms == waveforms &&
        r.value.spikeSamples == spikeSamples &&
        r.value.shape == (|spikeSamples|, waveforms.nSamplesWaveforms, waveforms.NChannelsWaveforms().value))
    {
      var ncw := waveforms.NChannelsWaveforms();
      if ncw.Err? {
        return Err(ncw.error);
      }
      var loader := new SpikeLoader(waveforms, spikeSamples);
      return Ok(loader);
    }

    /** `self._spike_samples[item]`: the loader index standing for the
        spike ids' times; an id outside the table raises IndexError. */
    function Lookup(item: SpikeIndex): (r: Result<Index>)
      ensures r.Err? <==>
        (item.Spike? && !InAxis(item.id, |spikeSamples|)) || (item.Spikes? && !AllInAxis(item.ids, |spikeSamples|))
      ensures r.Err? ==> r.error == IndexError
      ensures r.Ok? && item.Spike? ==> r.value == At(spikeSamples[Wrap(item.id, |spikeSamples|)])
      ensures r.Ok? && item.Spikes? ==> (r.value.Times? && |r.value.times| == |item.ids| &&
        forall k | 0 <= k < |item.ids| :: r.value.times[k] == spikeSamples[Wrap(item.ids[k], |spikeSamples|)])
      ensures item.IdRange? ==> r == Ok(Times(PySlice(spikeSamples, item.start, item.stop)))
    {
      var n := |spikeSamples|;
      match item
      case Spike(id) => if InAxis(id, n) then Ok(At(spikeSamples[Wrap(id, n)])) else Err(IndexError)
      case Spikes(ids) =>
        if AllInAxis(ids, n) then Ok(Times(seq(|ids|, k requires 0 <= k < |ids| => spikeSamples[Wrap(ids[k], n)])))
        else Err(IndexError)
      case IdRange(start, stop) => Ok(Times(PySlice(spikeSamples, start, stop)))
    }

    /** `__len__`: the number of spikes, so that indexing accepts exactly the
        ids in [-len, len). */
    function Len(): (n: nat)
      ensures forall id :: Lookup(Spike(id)).Ok? <==> -(n as int) <= id < n
    {
      |spikeSamples|
    }

    /** `__getitem__`: the waveform loader applied to the looked-up times, so
        a list of ids gives one slot per id. */
    method GetItem(item: SpikeIndex) returns (r: Result<array3<real>>)
      requires waveforms.Valid()
      ensures Lookup(item).Err? ==> r == Err(IndexError)
      ensures Lookup(item).Ok? ==> waveforms.Loaded(Lookup(item).value, r)
      ensures r.Ok? ==> fresh(r.value)
      ensures r.Ok? && item.Spikes? ==> r.value.Length0 == |item.ids|
      ensures r.Ok? && item.Spike? ==> r.value.Length0 == 1
      ensures r.Ok? && item.IdRange? ==> r.value.Length0 == |PySlice(spikeSamples, item.start, item.stop)|
    {
      var times := Lookup(item);
      if times.Err? {
        return Err(times.error);
      }
      r := waveforms.GetItem(times.value);
    }
  }
}
