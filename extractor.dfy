/** Waveform extraction from one connected component of threshold crossings:
    the component's channel group and time window, its sparse wave, the soft
    channel masks, and the raw window around the aligned spike time. */
module Extractor {
  import opened Outcomes
  import opened Arrays

  // ---------------------------------------------------------------------------
  // Zero-padded sub-range
  // ---------------------------------------------------------------------------

  /** `_get_padded`: rows [start, end) of `data`, zero-filled where the range
      leaves the array. It raises when start < 0 and end >= the row count;
      `end == len` raises too. */
  function GetPadded(data: Matrix, start: int, end: int): (r: Result<Matrix>)
    ensures r.Err? <==> start < 0 && end >= |data.rows|
    ensures r.Err? ==> r.error == RuntimeError
    ensures r.Ok? ==> r.value.cols == data.cols
  {
    var n := |data.rows|;
    if start < 0 && end >= n then Err(RuntimeError)
    else if start < 0 then Ok(Stack(Zeros(-start, data.cols), SliceRows(data, 0, end)))
    else if end > n then Ok(Stack(SliceRows(data, start, n), Zeros(end - n, data.cols)))
    else Ok(SliceRows(data, start, end))
  }

  /** With a negative end and a negative start, `data[:end]` counts from the
      array's end: on ten rows, [-5, -2) gives 5 zero rows and 8 data rows,
      13 in all rather than 3. */
  lemma NegativeEndOverCounts()
    ensures GetPadded(Zeros(10, 1), -5, -2).Ok?
    ensures |GetPadded(Zeros(10, 1), -5, -2).value.rows| == 13
  {
    assert |SliceRows(Zeros(10, 1), 0, -2).rows| == 8;
  }

  /** With a start past the array, the right padding is sized from the
      array's end: on three rows, [5, 7) gives 4 zero rows rather than 2. */
  lemma StartPastEndOverCounts()
    ensures GetPadded(Zeros(3, 1), 5, 7).Ok?
    ensures |GetPadded(Zeros(3, 1), 5, 7).value.rows| == 4
  {
    assert |SliceRows(Zeros(3, 1), 5, 3).rows| == 0;
  }

  /** When the range leaves the array on one side only, its end is not
      negative and its start not past the array, the padded block is exactly the reference window:
      end - start rows, row i being data[start + i] or a zero row. */
  lemma GetPaddedIsWindow(data: Matrix, start: int, end: int)
    requires !(start < 0 && end >= |data.rows|)
    requires 0 <= end
    requires end > |data.rows| ==> start <= |data.rows|
    ensures GetPadded(data, start, end) == Ok(PaddedWindow(data, start, end))
  {
    var n := |data.rows|;
    var r := GetPadded(data, start, end).value;
    var w := PaddedWindow(data, start, end);
    if start < 0 {
      assert |SliceRows(data, 0, end).rows| == end;
    } else if end > n {
      assert |SliceRows(data, start, n).rows| == n - start;
    } else {
      assert |SliceRows(data, start, end).rows| == if start < end then end - start else 0;
    }
    assert |r.rows| == |w.rows|;
    forall k | 0 <= k < |w.rows| ensures r.rows[k] == w.rows[k] {
      if start < 0 && k < -start {
        assert r.rows[k] == ZeroRow(data.cols);
      } else if start >= 0 && end > |data.rows| && start + k >= |data.rows| {
        assert r.rows[k] == Zeros(end - |data.rows|, data.cols).rows[start + k - |data.rows|];
      }
    }
    assert r.rows == w.rows;
  }

  // ---------------------------------------------------------------------------
  // Channel-group topology
  // ---------------------------------------------------------------------------

  /** `channels_per_group`: the (group, member channels) items, in the
      dictionary's iteration order. */
  type Topology = seq<(int, seq<int>)>

  /** A channel is live when some group lists it; any other channel is dead. */
  predicate Live(groups: Topology, ch: int) {
    exists g | 0 <= g < |groups| :: ch in groups[g].1
  }

  /** No channel is listed by two groups. */
  predicate Disjoint(groups: Topology) {
    forall g, h, ch | 0 <= g < h < |groups| && ch in groups[g].1 :: ch !in groups[h].1
  }

  lemma LiveSplit(groups: Topology, ch: int)
    requires groups != []
    ensures Live(groups, ch) <==>
      Live(groups[..|groups| - 1], ch) || ch in groups[|groups| - 1].1
  {
    var pre := groups[..|groups| - 1];
    if Live(groups, ch) && ch !in groups[|groups| - 1].1 {
      var g :| 0 <= g < |groups| && ch in groups[g].1;
      assert pre[g] == groups[g];
    }
    if Live(pre, ch) {
      var g :| 0 <= g < |pre| && ch in pre[g].1;
      assert groups[g] == pre[g];
    }
  }

  /** `_dep_channels`: each live channel mapped to its group's member list; as
      in the dictionary comprehension, a later group overrides an earlier one. */
  function DepChannels(groups: Topology): (m: map<int, seq<int>>)
    ensures forall ch :: ch in m <==> Live(groups, ch)
  {
    if groups == [] then map[]
    else
      var last := groups[|groups| - 1];
      var m := DepChannels(groups[..|groups| - 1]) + map ch | ch in last.1 :: last.1;
      assert forall ch :: ch in m <==> Live(groups, ch) by {
        forall ch ensures ch in m <==> Live(groups, ch) { LiveSplit(groups, ch); }
      }
      m
  }

  /** `_channel_groups`: each live channel mapped to its group id, a later
      group overriding an earlier one. */
  function ChannelGroups(groups: Topology): (m: map<int, int>)
    ensures forall ch :: ch in m <==> Live(groups, ch)
  {
    if groups == [] then map[]
    else
      var last := groups[|groups| - 1];
      var m := ChannelGroups(groups[..|groups| - 1]) + map ch | ch in last.1 :: last.0;
      assert forall ch :: ch in m <==> Live(groups, ch) by {
        forall ch ensures ch in m <==> Live(groups, ch) { LiveSplit(groups, ch); }
      }
      m
  }

  /** The last group listing a live channel. */
  function LastGroup(groups: Topology, ch: int): (g: nat)
    requires Live(groups, ch)
    ensures g < |groups| && ch in groups[g].1
    ensures forall h | g < h < |groups| :: ch !in groups[h].1
  {
    var n := |groups|;
    if ch in groups[n - 1].1 then n - 1
    else
      LiveSplit(groups, ch);
      var g := LastGroup(groups[..n - 1], ch);
      assert groups[g] == groups[..n - 1][g];
      assert forall h | g < h < n - 1 :: groups[h] == groups[..n - 1][h];
      g
  }

  /** Both maps resolve a live channel through the last group listing it. */
  lemma {:induction false} LastGroupWins(groups: Topology, ch: int)
    requires Live(groups, ch)
    ensures DepChannels(groups)[ch] == groups[LastGroup(groups, ch)].1
    ensures ChannelGroups(groups)[ch] == groups[LastGroup(groups, ch)].0
  {
    var n := |groups|;
    if ch !in groups[n - 1].1 {
      var pre := groups[..n - 1];
      LiveSplit(groups, ch);
      LastGroupWins(pre, ch);
      assert LastGroup(groups, ch) == LastGroup(pre, ch);
      assert groups[LastGroup(pre, ch)] == pre[LastGroup(pre, ch)];
    }
  }

  /** With the groups disjoint, a member channel of group g resolves to g. */
  lemma ChannelLookup(groups: Topology, g: nat, ch: int)
    requires Disjoint(groups) && g < |groups| && ch in groups[g].1
    ensures DepChannels(groups)[ch] == groups[g].1 && ChannelGroups(groups)[ch] == groups[g].0
  {
    assert Live(groups, ch);
    LastGroupWins(groups, ch);
    assert LastGroup(groups, ch) == g;
  }

  // ---------------------------------------------------------------------------
  // Component and its window
  // ---------------------------------------------------------------------------

  /** The record `_component` returns. */
  datatype Comp = Comp(compS: seq<int>, compCh: seq<int>, sMin: int, sMax: int,
                       channels: seq<int>, group: int)

  /** Samples added before the earliest and after the latest component sample. */
  const MarginBefore: int := 3
  const MarginAfter: int := 4

  function Samples(component: seq<(int, int)>): (s: seq<int>)
    ensures |s| == |component| && forall k | 0 <= k < |s| :: s[k] == component[k].0
  {
    seq(|component|, k requires 0 <= k < |component| => component[k].0)
  }

  function Chans(component: seq<(int, int)>): (c: seq<int>)
    ensures |c| == |component| && forall k | 0 <= k < |c| :: c[k] == component[k].1
  {
    seq(|component|, k requires 0 <= k < |component| => component[k].1)
  }

  function SeqMin(s: seq<int>): (m: int)
    requires s != []
    ensures m in s && forall x | x in s :: m <= x
  {
    if |s| == 1 then s[0]
    else
      var t := SeqMin(s[1..]);
      assert forall x | x in s :: x == s[0] || x in s[1..];
      if s[0] <= t then s[0] else t
  }

  function SeqMax(s: seq<int>): (m: int)
    requires s != []
    ensures m in s && forall x | x in s :: x <= m
  {
    if |s| == 1 then s[0]
    else
      var t := SeqMax(s[1..]);
      assert forall x | x in s :: x == s[0] || x in s[1..];
      if s[0] >= t then s[0] else t
  }

  function Max(a: int, b: int): (m: int) { if a >= b then a else b }
  function Min(a: int, b: int): (m: int) { if a <= b then a else b }

  /** The component's points lie inside a trace of nRows samples and nc channels. */
  predicate PointsWithin(component: seq<(int, int)>, nRows: nat, nc: nat) {
    forall k | 0 <= k < |component| :: 0 <= component[k].0 < nRows && 0 <= component[k].1 < nc
  }

  /** A resolved component whose points lie in its window and in the trace. */
  predicate Fits(comp: Comp, nRows: nat, nc: nat) {
    |comp.compS| == |comp.compCh| && 0 <= comp.sMin < comp.sMax <= nRows &&
    forall k | 0 <= k < |comp.compS| ::
      comp.sMin <= comp.compS[k] < comp.sMax && 0 <= comp.compCh[k] < nc
  }

  /** Some point among the first k of the component is (s, ch). */
  predicate HitIn(comp: Comp, k: nat, s: int, ch: int)
    requires k <= |comp.compS| == |comp.compCh|
  {
    exists p | 0 <= p < k :: comp.compS[p] == s && comp.compCh[p] == ch
  }

  predicate Hit(comp: Comp, s: int, ch: int)
    requires |comp.compS| == |comp.compCh|
  {
    HitIn(comp, |comp.compS|, s, ch)
  }

  /** Some point of the component lies on channel ch. */
  predicate Touched(comp: Comp, ch: int) {
    exists p | 0 <= p < |comp.compCh| :: comp.compCh[p] == ch
  }

  // ---------------------------------------------------------------------------
  // Soft masks: normalisation and peaks
  // ---------------------------------------------------------------------------

  /** `np.clip(v, lo, hi)`. */
  function Clip(v: real, lo: real, hi: real): (c: real) {
    if v < lo then lo else if v > hi then hi else v
  }

  /** `_normalize`: (x - weak) / (strong - weak) clipped to [0, 1]. */
  function Normalize(weak: real, strong: real, x: real): (y: real)
    requires weak != strong
    ensures 0.0 <= y <= 1.0
    ensures weak < strong && x <= weak ==> y == 0.0
    ensures weak < strong && x >= strong ==> y == 1.0
  {
    var v := (x - weak) / (strong - weak);
    assert weak < strong && x >= strong ==> v >= 1.0 by {
      if weak < strong && x >= strong {
        DivAtLeastOne(x - weak, strong - weak);
      }
    }
    assert weak < strong && x <= weak ==> v <= 0.0 by {
      if weak < strong && x <= weak {
        DivMono(x - weak, 0.0, strong - weak);
      }
    }
    Clip(v, 0.0, 1.0)
  }

  /** A larger amplitude never gets a smaller mask, when strong > weak. */
  lemma NormalizeMonotonic(weak: real, strong: real, x: real, x': real)
    requires weak < strong && x <= x'
    ensures Normalize(weak, strong, x) <= Normalize(weak, strong, x')
  {
    DivMono(x - weak, x' - weak, strong - weak);
  }

  lemma DivAtLeastOne(a: real, d: real)
    requires d > 0.0 && a >= d
    ensures a / d >= 1.0
  {
    var q := a / d;
    assert q * d == a;
  }

  lemma DivMono(a: real, b: real, d: real)
    requires d > 0.0 && a <= b
    ensures a / d <= b / d
  {
    var p, q := a / d, b / d;
    assert p * d == a && q * d == b;
  }

  /** The first row among the first n holding the largest value of column j,
      as `np.argmax(wave, axis=0)` picks it. */
  function ColumnArgMax(wave: array2<real>, j: nat, n: nat): (r: nat)
    reads wave
    requires 0 < n <= wave.Length0 && j < wave.Length1
    ensures r < n
    ensures forall i | 0 <= i < n :: wave[i, j] <= wave[r, j]
    ensures forall i | 0 <= i < r :: wave[i, j] < wave[r, j]
  {
    if n == 1 then 0
    else
      var r := ColumnArgMax(wave, j, n - 1);
      if wave[n - 1, j] > wave[r, j] then n - 1 else r
  }

  /** Row i of column j of wave holds the column's largest value. */
  ghost predicate ColumnTop(wave: array2<real>, j: nat, i: nat)
    reads wave
    requires j < wave.Length1 && i < wave.Length0
  {
    forall k | 0 <= k < wave.Length0 :: wave[k, j] <= wave[i, j]
  }

  /** The peak value `masks` uses on channel j: the trace value at the
      column's argmax, multiplied by the binary mask (zero when untouched). */
  function PeakAmplitude(dataT: Matrix, wave: array2<real>, comp: Comp, j: nat): (v: real)
    reads wave
    requires Fits(comp, |dataT.rows|, dataT.cols)
    requires wave.Length0 == comp.sMax - comp.sMin && wave.Length1 == dataT.cols
    requires j < dataT.cols
    ensures !Touched(comp, j) ==> v == 0.0
    ensures Touched(comp, j) ==> exists i | 0 <= i < wave.Length0 ::
      v == dataT.rows[comp.sMin + i][j] && ColumnTop(wave, j, i)
  {
    if Touched(comp, j) then
      var r := ColumnArgMax(wave, j, wave.Length0);
      assert ColumnTop(wave, j, r);
      dataT.rows[comp.sMin + r][j]
    else 0.0
  }

  /** The value `_comp_wave` leaves in row i (counted from sMin) of column j:
      the trace value when (sMin + i, j) is a component point, else zero. */
  function SparseAt(dataT: Matrix, comp: Comp, i: nat, j: nat): (v: real)
    requires Fits(comp, |dataT.rows|, dataT.cols) && i < comp.sMax - comp.sMin && j < dataT.cols
  {
    if Hit(comp, comp.sMin + i, j) then dataT.rows[comp.sMin + i][j] else 0.0
  }

  /** `wave` holds what `_comp_wave` writes: the trace value at every
      component point (relative to sMin), zero everywhere else. */
  ghost predicate IsSparseWave(wave: array2<real>, dataT: Matrix, comp: Comp)
    reads wave
    requires Fits(comp, |dataT.rows|, dataT.cols)
  {
    wave.Length0 == comp.sMax - comp.sMin && wave.Length1 == dataT.cols &&
    forall i, j | 0 <= i < wave.Length0 && 0 <= j < wave.Length1 ::
      wave[i, j] == SparseAt(dataT, comp, i, j)
  }

  /** The largest amplitude of the first k component points on channel ch, or
      zero when none of them is positive. */
  function PositiveMax(dataT: Matrix, comp: Comp, ch: nat, k: nat): (m: real)
    requires Fits(comp, |dataT.rows|, dataT.cols) && ch < dataT.cols && k <= |comp.compS|
    ensures m >= 0.0
    ensures forall p | 0 <= p < k && comp.compCh[p] == ch :: dataT.rows[comp.compS[p]][ch] <= m
    ensures m > 0.0 ==> exists p | 0 <= p < k && comp.compCh[p] == ch :: dataT.rows[comp.compS[p]][ch] == m
  {
    if k == 0 then 0.0
    else
      var m := PositiveMax(dataT, comp, ch, k - 1);
      var a := if comp.compCh[k - 1] == ch then dataT.rows[comp.compS[k - 1]][ch] else 0.0;
      if a > m then a else m
  }

  /** A cell of the sparse wave holding a non-zero value is a component
      point, returned as q, and holds the trace value there. */
  lemma SparseCell(wave: array2<real>, dataT: Matrix, comp: Comp, i: nat, j: nat) returns (q: nat)
    requires Fits(comp, |dataT.rows|, dataT.cols)
    requires IsSparseWave(wave, dataT, comp)
    requires i < wave.Length0 && j < wave.Length1 && wave[i, j] != 0.0
    ensures q < |comp.compS| && comp.compS[q] == comp.sMin + i && comp.compCh[q] == j
    ensures wave[i, j] == dataT.rows[comp.sMin + i][j]
  {
    q :| 0 <= q < |comp.compS| && comp.compS[q] == comp.sMin + i && comp.compCh[q] == j;
  }

  /** No cell of channel ch on the sparse wave exceeds the channel's largest
      positive component amplitude. */
  lemma SparseBound(wave: array2<real>, dataT: Matrix, comp: Comp, ch: nat, i: nat)
    requires Fits(comp, |dataT.rows|, dataT.cols) && ch < dataT.cols
    requires IsSparseWave(wave, dataT, comp)
    requires i < wave.Length0
    ensures wave[i, ch] <= PositiveMax(dataT, comp, ch, |comp.compS|)
  {
    if wave[i, ch] != 0.0 {
      var q := SparseCell(wave, dataT, comp, i, ch);
      assert dataT.rows[comp.compS[q]][ch] <= PositiveMax(dataT, comp, ch, |comp.compS|);
    }
  }

  /** The sparse wave holds the trace value at each component point. */
  lemma SparseAtPoint(wave: array2<real>, dataT: Matrix, comp: Comp, p: nat)
    requires Fits(comp, |dataT.rows|, dataT.cols)
    requires IsSparseWave(wave, dataT, comp)
    requires p < |comp.compS|
    ensures wave[comp.compS[p] - comp.sMin, comp.compCh[p]] == dataT.rows[comp.compS[p]][comp.compCh[p]]
  {
    assert HitIn(comp, |comp.compS|, comp.compS[p], comp.compCh[p]);
  }

  /** The argmax cell of a channel with a positive component amplitude holds
      the channel's largest component amplitude. */
  lemma SparseColumnMax(wave: array2<real>, dataT: Matrix, comp: Comp, ch: nat)
    requires Fits(comp, |dataT.rows|, dataT.cols) && ch < dataT.cols
    requires IsSparseWave(wave, dataT, comp)
    requires PositiveMax(dataT, comp, ch, |comp.compS|) > 0.0
    ensures wave[ColumnArgMax(wave, ch, wave.Length0), ch] == PositiveMax(dataT, comp, ch, |comp.compS|)
  {
    var m := PositiveMax(dataT, comp, ch, |comp.compS|);
    var p :| 0 <= p < |comp.compS| && comp.compCh[p] == ch && dataT.rows[comp.compS[p]][ch] == m;
    SparseAtPoint(wave, dataT, comp, p);
    var r := ColumnArgMax(wave, ch, wave.Length0);
    assert wave[r, ch] >= wave[comp.compS[p] - comp.sMin, ch];
    SparseBound(wave, dataT, comp, ch, r);
  }

  /** On the sparse wave, a channel whose component amplitudes include a
      positive one peaks at its largest component amplitude. */
  lemma SparsePeak(wave: array2<real>, dataT: Matrix, comp: Comp, ch: nat)
    requires Fits(comp, |dataT.rows|, dataT.cols) && ch < dataT.cols
    requires IsSparseWave(wave, dataT, comp)
    requires PositiveMax(dataT, comp, ch, |comp.compS|) > 0.0
    ensures PeakAmplitude(dataT, wave, comp, ch) == PositiveMax(dataT, comp, ch, |comp.compS|)
  {
    var r := ColumnArgMax(wave, ch, wave.Length0);
    SparseColumnMax(wave, dataT, comp, ch);
    var q := SparseCell(wave, dataT, comp, r, ch);
    assert Touched(comp, ch);
  }

  /** Row i of the sparse column j holds the column's largest value. */
  ghost predicate SparseTop(dataT: Matrix, comp: Comp, j: nat, i: nat)
    requires Fits(comp, |dataT.rows|, dataT.cols) && j < dataT.cols && i < comp.sMax - comp.sMin
  {
    forall k | 0 <= k < comp.sMax - comp.sMin :: SparseAt(dataT, comp, k, j) <= SparseAt(dataT, comp, i, j)
  }

  /** The row `np.argmax` picks in column j of the sparse wave, among its
      first n rows: a largest value, and the first one among equals. */
  function SparseArgMax(dataT: Matrix, comp: Comp, j: nat, n: nat): (r: nat)
    requires Fits(comp, |dataT.rows|, dataT.cols) && j < dataT.cols
    requires 0 < n <= comp.sMax - comp.sMin
    ensures r < n
    ensures forall i | 0 <= i < n :: SparseAt(dataT, comp, i, j) <= SparseAt(dataT, comp, r, j)
    ensures forall i | 0 <= i < r :: SparseAt(dataT, comp, i, j) < SparseAt(dataT, comp, r, j)
  {
    if n == 1 then 0
    else
      var r := SparseArgMax(dataT, comp, j, n - 1);
      if SparseAt(dataT, comp, n - 1, j) > SparseAt(dataT, comp, r, j) then n - 1 else r
  }

  /** The peak value `masks` computes on channel j, as a function of the trace
      and the component alone: the trace value at the sparse column's argmax
      row when a component point lies on j, and zero otherwise. */
  function Peak(dataT: Matrix, comp: Comp, j: nat): (v: real)
    requires Fits(comp, |dataT.rows|, dataT.cols) && j < dataT.cols
    ensures !Touched(comp, j) ==> v == 0.0
    ensures Touched(comp, j) ==> exists i | 0 <= i < comp.sMax - comp.sMin ::
      v == dataT.rows[comp.sMin + i][j] && SparseTop(dataT, comp, j, i)
  {
    if Touched(comp, j) then
      var r := SparseArgMax(dataT, comp, j, comp.sMax - comp.sMin);
      assert SparseTop(dataT, comp, j, r);
      dataT.rows[comp.sMin + r][j]
    else 0.0
  }

  /** On the sparse wave, the array's argmax is the sparse column's argmax. */
  lemma ArgMaxOfSparse(wave: array2<real>, dataT: Matrix, comp: Comp, j: nat)
    requires Fits(comp, |dataT.rows|, dataT.cols) && j < dataT.cols
    requires IsSparseWave(wave, dataT, comp)
    ensures ColumnArgMax(wave, j, wave.Length0) == SparseArgMax(dataT, comp, j, wave.Length0)
  {
    var n := wave.Length0;
    var r1, r2 := ColumnArgMax(wave, j, n), SparseArgMax(dataT, comp, j, n);
    assert forall i | 0 <= i < n :: wave[i, j] == SparseAt(dataT, comp, i, j);
  }

  /** The peak `masks` reads off the sparse wave is the peak of the trace and
      the component. */
  lemma PeakOfSparse(wave: array2<real>, dataT: Matrix, comp: Comp, j: nat)
    requires Fits(comp, |dataT.rows|, dataT.cols) && j < dataT.cols
    requires IsSparseWave(wave, dataT, comp)
    ensures PeakAmplitude(dataT, wave, comp, j) == Peak(dataT, comp, j)
  {
    ArgMaxOfSparse(wave, dataT, comp, j);
  }

  /** What the mask of a member channel ch means: the normalised peak of ch,
      which is normalize(0) when no component point lies on ch, and the
      normalised largest component amplitude on ch when that amplitude is
      positive. */
  predicate MaskMeaning(dataT: Matrix, comp: Comp, ch: int, mask: real, weak: real, strong: real)
    requires weak != strong
  {
    Fits(comp, |dataT.rows|, dataT.cols) && 0 <= ch < dataT.cols &&
    mask == Normalize(weak, strong, Peak(dataT, comp, ch)) &&
    (!Touched(comp, ch) ==> mask == Normalize(weak, strong, 0.0)) &&
    (PositiveMax(dataT, comp, ch, |comp.compS|) > 0.0 ==>
       mask == Normalize(weak, strong, PositiveMax(dataT, comp, ch, |comp.compS|)))
  }

  /** A channel on which some point reaches the strong threshold (strong > 0)
      has mask 1. */
  lemma MaskSaturates(dataT: Matrix, comp: Comp, ch: int, mask: real, weak: real, strong: real, p: nat)
    requires weak < strong && 0.0 < strong
    requires MaskMeaning(dataT, comp, ch, mask, weak, strong)
    requires p < |comp.compS| && comp.compCh[p] == ch && dataT.rows[comp.compS[p]][ch] >= strong
    ensures mask == 1.0
  {
    assert PositiveMax(dataT, comp, ch, |comp.compS|) >= strong;
  }

  /** With 0 <= weak < strong, a channel whose component amplitudes all stay at
      or below weak has mask 0, provided it is untouched or one of them is
      positive. */
  lemma MaskSilent(dataT: Matrix, comp: Comp, ch: int, mask: real, weak: real, strong: real)
    requires 0.0 <= weak < strong
    requires MaskMeaning(dataT, comp, ch, mask, weak, strong)
    requires forall p | 0 <= p < |comp.compS| && comp.compCh[p] == ch :: dataT.rows[comp.compS[p]][ch] <= weak
    requires !Touched(comp, ch) ||
      exists p | 0 <= p < |comp.compS| :: comp.compCh[p] == ch && dataT.rows[comp.compS[p]][ch] > 0.0
    ensures mask == 0.0
  {
    if Touched(comp, ch) {
      var p :| 0 <= p < |comp.compS| && comp.compCh[p] == ch && dataT.rows[comp.compS[p]][ch] > 0.0;
      var m := PositiveMax(dataT, comp, ch, |comp.compS|);
      assert m > 0.0;
      var q :| 0 <= q < |comp.compS| && comp.compCh[q] == ch && dataT.rows[comp.compS[q]][ch] == m;
    }
  }

  /** A one-channel trace of four samples: -1 at sample 0, 100 at sample 1. */
  function NegativeSpikeTrace(): (m: Matrix)
    ensures |m.rows| == 4 && m.cols == 1
  {
    Grid([[-1.0], [100.0], [0.0], [0.0]], 1)
  }

  /** On a touched channel none of whose component amplitudes is positive,
      the peak is read at the first cell holding the sparse column's largest
      value. Unless the channel's component points cover the whole window,
      that is a zero cell, which can be a sample that is no component point.
      Here the one point (0, 0), of
      amplitude -1, resolves to the window [0, 4): the peak is the 100 at
      sample 1, and with thresholds 2 and 10 the channel gets mask 1. */
  lemma NegativeChannelReadsNeighbour()
    ensures var dataT, comp := NegativeSpikeTrace(), Comp([0], [0], 0, 4, [0], 0);
      Fits(comp, 4, 1) && Touched(comp, 0) && dataT.rows[0][0] < 2.0 &&
      Peak(dataT, comp, 0) == 100.0 && Normalize(2.0, 10.0, Peak(dataT, comp, 0)) == 1.0
  {
    var dataT, comp := NegativeSpikeTrace(), Comp([0], [0], 0, 4, [0], 0);
    assert Touched(comp, 0);
    assert Hit(comp, 0, 0);
    assert SparseAt(dataT, comp, 0, 0) == -1.0;
    assert SparseAt(dataT, comp, 1, 0) == 0.0;
    assert SparseAt(dataT, comp, 2, 0) == 0.0;
    assert SparseAt(dataT, comp, 3, 0) == 0.0;
    assert SparseArgMax(dataT, comp, 0, 4) == 1;
  }

  predicate HasThresholds(thresholds: map<string, real>) {
    "weak" in thresholds && "strong" in thresholds
  }

  /** The thresholds, when both are set, are distinct (numpy would divide by zero). */
  predicate DistinctThresholds(thresholds: map<string, real>) {
    HasThresholds(thresholds) ==> thresholds["weak"] != thresholds["strong"]
  }

  /** What `__call__` returns: group, aligned time, waveform and masks. */
  datatype Event = Event(group: int, sAligned: real, waveform: Matrix, masks: seq<real>)

  // ---------------------------------------------------------------------------
  // The extractor
  // ---------------------------------------------------------------------------

  class WaveformExtractor {
    const extractBefore: int
    const extractAfter: int
    const weightPower: real
    var thresholds: map<string, real>
    const channelsPerGroup: Topology
    const depChannels: map<int, seq<int>> := DepChannels(channelsPerGroup)
    const channelGroups: map<int, int> := ChannelGroups(channelsPerGroup)

    /** `__init__`: a missing weight power defaults to 1; the two channel maps
        are derived from the topology. */
    constructor(extractBefore: int, extractAfter: int, weightPower: Option<real>,
                thresholds: map<string, real>, channelsPerGroup: Topology)
      ensures this.extractBefore == extractBefore && this.extractAfter == extractAfter
      ensures this.weightPower == (if weightPower.Some? then weightPower.value else 1.0)
      ensures this.thresholds == thresholds && this.channelsPerGroup == channelsPerGroup
    {
      this.extractBefore := extractBefore;
      this.extractAfter := extractAfter;
      this.weightPower := if weightPower.Some? then weightPower.value else 1.0;
      this.thresholds := thresholds;
      this.channelsPerGroup := channelsPerGroup;
    }

    /** `_component`: the first point's channel decides the member channels and
        the group; the window is the component's sample range widened by 3
        before and 4 after, clipped to [0, nSamples), and must not be empty. */
    function Component(component: seq<(int, int)>, nSamples: int): (r: Result<Comp>)
      ensures component == [] ==> r == Err(IndexError)
      ensures component != [] ==>
        (r == Err(DeadChannel(component[0].1)) <==> !Live(channelsPerGroup, component[0].1))
      ensures r == Err(AssertionError) <==> (component != [] && Live(channelsPerGroup, component[0].1) &&
        Max(SeqMin(Samples(component)) - MarginBefore, 0) >= Min(SeqMax(Samples(component)) + MarginAfter, nSamples))
      ensures (component != [] && Live(channelsPerGroup, component[0].1) &&
        Max(SeqMin(Samples(component)) - MarginBefore, 0) < Min(SeqMax(Samples(component)) + MarginAfter, nSamples))
        ==> r.Ok?
      ensures r.Ok? ==> (component != [] && Live(channelsPerGroup, component[0].1) &&
        component[0].1 in depChannels && component[0].1 in channelGroups &&
        r.value.channels == depChannels[component[0].1] &&
        r.value.group == channelGroups[component[0].1] &&
        r.value.compS == Samples(component) && r.value.compCh == Chans(component) &&
        r.value.sMin == Max(SeqMin(Samples(component)) - MarginBefore, 0) &&
        r.value.sMax == Min(SeqMax(Samples(component)) + MarginAfter, nSamples) &&
        r.value.sMin < r.value.sMax)
    {
      if component == [] then Err(IndexError)
      else
        var channel := component[0].1;
        assert channel in depChannels <==> Live(channelsPerGroup, channel);
        assert channel in channelGroups <==> Live(channelsPerGroup, channel);
        if channel !in depChannels then Err(DeadChannel(channel))
        else
          var compS := Samples(component);
          var sMin := Max(SeqMin(compS) - MarginBefore, 0);
          var sMax := Min(SeqMax(compS) + MarginAfter, nSamples);
          assert sMin == Max(SeqMin(Samples(component)) - MarginBefore, 0);
          assert sMax == Min(SeqMax(Samples(component)) + MarginAfter, nSamples);
          if !(sMin < sMax) then Err(AssertionError)
          else Ok(Comp(compS, Chans(component), sMin, sMax, depChannels[channel], channelGroups[channel]))
    }

    /** A component inside the trace on a live channel always resolves: the
        window assertion never fails, every point lies in the window (at least
        3 samples after its start and 4 before its end unless clipped), and
        with disjoint groups the members and the group are those of the group
        listing the first channel. */
    lemma ComponentWindow(component: seq<(int, int)>, nRows: nat, nc: nat)
      requires component != [] && PointsWithin(component, nRows, nc)
      requires Live(channelsPerGroup, component[0].1)
      ensures Component(component, nRows).Ok?
      ensures Fits(Component(component, nRows).value, nRows, nc)
      ensures var c := Component(component, nRows).value;
        forall k | 0 <= k < |component| ::
          (c.sMin == 0 || c.sMin + MarginBefore <= component[k].0) &&
          (c.sMax == nRows || component[k].0 + MarginAfter <= c.sMax)
      ensures forall g | 0 <= g < |channelsPerGroup| && component[0].1 in channelsPerGroup[g].1 ::
        Disjoint(channelsPerGroup) ==>
          Component(component, nRows).value.channels == channelsPerGroup[g].1 &&
          Component(component, nRows).value.group == channelsPerGroup[g].0
    {
      var s := Samples(component);
      assert s[0] in s;
      forall k | 0 <= k < |component| ensures SeqMin(s) <= component[k].0 <= SeqMax(s) {
        assert s[k] in s;
      }
      forall g | 0 <= g < |channelsPerGroup| && component[0].1 in channelsPerGroup[g].1 && Disjoint(channelsPerGroup)
        ensures Component(component, nRows).value.channels == channelsPerGroup[g].1 &&
                Component(component, nRows).value.group == channelsPerGroup[g].0
      {
        ChannelLookup(channelsPerGroup, g, component[0].1);
      }
    }

    /** `_comp_wave`: a zeroed (sMax - sMin) x nc buffer into which every
        component point's trace value is written. */
    method CompWave(dataT: Matrix, comp: Comp) returns (wave: array2<real>)
      requires Fits(comp, |dataT.rows|, dataT.cols)
      ensures fresh(wave)
      ensures IsSparseWave(wave, dataT, comp)
    {
      wave := new real[comp.sMax - comp.sMin, dataT.cols]((i, j) => 0.0);
      for k := 0 to |comp.compS|
        invariant forall i, j | 0 <= i < wave.Length0 && 0 <= j < wave.Length1 ::
          wave[i, j] == if HitIn(comp, k, comp.sMin + i, j) then dataT.rows[comp.sMin + i][j] else 0.0
      {
        wave[comp.compS[k] - comp.sMin, comp.compCh[k]] := dataT.rows[comp.compS[k]][comp.compCh[k]];
      }
    }

    /** `masks`: the binary mask of touched channels, the per-channel argmax of
        the wave, the peak values, normalised and restricted to the group's
        member channels. A missing threshold raises KeyError, a member channel
        outside the trace IndexError. */
    method Masks(dataT: Matrix, wave: array2<real>, comp: Comp) returns (r: Result<seq<real>>)
      requires Fits(comp, |dataT.rows|, dataT.cols)
      requires wave.Length0 == comp.sMax - comp.sMin && wave.Length1 == dataT.cols
      requires DistinctThresholds(thresholds)
      ensures !HasThresholds(thresholds) ==> r == Err(KeyError)
      ensures HasThresholds(thresholds) ==>
        (r.Err? <==> !AllInAxis(comp.channels, dataT.cols)) && (r.Err? ==> r.error == IndexError)
      ensures r.Ok? ==> (HasThresholds(thresholds) && |r.value| == |comp.channels| &&
        forall i | 0 <= i < |comp.channels| ::
          AllInAxis(comp.channels, dataT.cols) &&
          r.value[i] == Normalize(thresholds["weak"], thresholds["strong"],
                                  PeakAmplitude(dataT, wave, comp, Wrap(comp.channels[i], dataT.cols))))
    {
      var nc := dataT.cols;
      var masksBin := new bool[nc](_ => false);
      for k := 0 to |comp.compCh|
        invariant forall j | 0 <= j < nc :: masksBin[j] <==> exists p | 0 <= p < k :: comp.compCh[p] == j
      {
        masksBin[comp.compCh[k]] := true;
      }
      var bin := masksBin[..];
      assert forall j | 0 <= j < nc :: bin[j] <==> Touched(comp, j);
      var peaksValues := seq(nc, j requires 0 <= j < nc reads wave =>
        dataT.rows[comp.sMin + ColumnArgMax(wave, j, wave.Length0)][j] * (if bin[j] then 1.0 else 0.0));
      if !HasThresholds(thresholds) {
        return Err(KeyError);
      }
      var tw, ts := thresholds["weak"], thresholds["strong"];
      var masksFloat := seq(nc, j requires 0 <= j < nc => Normalize(tw, ts, peaksValues[j]));
      assert forall j | 0 <= j < nc :: masksFloat[j] == Normalize(tw, ts, PeakAmplitude(dataT, wave, comp, j));
      r := TakeEntries(masksFloat, comp.channels);
    }

    /** `extract`: rows [s - before - 1, s + after + 2) of the raw trace around
        s = int(sAligned), zero-padded, restricted to the given channels. */
    function Extract(data: Matrix, sAligned: real, channels: seq<int>): (r: Result<Matrix>)
      ensures var s := Trunc(sAligned);
        r.Err? <==> (s - extractBefore - 1 < 0 && s + extractAfter + 2 >= |data.rows|) ||
                    !AllInAxis(channels, data.cols)
      ensures r.Ok? ==> r.value.cols == |channels|
    {
      var s := Trunc(sAligned);
      match GetPadded(data, s - extractBefore - 1, s + extractAfter + 2)
      case Err(e) => Err(e)
      case Ok(w) => TakeColumns(w, channels)
    }

    /** For s = int(sAligned) in [0, the row count], when the window
        [s - before - 1, s + after + 2) does not both start before 0 and end
        at or after the row count, the raw window has before + after + 3
        rows, row i being sample s - before - 1 + i of the named channels, or
        zero outside the trace. */
    lemma ExtractWindow(data: Matrix, sAligned: real, channels: seq<int>)
      requires extractBefore >= 0 && extractAfter >= 0
      requires 0 <= Trunc(sAligned) <= |data.rows|
      requires !(Trunc(sAligned) - extractBefore - 1 < 0 && Trunc(sAligned) + extractAfter + 2 >= |data.rows|)
      requires AllInAxis(channels, data.cols)
      ensures var s := Trunc(sAligned);
        Extract(data, sAligned, channels) ==
          TakeColumns(PaddedWindow(data, s - extractBefore - 1, s + extractAfter + 2), channels)
      ensures |Extract(data, sAligned, channels).value.rows| == extractBefore + extractAfter + 3
    {
      var s := Trunc(sAligned);
      GetPaddedIsWindow(data, s - extractBefore - 1, s + extractAfter + 2);
    }

    /** `set_thresholds`: merge-update of the threshold dictionary. */
    method SetThresholds(kw: map<string, real>)
      modifies this
      ensures thresholds == old(thresholds) + kw
      ensures forall key | key in kw :: thresholds[key] == kw[key]
      ensures forall key | key in old(thresholds) && key !in kw :: thresholds[key] == old(thresholds)[key]
    {
      thresholds := thresholds + kw;
    }

    /** `__call__`, with the aligned time given and alignment left as the
        pass-through: the event's group, the unaligned raw window around the
        aligned time on the member channels, and one mask per member channel,
        each in [0, 1] with the meaning MaskMeaning states. */
    method Call(component: seq<(int, int)>, data: Matrix, dataT: Matrix, sAligned: real)
      returns (r: Result<Event>)
      requires PointsWithin(component, |dataT.rows|, dataT.cols)
      requires DistinctThresholds(thresholds)
      ensures (|data.rows| != |dataT.rows| || data.cols != dataT.cols) ==> r == Err(AssertionError)
      ensures (|data.rows| == |dataT.rows| && data.cols == dataT.cols &&
        Component(component, |dataT.rows|).Err?) ==> r == Err(Component(component, |dataT.rows|).error)
      ensures (|data.rows| == |dataT.rows| && data.cols == dataT.cols &&
        Component(component, |dataT.rows|).Ok? && !HasThresholds(thresholds)) ==> r == Err(KeyError)
      ensures (|data.rows| == |dataT.rows| && data.cols == dataT.cols &&
        Component(component, |dataT.rows|).Ok? && HasThresholds(thresholds)) ==>
          var channels := Component(component, |dataT.rows|).value.channels;
          (r.Ok? <==> Extract(data, sAligned, channels).Ok?) &&
          (r.Err? ==> r.error == if AllInAxis(channels, dataT.cols) then RuntimeError else IndexError)
      ensures r.Ok? ==>
        |data.rows| == |dataT.rows| && data.cols == dataT.cols &&
        Component(component, |dataT.rows|).Ok? && HasThresholds(thresholds) &&
        var comp := Component(component, |dataT.rows|).value;
        var ev := r.value;
        ev.group == comp.group && ev.sAligned == sAligned &&
        Extract(data, sAligned, comp.channels) == Ok(ev.waveform) &&
        |ev.masks| == |comp.channels| == ev.waveform.cols &&
        AllInAxis(comp.channels, dataT.cols) &&
        forall i | 0 <= i < |ev.masks| ::
          0.0 <= ev.masks[i] <= 1.0 &&
          MaskMeaning(dataT, comp, Wrap(comp.channels[i], dataT.cols), ev.masks[i],
                      thresholds["weak"], thresholds["strong"])
    {
      if |data.rows| != |dataT.rows| || data.cols != dataT.cols {
        return Err(AssertionError);
      }
      var c := Component(component, |dataT.rows|);
      if c.Err? {
        return Err(c.error);
      }
      var comp := c.value;
      ComponentWindow(component, |dataT.rows|, dataT.cols);
      var wave := CompWave(dataT, comp);
      var masks := Masks(dataT, wave, comp);
      if masks.Err? {
        return Err(masks.error);
      }
      var unaligned := Extract(data, sAligned, comp.channels);
      if unaligned.Err? {
        return Err(unaligned.error);
      }
      var tw, ts := thresholds["weak"], thresholds["strong"];
      forall i | 0 <= i < |masks.value|
        ensures MaskMeaning(dataT, comp, Wrap(comp.channels[i], dataT.cols), masks.value[i], tw, ts)
      {
        var ch := Wrap(comp.channels[i], dataT.cols);
        PeakOfSparse(wave, dataT, comp, ch);
        if PositiveMax(dataT, comp, ch, |comp.compS|) > 0.0 {
          SparsePeak(wave, dataT, comp, ch);
        }
      }
      r := Ok(Event(comp.group, sAligned, unaligned.value, masks.value));
    }
  }
}
