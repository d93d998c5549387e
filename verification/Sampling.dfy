// apps/desktop/sampling.py: the two greedy passes of the keyframe selection and
// the selection built from them.  Frame scores (quality, difference, descriptor,
// acceptable) are inputs; arithmetic on them is over the reals.
module Sampling {
  import opened Wrappers

  datatype Mode = Auto | TargetCount | Interval | AllFrames
  datatype IntervalUnit = Frames | Seconds
  datatype Profile = Preview | Balanced | Quality

  datatype Probe = Probe(totalFrames: int, fps: real)

  datatype RawConfig = Config(
    mode: Mode, requestedFrameCount: Option<int>, intervalValue: real,
    intervalUnit: IntervalUnit, profile: Profile, inFrame: int, outFrame: Option<int>)

  // The constructor of a configuration refuses every other value.
  predicate WellFormed(c: RawConfig) {
    && c.intervalValue > 0.0
    && 0 <= c.inFrame
    && (c.outFrame.Some? ==> c.inFrame <= c.outFrame.value)
  }

  type Config = c: RawConfig | WellFormed(c)
    witness Config(Auto, None, 1.0, Seconds, Balanced, 0, None)

  datatype Error = TrimOutsideSource | CountExceedsSource | CountNotPositive

  datatype Range = Range(start: int, end: int, available: int)

  datatype Frame = Frame(
    index: int, quality: real, difference: real, descriptor: seq<real>, acceptable: bool)

  // ---------------------------------------------------------------- rounding

  function Ceil(x: real): int { -((-x).Floor) }

  // Python's round(): half-way cases go to the even neighbour.
  function Round(x: real): int {
    var low := x.Floor;
    var rest := x - low as real;
    if rest < 0.5 then low
    else if rest > 0.5 then low + 1
    else if low % 2 == 0 then low else low + 1
  }

  function AbsReal(x: real): real { if x < 0.0 then -x else x }

  function MinReal(x: real, y: real): real { if y < x then y else x }

  function MaxReal(x: real, y: real): real { if x < y then y else x }

  // ----------------------------------------------------- counts and validity

  function Ratio(p: Profile): real {
    match p case Preview => 0.10 case Balanced => 0.20 case Quality => 0.40
  }

  function Minimum(p: Profile): int {
    match p case Preview => 12 case Balanced => 24 case Quality => 36
  }

  function Maximum(p: Profile): int {
    match p case Preview => 60 case Balanced => 120 case Quality => 240
  }

  function DefaultAutoCount(total: int, p: Profile): int {
    Min(Min(total, Maximum(p)), Max(Minimum(p), Round(total as real * Ratio(p))))
  }

  function FrameRange(probe: Probe, config: Config): Result<Range, Error> {
    var start := config.inFrame;
    var end := if config.outFrame.None? then probe.totalFrames - 1 else config.outFrame.value;
    if start >= probe.totalFrames || end >= probe.totalFrames then Err(TrimOutsideSource)
    else Ok(Range(start, end, end - start + 1))
  }

  function StepOf(probe: Probe, config: Config): real {
    if config.intervalUnit == Frames then config.intervalValue else config.intervalValue * probe.fps
  }

  function RequestedOf(probe: Probe, config: Config, available: int): int {
    match config.mode
    case AllFrames => available
    case TargetCount =>
      if config.requestedFrameCount.None? || config.requestedFrameCount.value == 0
      then DefaultAutoCount(available, config.profile)
      else config.requestedFrameCount.value
    case Interval => Max(1, Ceil(available as real / MaxReal(StepOf(probe, config), 1.0)))
    case Auto => DefaultAutoCount(available, config.profile)
  }

  function ValidateConfig(probe: Probe, config: Config): Result<int, Error> {
    match FrameRange(probe, config)
    case Err(e) => Err(e)
    case Ok(range) =>
      var requested := RequestedOf(probe, config, range.available);
      if requested > range.available then Err(CountExceedsSource)
      else if config.mode == TargetCount && requested < 1 then Err(CountNotPositive)
      else Ok(requested)
  }

  // ------------------------------------------------------------------- ranks

  // The tuples compared by `max`, in lexicographic order.
  datatype Rank = Rank(primary: real, secondary: real, tie: int)

  predicate Exceeds(a: Rank, b: Rank) {
    a.primary > b.primary
    || (a.primary == b.primary
        && (a.secondary > b.secondary || (a.secondary == b.secondary && a.tie > b.tie)))
  }

  function SumOfDifferences(a: seq<real>, b: seq<real>): real {
    if a == [] || b == [] then 0.0
    else AbsReal(a[0] - b[0]) + SumOfDifferences(a[1..], b[1..])
  }

  // Mean absolute difference of two descriptors.
  function DescriptorDistance(a: Frame, b: Frame): real {
    if a.descriptor == [] then 0.0
    else SumOfDifferences(a.descriptor, b.descriptor) / |a.descriptor| as real
  }

  // The distance to the nearest chosen frame; with none chosen, the default.
  function Visual(item: Frame, chosen: seq<Frame>): real {
    if chosen == [] then item.difference
    else if |chosen| == 1 then DescriptorDistance(item, chosen[0])
    else MinReal(DescriptorDistance(item, chosen[0]), Visual(item, chosen[1..]))
  }

  function TimeDistance(item: Frame, other: Frame, total: int): real {
    Abs(item.index - other.index) as real / Max(total - 1, 1) as real
  }

  function Temporal(item: Frame, chosen: seq<Frame>, total: int): real {
    if chosen == [] then 1.0
    else if |chosen| == 1 then TimeDistance(item, chosen[0], total)
    else MinReal(TimeDistance(item, chosen[0], total), Temporal(item, chosen[1..], total))
  }

  // The left edge of bin b, which is also the right edge of bin b - 1.
  function BinEdge(b: int, total: int, count: int): real
    requires count > 0
  {
    (b * total) as real / count as real
  }

  function BinRank(item: Frame, chosen: seq<Frame>, start: real, end: real): Rank {
    var centerDistance := AbsReal(item.index as real - (start + end) * 0.5) / MaxReal(end - start, 1.0);
    Rank(item.quality + 0.25 * Visual(item, chosen) - 0.04 * centerDistance, item.difference, -item.index)
  }

  function FillRank(item: Frame, chosen: seq<Frame>, total: int): Rank {
    Rank(0.50 * Temporal(item, chosen, total) + 0.30 * Visual(item, chosen) + 0.20 * item.quality,
         item.quality, -item.index)
  }

  function AnchorRank(item: Frame, anchor: int, step: int): Rank
  {
    Rank(item.quality - Abs(item.index - anchor) as real / Max(step, 1) as real * 0.1, 0.0, -item.index)
  }

  // The criteria by which the selection takes a maximum: inside a bin with the
  // given edges, when filling up, and around an anchor of the interval mode.
  datatype Criterion =
    | InsideBin(chosen: seq<Frame>, start: real, end: real)
    | ForCoverage(chosen: seq<Frame>, total: int)
    | AtAnchor(anchor: int, step: int)

  function RankOf(item: Frame, key: Criterion): Rank {
    match key
    case InsideBin(chosen, start, end) => BinRank(item, chosen, start, end)
    case ForCoverage(chosen, total) => FillRank(item, chosen, total)
    case AtAnchor(anchor, step) => AnchorRank(item, anchor, step)
  }

  // `max` keeps the first of the greatest elements.
  function Leader(best: Frame, rest: seq<Frame>, key: Criterion): Frame
    decreases |rest|
  {
    if rest == [] then best
    else Leader(if Exceeds(RankOf(rest[0], key), RankOf(best, key)) then rest[0] else best, rest[1..], key)
  }

  function Best(options: seq<Frame>, key: Criterion): Frame
    requires options != []
  {
    Leader(options[0], options[1..], key)
  }

  // -------------------------------------------------------------- candidates

  function Indices(s: seq<Frame>): set<int> { set f | f in s :: f.index }

  // start <= index < end, with both edges multiplied by count.
  predicate InBin(index: int, b: int, total: int, count: int) {
    b * total <= index * count < (b + 1) * total
  }

  lemma IndicesAppend(s: seq<Frame>, f: Frame)
    ensures Indices(s + [f]) == Indices(s) + {f.index}
  {
    assert forall g :: g in s + [f] <==> g in s || g == f;
    assert f in s + [f];
  }

  function Untaken(pool: seq<Frame>, taken: set<int>): seq<Frame> {
    if pool == [] then []
    else (if pool[0].index in taken then [] else [pool[0]]) + Untaken(pool[1..], taken)
  }

  function Within(pool: seq<Frame>, b: int, total: int, count: int): seq<Frame> {
    if pool == [] then []
    else (if InBin(pool[0].index, b, total, count) then [pool[0]] else []) + Within(pool[1..], b, total, count)
  }

  function BinOptions(pool: seq<Frame>, taken: set<int>, b: int, total: int, count: int): seq<Frame> {
    Within(Untaken(pool, taken), b, total, count)
  }

  // ---------------------------------------------------------------- bin pass

  // What is chosen once the first `bins` bins have been visited.
  function BinPass(pool: seq<Frame>, count: int, total: int, selected: seq<Frame>, bins: nat): seq<Frame>
    requires count > 0
  {
    if bins == 0 then selected
    else
      var b := bins - 1;
      var chosen := BinPass(pool, count, total, selected, b);
      var options := BinOptions(pool, Indices(chosen), b, total, count);
      if options == [] then chosen
      else chosen + [Best(options, InsideBin(chosen, BinEdge(b, total, count), BinEdge(b + 1, total, count)))]
  }

  function BestByTimeBinsSpec(pool: seq<Frame>, count: int, total: int, selected: seq<Frame>): seq<Frame> {
    if count <= 0 || pool == [] then [] else BinPass(pool, count, total, selected, count)
  }

  method BestByTimeBins(pool: seq<Frame>, count: int, total: int, selected: seq<Frame>)
    returns (chosen: seq<Frame>)
    ensures chosen == BestByTimeBinsSpec(pool, count, total, selected)
  {
    if count <= 0 || pool == [] {
      return [];
    }
    chosen := selected;
    var chosenIndices := Indices(chosen);
    for b := 0 to count
      invariant chosen == BinPass(pool, count, total, selected, b)
      invariant chosenIndices == Indices(chosen)
    {
      var options := BinOptions(pool, chosenIndices, b, total, count);
      if options != [] {
        var best := Best(options, InsideBin(chosen, BinEdge(b, total, count), BinEdge(b + 1, total, count)));
        IndicesAppend(chosen, best);
        chosen := chosen + [best];
        chosenIndices := chosenIndices + {best.index};
      }
    }
  }

  // --------------------------------------------------------------- fill pass

  function FillForCoverageSpec(chosen: seq<Frame>, pool: seq<Frame>, count: int, total: int): seq<Frame>
    decreases count - |chosen|
  {
    var remaining := Untaken(pool, Indices(chosen));
    if |chosen| >= count || remaining == [] then chosen
    else FillForCoverageSpec(chosen + [Best(remaining, ForCoverage(chosen, total))], pool, count, total)
  }

  method FillForCoverage(start: seq<Frame>, pool: seq<Frame>, count: int, total: int)
    returns (chosen: seq<Frame>)
    ensures chosen == FillForCoverageSpec(start, pool, count, total)
  {
    chosen := start;
    var chosenIndices := Indices(chosen);
    while |chosen| < count
      invariant chosenIndices == Indices(chosen)
      invariant FillForCoverageSpec(chosen, pool, count, total) == FillForCoverageSpec(start, pool, count, total)
      decreases count - |chosen|
    {
      var remaining := Untaken(pool, chosenIndices);
      if remaining == [] {
        break;
      }
      var best := Best(remaining, ForCoverage(chosen, total));
      IndicesAppend(chosen, best);
      chosen := chosen + [best];
      chosenIndices := chosenIndices + {best.index};
    }
  }

  // ----------------------------------------------------------------- sorting

  // A stable sort by frame index.
  function Insert(f: Frame, s: seq<Frame>): seq<Frame> {
    if s == [] || f.index <= s[0].index then [f] + s else [s[0]] + Insert(f, s[1..])
  }

  function SortByIndex(s: seq<Frame>): seq<Frame> {
    if s == [] then [] else Insert(s[0], SortByIndex(s[1..]))
  }

  function IndexList(s: seq<Frame>): (r: seq<int>)
    ensures |r| == |s|
  {
    seq(|s|, i requires 0 <= i < |s| => s[i].index)
  }

  // --------------------------------------------------------------- selection

  datatype Warning = EveryFrameKept | Shortage(selected: int, requested: int)

  datatype Selection = Selection(
    selected: seq<int>, candidates: seq<int>, candidateGoal: int, requested: int, warnings: seq<Warning>)

  // The count after the automatic mode has scaled it by the measured complexity
  // (a factor clipped to [0.8, 1.25] by the caller's statistics).
  function EffectiveRequested(frames: seq<Frame>, probe: Probe, config: Config, requested: int, complexity: real): int {
    if config.mode == Auto && frames != []
    then Min(probe.totalFrames, Max(3, Round(requested as real * complexity)))
    else requested
  }

  function CandidateGoal(total: int, requested: int): int {
    Min(total, Max(requested, Ceil(requested as real * 2.5)))
  }

  function Acceptable(frames: seq<Frame>): seq<Frame> {
    if frames == [] then []
    else (if frames[0].acceptable then [frames[0]] else []) + Acceptable(frames[1..])
  }

  // A bin pass over the whole pool followed by a fill pass.
  function TwoPasses(pool: seq<Frame>, count: int, total: int): seq<Frame> {
    FillForCoverageSpec(BestByTimeBinsSpec(pool, count, total, []), pool, count, total)
  }

  function CandidatePool(frames: seq<Frame>, total: int, goal: int): seq<Frame> {
    SortByIndex(TwoPasses(Acceptable(frames), goal, total))
  }

  function Near(pool: seq<Frame>, anchor: int, radius: int): seq<Frame> {
    if pool == [] then []
    else (if Abs(pool[0].index - anchor) <= radius then [pool[0]] else []) + Near(pool[1..], anchor, radius)
  }

  function AnchorStep(probe: Probe, config: Config): int { Max(1, Round(StepOf(probe, config))) }

  // What the interval mode has chosen after its first `anchors` anchors 0, step, 2*step, ...
  function AnchorPass(candidates: seq<Frame>, step: int, anchors: nat): seq<Frame>
    requires step >= 1
  {
    if anchors == 0 then []
    else
      var chosen := AnchorPass(candidates, step, anchors - 1);
      var anchor := (anchors - 1) * step;
      var options := Near(Untaken(candidates, Indices(chosen)), anchor, Max(1, step / 2));
      if options == [] then chosen else chosen + [Best(options, AtAnchor(anchor, step))]
  }

  // The length of range(0, total, step).
  function AnchorCount(total: int, step: int): nat
    requires step >= 1
  {
    if total <= 0 then 0 else (total - 1) / step + 1
  }

  function FinalChoice(candidates: seq<Frame>, probe: Probe, config: Config, requested: int): seq<Frame> {
    if config.mode == Interval then
      var step := AnchorStep(probe, config);
      AnchorPass(candidates, step, AnchorCount(probe.totalFrames, step))
    else TwoPasses(candidates, requested, probe.totalFrames)
  }

  // The branches in which frames are left out.
  function SelectSome(frames: seq<Frame>, probe: Probe, config: Config, requested: int): Selection {
    var goal := CandidateGoal(probe.totalFrames, requested);
    var candidates := CandidatePool(frames, probe.totalFrames, goal);
    var selected := IndexList(SortByIndex(FinalChoice(candidates, probe, config, requested)));
    Selection(selected, IndexList(candidates), goal, requested,
              if |selected| < requested then [Shortage(|selected|, requested)] else [])
  }

  function Select(frames: seq<Frame>, probe: Probe, config: Config, complexity: real): Result<Selection, Error> {
    match ValidateConfig(probe, config)
    case Err(e) => Err(e)
    case Ok(initial) =>
      if config.mode == AllFrames then
        Ok(Selection(IndexList(frames), IndexList(frames), probe.totalFrames, |frames|, [EveryFrameKept]))
      else
        Ok(SelectSome(frames, probe, config, EffectiveRequested(frames, probe, config, initial, complexity)))
  }

  method SelectFrames(frames: seq<Frame>, probe: Probe, config: Config, complexity: real)
    returns (r: Result<Selection, Error>)
    ensures r == Select(frames, probe, config, complexity)
  {
    var valid := ValidateConfig(probe, config);
    if valid.Err? {
      return Err(valid.error);
    }
    if config.mode == AllFrames {
      var indices := IndexList(frames);
      return Ok(Selection(indices, indices, probe.totalFrames, |indices|, [EveryFrameKept]));
    }
    var requested := EffectiveRequested(frames, probe, config, valid.value, complexity);
    var some := SelectSomeFrames(frames, probe, config, requested);
    r := Ok(some);
  }

  method ChooseInTwoPasses(pool: seq<Frame>, count: int, total: int) returns (chosen: seq<Frame>)
    ensures chosen == TwoPasses(pool, count, total)
  {
    var spread := BestByTimeBins(pool, count, total, []);
    chosen := FillForCoverage(spread, pool, count, total);
  }

  method SelectSomeFrames(frames: seq<Frame>, probe: Probe, config: Config, requested: int)
    returns (r: Selection)
    ensures r == SelectSome(frames, probe, config, requested)
  {
    var candidateGoal := CandidateGoal(probe.totalFrames, requested);
    var pool := ChooseInTwoPasses(Acceptable(frames), candidateGoal, probe.totalFrames);
    var candidates := SortByIndex(pool);
    var chosen: seq<Frame>;
    if config.mode == Interval {
      chosen := ChooseAtAnchors(candidates, AnchorStep(probe, config), probe.totalFrames);
    } else {
      chosen := ChooseInTwoPasses(candidates, requested, probe.totalFrames);
    }
    var selected := IndexList(SortByIndex(chosen));
    var warnings: seq<Warning> := [];
    if |selected| < requested {
      warnings := [Shortage(|selected|, requested)];
    }
    r := Selection(selected, IndexList(candidates), candidateGoal, requested, warnings);
  }

  method ChooseAtAnchors(candidates: seq<Frame>, step: int, total: int) returns (chosen: seq<Frame>)
    requires step >= 1
    ensures chosen == AnchorPass(candidates, step, AnchorCount(total, step))
  {
    chosen := [];
    var used: set<int> := {};
    var radius := Max(1, step / 2);
    for k := 0 to AnchorCount(total, step)
      invariant chosen == AnchorPass(candidates, step, k)
      invariant used == Indices(chosen)
    {
      var anchor := k * step;
      var options := Near(Untaken(candidates, used), anchor, radius);
      if options != [] {
        var best := Best(options, AtAnchor(anchor, step));
        IndicesAppend(chosen, best);
        chosen := chosen + [best];
        used := used + {best.index};
      }
    }
  }
}
