// What the selection of apps/desktop/sampling.py guarantees, for every list of
// scored frames and every configuration.
module SamplingTheorems {
  import opened Wrappers
  import opened Sampling

  // ------------------------------------------------- membership in the filters

  lemma {:induction false} UntakenMembers(pool: seq<Frame>, taken: set<int>)
    ensures forall f :: f in Untaken(pool, taken) <==> f in pool && f.index !in taken
  {
    if pool != [] {
      UntakenMembers(pool[1..], taken);
      assert forall f :: f in pool <==> f == pool[0] || f in pool[1..];
    }
  }

  lemma {:induction false} WithinMembers(pool: seq<Frame>, b: int, total: int, count: int)
    ensures forall f :: f in Within(pool, b, total, count) <==> f in pool && InBin(f.index, b, total, count)
  {
    if pool != [] {
      WithinMembers(pool[1..], b, total, count);
      assert forall f :: f in pool <==> f == pool[0] || f in pool[1..];
    }
  }

  lemma {:induction false} NearMembers(pool: seq<Frame>, anchor: int, radius: int)
    ensures forall f :: f in Near(pool, anchor, radius) <==> f in pool && Abs(f.index - anchor) <= radius
  {
    if pool != [] {
      NearMembers(pool[1..], anchor, radius);
      assert forall f :: f in pool <==> f == pool[0] || f in pool[1..];
    }
  }

  lemma {:induction false} AcceptableMembers(frames: seq<Frame>)
    ensures forall f :: f in Acceptable(frames) <==> f in frames && f.acceptable
  {
    if frames != [] {
      AcceptableMembers(frames[1..]);
      assert forall f :: f in frames <==> f == frames[0] || f in frames[1..];
    }
  }

  lemma BinOptionsMembers(pool: seq<Frame>, taken: set<int>, b: int, total: int, count: int)
    ensures forall f :: f in BinOptions(pool, taken, b, total, count)
                   <==> f in pool && f.index !in taken && InBin(f.index, b, total, count)
  {
    UntakenMembers(pool, taken);
    WithinMembers(Untaken(pool, taken), b, total, count);
  }

  // ------------------------------------------------------------------ maximum

  lemma {:induction false} LeaderLeads(best: Frame, rest: seq<Frame>, key: Criterion)
    ensures var w := Leader(best, rest, key);
      && (w == best || w in rest)
      && !Exceeds(RankOf(best, key), RankOf(w, key))
      && forall f :: f in rest ==> !Exceeds(RankOf(f, key), RankOf(w, key))
    decreases |rest|
  {
    if rest != [] {
      var next := if Exceeds(RankOf(rest[0], key), RankOf(best, key)) then rest[0] else best;
      LeaderLeads(next, rest[1..], key);
      assert forall f :: f in rest <==> f == rest[0] || f in rest[1..];
    }
  }

  lemma BestIsBest(options: seq<Frame>, key: Criterion)
    requires options != []
    ensures Best(options, key) in options
    ensures forall f :: f in options ==> !Exceeds(RankOf(f, key), RankOf(Best(options, key), key))
  {
    LeaderLeads(options[0], options[1..], key);
    assert forall f :: f in options <==> f == options[0] || f in options[1..];
  }

  // Ranks tie only on equal indices, so over frames told apart by their index the
  // maximum does not depend on the order in which they are listed.
  lemma BestIsUnique(a: seq<Frame>, b: seq<Frame>, key: Criterion)
    requires a != [] && b != [] && (forall f :: f in a <==> f in b)
    requires forall f, g :: f in a && g in a && f.index == g.index ==> f == g
    ensures Best(a, key) == Best(b, key)
  {
    BestIsBest(a, key);
    BestIsBest(b, key);
    assert RankOf(Best(a, key), key).tie == -Best(a, key).index;
  }

  // -------------------------------------------------------- sets of indices

  predicate Distinct(s: seq<Frame>) {
    forall i, j :: 0 <= i < j < |s| ==> s[i].index != s[j].index
  }

  lemma {:induction false} DistinctCount(s: seq<Frame>)
    requires Distinct(s)
    ensures |Indices(s)| == |s|
  {
    if s != [] {
      var front, last := s[..|s| - 1], s[|s| - 1];
      DistinctCount(front);
      assert s == front + [last];
      IndicesAppend(front, last);
      forall f | f in front ensures f.index != last.index {}
    }
  }

  lemma DistinctAppend(s: seq<Frame>, f: Frame)
    requires Distinct(s) && f.index !in Indices(s)
    ensures Distinct(s + [f])
  {
    forall i | 0 <= i < |s| ensures s[i].index != f.index { assert s[i] in s; }
  }

  // ------------------------------------------------- the two passes, one by one

  ghost predicate DrawnFrom(chosen: seq<Frame>, pool: seq<Frame>) {
    forall f :: f in chosen ==> f in pool
  }

  // One visited bin adds nothing, because every frame of the pool in that bin is
  // already chosen, or one frame of the pool that lies in it.
  lemma BinPassVisit(pool: seq<Frame>, count: int, total: int, b: nat)
    requires count > 0
    ensures var before, after := BinPass(pool, count, total, [], b), BinPass(pool, count, total, [], b + 1);
      || (after == before
          && forall f :: f in pool && InBin(f.index, b, total, count) ==> f.index in Indices(before))
      || (exists best :: best in pool && InBin(best.index, b, total, count)
            && best.index !in Indices(before) && after == before + [best])
  {
    hide Best, BinEdge, BinOptions;
    var chosen := BinPass(pool, count, total, [], b);
    var options := BinOptions(pool, Indices(chosen), b, total, count);
    BinOptionsMembers(pool, Indices(chosen), b, total, count);
    if options != [] {
      var key := InsideBin(chosen, BinEdge(b, total, count), BinEdge(b + 1, total, count));
      BestIsBest(options, key);
      assert BinPass(pool, count, total, [], b + 1) == chosen + [Best(options, key)];
    }
  }

  // Nothing more is chosen, or one frame of the pool with an index not yet taken.
  ghost predicate Grows(before: seq<Frame>, after: seq<Frame>, pool: seq<Frame>) {
    after == before
    || exists best :: best in pool && best.index !in Indices(before) && after == before + [best]
  }

  lemma GrowingDraws(before: seq<Frame>, after: seq<Frame>, pool: seq<Frame>)
    requires Distinct(before) && DrawnFrom(before, pool) && Grows(before, after, pool)
    ensures Distinct(after) && DrawnFrom(after, pool) && |after| <= |before| + 1
  {
    if after != before {
      var best :| best in pool && best.index !in Indices(before) && after == before + [best];
      DistinctAppend(before, best);
      assert forall f :: f in after ==> f in before || f == best;
    }
  }

  lemma BinPassGrows(pool: seq<Frame>, count: int, total: int, b: nat)
    requires count > 0
    ensures Grows(BinPass(pool, count, total, [], b), BinPass(pool, count, total, [], b + 1), pool)
  {
    hide BinPass;
    BinPassVisit(pool, count, total, b);
  }

  lemma NothingChosenYet(pool: seq<Frame>, count: int, total: int)
    requires count > 0
    ensures BinPass(pool, count, total, [], 0) == [] && Distinct([]) && DrawnFrom([], pool)
  {
  }

  lemma {:induction false} BinPassDraws(pool: seq<Frame>, count: int, total: int, bins: nat)
    requires count > 0
    ensures var r := BinPass(pool, count, total, [], bins);
      Distinct(r) && DrawnFrom(r, pool) && |r| <= bins
  {
    hide *;
    NothingChosenYet(pool, count, total);
    if bins > 0 {
      BinPassDraws(pool, count, total, bins - 1);
      BinPassGrows(pool, count, total, bins - 1);
      GrowingDraws(BinPass(pool, count, total, [], bins - 1), BinPass(pool, count, total, [], bins), pool);
    }
  }

  // The bin pass leaves a chosen frame in every visited bin that holds a frame of the pool.
  lemma {:induction false} BinPassCovers(pool: seq<Frame>, count: int, total: int, bins: nat, k: nat, f: Frame)
    requires count > 0 && k < bins && f in pool && InBin(f.index, k, total, count)
    ensures exists s :: s in BinPass(pool, count, total, [], bins) && InBin(s.index, k, total, count)
  {
    hide BinPass, Best;
    BinPassVisit(pool, count, total, bins - 1);
    var chosen, after := BinPass(pool, count, total, [], bins - 1), BinPass(pool, count, total, [], bins);
    assert chosen <= after;
    if k < bins - 1 {
      BinPassCovers(pool, count, total, bins - 1, k, f);
      var s :| s in chosen && InBin(s.index, k, total, count);
      assert s in after;
    } else if f.index in Indices(chosen) {
      var s :| s in chosen && s.index == f.index;
      assert s in after;
    } else {
      var best :| best in pool && InBin(best.index, k, total, count) && after == chosen + [best];
      assert best in after;
    }
  }

  lemma {:induction false} FillPassDraws(chosen: seq<Frame>, pool: seq<Frame>, count: int, total: int)
    requires Distinct(chosen) && DrawnFrom(chosen, pool)
    ensures var r := FillForCoverageSpec(chosen, pool, count, total);
      && Distinct(r) && DrawnFrom(r, pool) && chosen <= r
      && |r| == Max(|chosen|, Min(count, |Indices(pool)|))
    decreases count - |chosen|
  {
    UntakenMembers(pool, Indices(chosen));
    var remaining := Untaken(pool, Indices(chosen));
    DistinctCount(chosen);
    assert Indices(chosen) <= Indices(pool);
    SubsetSize(Indices(chosen), Indices(pool));
    if |chosen| >= count {
    } else if remaining == [] {
      assert Indices(pool) <= Indices(chosen) by {
        forall f | f in pool ensures f.index in Indices(chosen) { assert f !in remaining; }
      }
      assert Indices(pool) == Indices(chosen);
    } else {
      var best := Best(remaining, ForCoverage(chosen, total));
      BestIsBest(remaining, ForCoverage(chosen, total));
      DistinctAppend(chosen, best);
      FillPassDraws(chosen + [best], pool, count, total);
      IndicesAppend(chosen, best);
      DistinctCount(chosen + [best]);
      SubsetSize(Indices(chosen + [best]), Indices(pool));
    }
  }

  lemma SubsetSize(a: set<int>, b: set<int>)
    requires a <= b
    ensures |a| <= |b|
  {
    assert b == a + (b - a);
  }

  // Both passes together: distinct frames of the pool, as many as asked for or as
  // there are, starting with what the bin pass chose.
  lemma TwoPassesDraw(pool: seq<Frame>, count: int, total: int)
    ensures var r := TwoPasses(pool, count, total);
      && Distinct(r) && DrawnFrom(r, pool)
      && |r| == Max(0, Min(count, |Indices(pool)|))
      && BestByTimeBinsSpec(pool, count, total, []) <= r
  {
    var spread := BestByTimeBinsSpec(pool, count, total, []);
    if count > 0 && pool != [] {
      BinPassDraws(pool, count, total, count);
      assert Indices(spread) <= Indices(pool);
      SubsetSize(Indices(spread), Indices(pool));
      DistinctCount(spread);
    }
    FillPassDraws(spread, pool, count, total);
  }

  lemma TwoPassesCover(pool: seq<Frame>, count: int, total: int, k: nat, f: Frame)
    requires k < count && f in pool && InBin(f.index, k, total, count)
    ensures exists s :: s in TwoPasses(pool, count, total) && InBin(s.index, k, total, count)
  {
    BinPassCovers(pool, count, total, count, k, f);
    TwoPassesDraw(pool, count, total);
    var s :| s in BestByTimeBinsSpec(pool, count, total, []) && InBin(s.index, k, total, count);
    assert s in TwoPasses(pool, count, total);
  }

  // ------------------------------------------------------------------ sorting

  predicate SortedFrames(s: seq<Frame>) {
    forall i, j :: 0 <= i < j < |s| ==> s[i].index <= s[j].index
  }

  predicate Increasing(s: seq<int>) {
    forall i, j :: 0 <= i < j < |s| ==> s[i] < s[j]
  }

  lemma {:induction false} InsertKeepsFrames(f: Frame, s: seq<Frame>)
    ensures multiset(Insert(f, s)) == multiset(s) + multiset{f}
    ensures forall g :: g in Insert(f, s) ==> g == f || g in s
  {
    if s == [] || f.index <= s[0].index {
    } else {
      InsertKeepsFrames(f, s[1..]);
      assert s == [s[0]] + s[1..];
    }
  }

  lemma {:induction false} InsertSorts(f: Frame, s: seq<Frame>)
    requires SortedFrames(s)
    ensures SortedFrames(Insert(f, s))
  {
    if s == [] || f.index <= s[0].index {
    } else {
      InsertSorts(f, s[1..]);
      InsertKeepsFrames(f, s[1..]);
      var r := Insert(f, s[1..]);
      forall i | 0 <= i < |r| ensures s[0].index <= r[i].index {
        assert r[i] in r;
      }
    }
  }

  lemma {:induction false} SortSorts(s: seq<Frame>)
    ensures SortedFrames(SortByIndex(s)) && multiset(SortByIndex(s)) == multiset(s)
  {
    if s != [] {
      SortSorts(s[1..]);
      InsertSorts(s[0], SortByIndex(s[1..]));
      InsertKeepsFrames(s[0], SortByIndex(s[1..]));
      assert s == [s[0]] + s[1..];
    }
  }

  lemma {:induction false} IndicesBound(s: seq<Frame>)
    ensures |Indices(s)| <= |s|
    ensures |Indices(s)| == |s| ==> Distinct(s)
  {
    if s != [] {
      var front, last := s[..|s| - 1], s[|s| - 1];
      IndicesBound(front);
      IndicesAppend(front, last);
      assert s == front + [last];
      if |Indices(s)| == |s| {
        assert last.index !in Indices(front);
        DistinctAppend(front, last);
      }
    }
  }

  lemma SortKeepsFrames(s: seq<Frame>)
    ensures |SortByIndex(s)| == |s|
    ensures forall f :: f in SortByIndex(s) <==> f in s
    ensures Indices(SortByIndex(s)) == Indices(s)
  {
    SortSorts(s);
    var t := SortByIndex(s);
    assert |t| == |multiset(t)| == |multiset(s)| == |s|;
    assert forall f :: f in t <==> f in multiset(t);
    assert forall f :: f in s <==> f in multiset(s);
  }

  lemma ListedIndices(s: seq<Frame>)
    ensures (set i | i in IndexList(s)) == Indices(s)
  {
    forall f | f in s ensures f.index in IndexList(s) {
      var k :| 0 <= k < |s| && s[k] == f;
      assert IndexList(s)[k] == f.index;
    }
  }

  // Sorting distinct frames lists their indices in strictly increasing order.
  lemma SortedIndices(s: seq<Frame>)
    requires Distinct(s)
    ensures Increasing(IndexList(SortByIndex(s)))
    ensures |SortByIndex(s)| == |s|
    ensures forall f :: f in SortByIndex(s) <==> f in s
    ensures Indices(SortByIndex(s)) == Indices(s)
    ensures (set i | i in IndexList(SortByIndex(s))) == Indices(s)
  {
    SortSorts(s);
    SortKeepsFrames(s);
    DistinctCount(s);
    IndicesBound(SortByIndex(s));
    ListedIndices(SortByIndex(s));
  }

  // ---------------------------------------------------------- exact selection

  // The part of a successful selection that both covering modes go through.
  predicate Covering(mode: Mode) { mode == Auto || mode == TargetCount }

  // Validation succeeds exactly when the trim range lies in the source and, with a
  // target count, that count is between one and the number of usable frames.
  lemma ValidateExactly(probe: Probe, config: Config)
    ensures ValidateConfig(probe, config).Ok? <==>
      && FrameRange(probe, config).Ok?
      && (config.mode == TargetCount ==>
            1 <= RequestedOf(probe, config, FrameRange(probe, config).value.available)
              <= FrameRange(probe, config).value.available)
    ensures ValidateConfig(probe, config).Ok? ==>
      1 <= ValidateConfig(probe, config).value
        <= FrameRange(probe, config).value.available <= probe.totalFrames
  {
    if FrameRange(probe, config).Ok? {
      var available := FrameRange(probe, config).value.available;
      assert available >= 1;
      if config.mode == Interval {
        IntervalCountFits(available, MaxReal(StepOf(probe, config), 1.0));
      }
    }
  }

  lemma IntervalCountFits(available: int, step: real)
    requires available >= 1 && step >= 1.0
    ensures Max(1, Ceil(available as real / step)) <= available
  {
    var quotient := available as real / step;
    assert quotient * step == available as real;
    assert quotient >= 0.0;
    assert quotient <= quotient * step;
    assert -(available as real) <= -quotient;
    assert (-quotient).Floor as real > -quotient - 1.0;
  }

  lemma CountsInOrder(frames: seq<Frame>, probe: Probe, config: Config, complexity: real)
    requires ValidateConfig(probe, config).Ok?
    ensures var requested := EffectiveRequested(frames, probe, config, ValidateConfig(probe, config).value, complexity);
      && 1 <= requested <= probe.totalFrames
      && requested <= CandidateGoal(probe.totalFrames, requested) <= probe.totalFrames
      && (CandidateGoal(probe.totalFrames, requested) == probe.totalFrames
          || 2 * CandidateGoal(probe.totalFrames, requested) >= 5 * requested)
  {
    ValidateExactly(probe, config);
    var requested := EffectiveRequested(frames, probe, config, ValidateConfig(probe, config).value, complexity);
    var scaled := requested as real * 2.5;
    assert Ceil(scaled) as real >= scaled;
    assert (2 * Ceil(scaled)) as real >= 5.0 * requested as real;
  }

  lemma ExactChoice(frames: seq<Frame>, probe: Probe, config: Config, requested: int)
    requires Covering(config.mode)
    requires 1 <= requested <= CandidateGoal(probe.totalFrames, requested)
    ensures var r := SelectSome(frames, probe, config, requested);
      var n := |Indices(Acceptable(frames))|;
      && Increasing(r.selected) && Increasing(r.candidates)
      && (forall i :: i in r.selected ==> i in r.candidates)
      && (forall i :: i in r.candidates ==> i in Indices(Acceptable(frames)))
      && |r.selected| == Min(requested, n)
      && |r.candidates| == Min(r.candidateGoal, n)
  {
    var total, goal := probe.totalFrames, CandidateGoal(probe.totalFrames, requested);
    var acceptable := Acceptable(frames);
    var pool := TwoPasses(acceptable, goal, total);
    TwoPassesDraw(acceptable, goal, total);
    SortedIndices(pool);
    DistinctCount(pool);
    var candidates := SortByIndex(pool);
    ListedIndices(candidates);
    var chosen := TwoPasses(candidates, requested, total);
    TwoPassesDraw(candidates, requested, total);
    SortedIndices(chosen);
    SameMembers(IndexList(candidates), Indices(pool));
    SameMembers(IndexList(SortByIndex(chosen)), Indices(chosen));
  }

  lemma SameMembers(s: seq<int>, t: set<int>)
    requires (set i | i in s) == t
    ensures forall i :: i in s <==> i in t
  {
    forall i ensures i in s <==> i in t {
      assert i in s <==> i in (set j | j in s);
    }
  }

  // Exact selection size: in the covering modes the candidates are min(goal, n) of
  // the n acceptable indices, the selection is min(requested, n) of the candidates,
  // and a shortage is reported exactly when n < requested.
  lemma ExactSelection(frames: seq<Frame>, probe: Probe, config: Config, complexity: real)
    requires Covering(config.mode)
    requires Select(frames, probe, config, complexity).Ok?
    ensures var r := Select(frames, probe, config, complexity).value;
      var n := |Indices(Acceptable(frames))|;
      && Increasing(r.selected) && Increasing(r.candidates)
      && (forall i :: i in r.selected ==> i in r.candidates)
      && (forall i :: i in r.candidates ==> exists f :: f in frames && f.acceptable && f.index == i)
      && |r.selected| == Min(r.requested, n)
      && |r.candidates| == Min(r.candidateGoal, n)
      && (r.warnings != [] <==> n < r.requested)
      && 1 <= r.requested <= r.candidateGoal <= probe.totalFrames
  {
    var requested := EffectiveRequested(frames, probe, config, ValidateConfig(probe, config).value, complexity);
    CountsInOrder(frames, probe, config, complexity);
    ExactChoice(frames, probe, config, requested);
    AcceptableMembers(frames);
  }

  // ---------------------------------------------------------- covering radius

  // Two indices in one of `count` equal bins are less than a bin's width apart.
  lemma SameBin(i: int, j: int, b: int, total: int, count: int)
    requires InBin(i, b, total, count) && InBin(j, b, total, count)
    ensures Abs(i - j) * count < total
  {
    assert (b + 1) * total == b * total + total;
    assert (i - j) * count == i * count - j * count;
    assert (j - i) * count == j * count - i * count;
  }

  // The bins partition the source: an index lies in exactly one of them.
  lemma OneBin(index: int, total: int, count: int)
    requires 0 <= index < total && count > 0
    ensures 0 <= index * count / total < count
    ensures forall b: int :: InBin(index, b, total, count) <==> b == index * count / total
  {
    var x := index * count;
    var q := x / total;
    assert x == q * total + x % total;
    assert (q + 1) * total == q * total + total;
    assert 0 <= x by { ProductOrder(0, index, count); }
    assert x < total * count by { assert (index + 1) * count == x + count; ProductOrder(index + 1, total, count); }
    assert count * total == total * count;
    if q >= count { ProductOrder(count, q, total); assert false; }
    if q < 0 { ProductOrder(q, -1, total); assert false; }
    forall b: int | InBin(index, b, total, count) ensures b == q {
      assert (b + 1) * total == b * total + total;
      if b < q { ProductOrder(b + 1, q, total); assert false; }
      if b > q { ProductOrder(q + 1, b, total); assert false; }
    }
  }

  lemma ProductOrder(a: int, b: int, c: int)
    requires a <= b && c >= 0
    ensures a * c <= b * c
  {
    assert (b - a) * c >= 0;
  }

  // A frame of the pool has a frame chosen from it in the same bin.
  lemma NearChoice(pool: seq<Frame>, count: int, total: int, f: Frame) returns (s: Frame)
    requires count > 0 && f in pool && 0 <= f.index < total
    ensures s in TwoPasses(pool, count, total)
    ensures 0 <= s.index < total && Abs(s.index - f.index) * count < total
  {
    OneBin(f.index, total, count);
    var b := f.index * count / total;
    TwoPassesCover(pool, count, total, b, f);
    s :| s in TwoPasses(pool, count, total) && InBin(s.index, b, total, count);
    SameBin(s.index, f.index, b, total, count);
    InBinInSource(s.index, b, total, count);
  }

  // |s - f| < total/requested + total/goal, multiplied by both divisors.
  predicate WithinRadius(s: int, f: int, total: int, requested: int, goal: int) {
    Abs(s - f) * (requested * goal) < total * goal + total * requested
  }

  lemma ChoiceCovers(frames: seq<Frame>, probe: Probe, config: Config, requested: int, f: Frame)
    requires Covering(config.mode)
    requires 1 <= requested <= CandidateGoal(probe.totalFrames, requested)
    requires f in frames && f.acceptable && 0 <= f.index < probe.totalFrames
    ensures var r := SelectSome(frames, probe, config, requested);
      exists s :: s in r.selected && WithinRadius(s, f.index, probe.totalFrames, requested, r.candidateGoal)
  {
    hide TwoPasses, SortByIndex, InBin, WithinRadius;
    var total, goal := probe.totalFrames, CandidateGoal(probe.totalFrames, requested);
    AcceptableMembers(frames);
    var c := NearChoice(Acceptable(frames), goal, total, f);
    SortKeepsFrames(TwoPasses(Acceptable(frames), goal, total));
    var candidates := CandidatePool(frames, total, goal);
    var s := NearChoice(candidates, requested, total, c);
    var chosen := TwoPasses(candidates, requested, total);
    SortKeepsFrames(chosen);
    ListedIndices(SortByIndex(chosen));
    SameMembers(IndexList(SortByIndex(chosen)), Indices(chosen));
    RadiusAdds(s.index, c.index, f.index, total, requested, goal);
    assert SelectSome(frames, probe, config, requested).selected == IndexList(SortByIndex(chosen));
  }

  // Covering radius: every acceptable frame of the source has a selected frame less
  // than total/requested + total/candidateGoal away.
  lemma CoveringRadius(frames: seq<Frame>, probe: Probe, config: Config, complexity: real, f: Frame)
    requires Covering(config.mode)
    requires Select(frames, probe, config, complexity).Ok?
    requires f in frames && f.acceptable && 0 <= f.index < probe.totalFrames
    ensures var r := Select(frames, probe, config, complexity).value;
      exists s :: s in r.selected && WithinRadius(s, f.index, probe.totalFrames, r.requested, r.candidateGoal)
  {
    var requested := EffectiveRequested(frames, probe, config, ValidateConfig(probe, config).value, complexity);
    CountsInOrder(frames, probe, config, complexity);
    ChoiceCovers(frames, probe, config, requested, f);
  }

  lemma InBinInSource(index: int, b: int, total: int, count: int)
    requires total > 0 && 0 <= b < count && InBin(index, b, total, count)
    ensures 0 <= index < total
  {
    ProductOrder(0, b, total);
    ProductOrder(b + 1, count, total);
    assert count * total == total * count;
    if index < 0 { ProductOrder(index, -1, count); assert false; }
    if index >= total { ProductOrder(total, index, count); assert false; }
  }

  lemma ProductBelow(a: int, b: int, c: int)
    requires a < b && c > 0
    ensures a * c < b * c
  {
    assert (b - a) * c > 0;
  }

  lemma RadiusAdds(s: int, c: int, f: int, total: int, requested: int, goal: int)
    requires requested > 0 && goal > 0
    requires Abs(s - c) * requested < total && Abs(c - f) * goal < total
    ensures WithinRadius(s, f, total, requested, goal)
  {
    var a, b, both := Abs(s - c), Abs(c - f), requested * goal;
    ProductBelow(a * requested, total, goal);
    ProductBelow(b * goal, total, requested);
    assert both >= 0;
    ProductOrder(Abs(s - f), a + b, both);
    Regroup(a, requested, goal);
    Regroup(b, goal, requested);
    assert goal * requested == both;
    assert (a + b) * both == a * both + b * both;
  }

  lemma Regroup(a: int, b: int, c: int)
    ensures a * (b * c) == (a * b) * c
  {
  }

  // ---------------------------------------------------------------- gap bound

  function CeilDiv(a: int, b: int): int
    requires b > 0
  {
    (a + b - 1) / b
  }

  lemma CeilDivBounds(a: int, b: int)
    requires b > 0
    ensures a <= CeilDiv(a, b) * b < a + b
  {
    var x := a + b - 1;
    assert x == x / b * b + x % b;
  }

  // A bin no narrower than one frame holds a frame.
  lemma BinHoldsIndex(k: int, total: int, count: int) returns (i: int)
    requires 0 <= k < count <= total
    ensures InBin(i, k, total, count) && 0 <= i < total
  {
    i := CeilDiv(k * total, count);
    CeilDivBounds(k * total, count);
    assert (k + 1) * total == k * total + total;
    InBinInSource(i, k, total, count);
  }

  // With at least 2.5 times as many fine bins, a coarse bin contains a fine one.
  lemma FineBinInside(k: int, total: int, coarse: int, fine: int) returns (m: int)
    requires 0 <= k < coarse && 2 * coarse <= fine && total > 0
    ensures 0 <= m < fine
    ensures forall i: int :: InBin(i, m, total, fine) ==> InBin(i, k, total, coarse)
  {
    m := CeilDiv(k * fine, coarse);
    CeilDivBounds(k * fine, coarse);
    ProductOrder(0, k, fine);
    assert (m + 1) * coarse == m * coarse + coarse;
    assert (k + 1) * fine == k * fine + fine;
    ProductOrder(k + 1, coarse, fine);
    assert (m + 1) * coarse <= fine * coarse;
    if m >= fine { ProductBelow(fine, m + 1, coarse); assert false; }
    if m < 0 { ProductBelow(m, 0, coarse); assert false; }
    forall i: int | InBin(i, m, total, fine) ensures InBin(i, k, total, coarse) {
      FineInCoarse(i, m, k, total, coarse, fine);
    }
  }

  lemma FineInCoarse(i: int, m: int, k: int, total: int, coarse: int, fine: int)
    requires coarse > 0 && fine > 0 && total > 0
    requires k * fine <= m * coarse && (m + 1) * coarse <= (k + 1) * fine
    requires InBin(i, m, total, fine)
    ensures InBin(i, k, total, coarse)
  {
    var left, right := k * total, (k + 1) * total;
    // left * fine <= i * coarse * fine < right * fine
    Scaled(k, fine, m, coarse, total);
    Scaled(m + 1, coarse, k + 1, fine, total);
    ProductOrder(m * total, i * fine, coarse);
    ProductBelow(i * fine, (m + 1) * total, coarse);
    Swap(i, fine, coarse);
    Cancel(left, i * coarse, fine);
    CancelStrict(i * coarse, right, fine);
  }

  lemma Scaled(a: int, b: int, c: int, d: int, t: int)
    requires a * b <= c * d && t > 0
    ensures (a * t) * b <= (c * t) * d
  {
    ProductOrder(a * b, c * d, t);
    Swap(a, b, t);
    Swap(c, d, t);
  }

  lemma Swap(a: int, b: int, c: int)
    ensures (a * b) * c == (a * c) * b
  {
    Regroup(a, b, c);
    Regroup(a, c, b);
    assert b * c == c * b;
  }

  lemma Cancel(a: int, b: int, c: int)
    requires c > 0 && a * c <= b * c
    ensures a <= b
  {
    if b < a { ProductBelow(b, a, c); assert false; }
  }

  lemma CancelStrict(a: int, b: int, c: int)
    requires c > 0 && a * c < b * c
    ensures a < b
  {
    if b <= a { ProductOrder(b, a, c); assert false; }
  }

  // Every coarse bin holds a candidate when every source frame is acceptable.
  lemma CoarseBinHoldsCandidate(acceptable: seq<Frame>, total: int, requested: int, goal: int, k: int)
    returns (c: Frame)
    requires forall i :: 0 <= i < total ==> i in Indices(acceptable)
    requires 0 <= k < requested <= goal <= total
    requires goal == total || 2 * requested <= goal
    ensures c in TwoPasses(acceptable, goal, total) && InBin(c.index, k, total, requested)
  {
    hide TwoPasses;
    if goal == total {
      var i := BinHoldsIndex(k, total, requested);
      assert i in Indices(acceptable);
      var f :| f in acceptable && f.index == i;
      assert (i + 1) * total == i * total + total;
      TwoPassesCover(acceptable, goal, total, i, f);
      c :| c in TwoPasses(acceptable, goal, total) && InBin(c.index, i, total, total);
      CancelStrict(c.index, i + 1, total);
      Cancel(i, c.index, total);
    } else {
      var m := FineBinInside(k, total, requested, goal);
      var i := BinHoldsIndex(m, total, goal);
      assert i in Indices(acceptable);
      var f :| f in acceptable && f.index == i;
      TwoPassesCover(acceptable, goal, total, m, f);
      c :| c in TwoPasses(acceptable, goal, total) && InBin(c.index, m, total, goal);
    }
  }

  ghost predicate EveryBinHolds(pool: seq<Frame>, count: int, total: int) {
    forall k :: 0 <= k < count ==> BinHolds(pool, k, total, count)
  }

  ghost predicate BinHolds(pool: seq<Frame>, k: int, total: int, count: int) {
    exists c :: c in pool && InBin(c.index, k, total, count)
  }

  // The k-th chosen frame lies in the k-th bin.
  ghost predicate OnePerBin(s: seq<int>, total: int, count: int) {
    forall k :: 0 <= k < |s| ==> InBin(s[k], k, total, count)
  }

  lemma BinsApart(i: int, j: int, a: int, b: int, total: int, count: int)
    requires total > 0 && count > 0 && a < b
    requires InBin(i, a, total, count) && InBin(j, b, total, count)
    ensures i < j
  {
    ProductOrder(a + 1, b, total);
    CancelStrict(i, j, count);
  }

  // A bin whose earlier bins each hold one chosen frame has none chosen yet.
  lemma BinStillOpen(chosen: seq<Frame>, total: int, count: int, index: int)
    requires total > 0 && count > 0 && OnePerBin(IndexList(chosen), total, count)
    requires InBin(index, |chosen|, total, count)
    ensures index !in Indices(chosen)
  {
    if index in Indices(chosen) {
      var g :| g in chosen && g.index == index;
      var k :| 0 <= k < |chosen| && chosen[k] == g;
      assert IndexList(chosen)[k] == index;
      BinsApart(index, index, k, |chosen|, total, count);
      assert false;
    }
  }

  lemma OnePerBinAppend(chosen: seq<Frame>, best: Frame, total: int, count: int)
    requires OnePerBin(IndexList(chosen), total, count) && InBin(best.index, |chosen|, total, count)
    ensures OnePerBin(IndexList(chosen + [best]), total, count)
  {
    assert IndexList(chosen + [best]) == IndexList(chosen) + [best.index];
  }

  lemma {:induction false} BinPassFills(pool: seq<Frame>, count: int, total: int, bins: nat)
    requires 0 < count && bins <= count && total > 0 && EveryBinHolds(pool, count, total)
    ensures var r := BinPass(pool, count, total, [], bins);
      |r| == bins && OnePerBin(IndexList(r), total, count)
  {
    assert BinPass(pool, count, total, [], 0) == [];
    if bins > 0 {
      hide BinPass, InBin, OnePerBin, IndexList, Indices;
      var b := bins - 1;
      BinPassFills(pool, count, total, b);
      BinPassVisit(pool, count, total, b);
      var chosen, after := BinPass(pool, count, total, [], b), BinPass(pool, count, total, [], bins);
      assert BinHolds(pool, b, total, count);
      var c :| c in pool && InBin(c.index, b, total, count);
      BinStillOpen(chosen, total, count, c.index);
      var best :| best in pool && InBin(best.index, b, total, count) && after == chosen + [best];
      OnePerBinAppend(chosen, best, total, count);
      assert |after| == bins && OnePerBin(IndexList(after), total, count);
    }
  }

  lemma {:induction false} SortKeepsSorted(s: seq<Frame>)
    requires SortedFrames(s)
    ensures SortByIndex(s) == s
  {
    if s != [] {
      SortKeepsSorted(s[1..]);
      assert s == [s[0]] + s[1..];
    }
  }

  lemma EvenChoice(frames: seq<Frame>, probe: Probe, config: Config, requested: int)
    requires Covering(config.mode)
    requires forall i :: 0 <= i < probe.totalFrames ==> i in Indices(Acceptable(frames))
    requires var goal := CandidateGoal(probe.totalFrames, requested);
      1 <= requested <= goal <= probe.totalFrames && (goal == probe.totalFrames || 2 * requested <= goal)
    ensures var r := SelectSome(frames, probe, config, requested);
      |r.selected| == requested && OnePerBin(r.selected, probe.totalFrames, requested)
  {
    var total, goal := probe.totalFrames, CandidateGoal(probe.totalFrames, requested);
    var pool := TwoPasses(Acceptable(frames), goal, total);
    var candidates := SortByIndex(pool);
    SortKeepsFrames(pool);
    forall k | 0 <= k < requested ensures BinHolds(candidates, k, total, requested) {
      var c := CoarseBinHoldsCandidate(Acceptable(frames), total, requested, goal, k);
      assert c in candidates;
    }
    assert BinHolds(candidates, 0, total, requested);
    BinPassFills(candidates, requested, total, requested);
    var chosen := BinPass(candidates, requested, total, [], requested);
    assert TwoPasses(candidates, requested, total) == chosen;
    forall i, j | 0 <= i < j < |chosen| ensures chosen[i].index <= chosen[j].index {
      assert InBin(IndexList(chosen)[i], i, total, requested) && InBin(IndexList(chosen)[j], j, total, requested);
      BinsApart(chosen[i].index, chosen[j].index, i, j, total, requested);
    }
    SortKeepsSorted(chosen);
  }

  // Gap bound: when every frame of the source is acceptable, the k-th selected frame
  // lies in the k-th of `requested` equal time bins, so consecutive selections are
  // less than two bins apart.
  lemma GapBound(frames: seq<Frame>, probe: Probe, config: Config, complexity: real)
    requires Covering(config.mode)
    requires Select(frames, probe, config, complexity).Ok?
    requires forall i :: 0 <= i < probe.totalFrames ==> i in Indices(Acceptable(frames))
    ensures var r := Select(frames, probe, config, complexity).value;
      && |r.selected| == r.requested
      && OnePerBin(r.selected, probe.totalFrames, r.requested)
      && GapsBelowTwoBins(r.selected, probe.totalFrames, r.requested)
  {
    hide OnePerBin, GapsBelowTwoBins;
    var requested := EffectiveRequested(frames, probe, config, ValidateConfig(probe, config).value, complexity);
    CountsInOrder(frames, probe, config, complexity);
    EvenChoice(frames, probe, config, requested);
    OnePerBinGaps(SelectSome(frames, probe, config, requested).selected, probe.totalFrames, requested);
  }

  ghost predicate GapsBelowTwoBins(s: seq<int>, total: int, count: int) {
    forall k :: 0 <= k < |s| - 1 ==> (s[k + 1] - s[k]) * count < 2 * total
  }

  lemma OnePerBinGaps(s: seq<int>, total: int, count: int)
    requires OnePerBin(s, total, count)
    ensures GapsBelowTwoBins(s, total, count)
  {
    forall k | 0 <= k < |s| - 1 ensures (s[k + 1] - s[k]) * count < 2 * total {
      NeighbourBins(s[k], s[k + 1], k, total, count);
    }
  }

  lemma NeighbourBins(i: int, j: int, k: int, total: int, count: int)
    requires InBin(i, k, total, count) && InBin(j, k + 1, total, count)
    ensures (j - i) * count < 2 * total
  {
    assert (k + 2) * total == k * total + 2 * total;
    assert (j - i) * count == j * count - i * count;
  }

  // -------------------------------------------------------- order independence

  ghost predicate SameFrames(a: seq<Frame>, b: seq<Frame>) {
    && (forall f :: f in a <==> f in b)
    && (forall f, g :: f in a && g in a && f.index == g.index ==> f == g)
  }

  lemma EmptyTogether(a: seq<Frame>, b: seq<Frame>)
    requires forall f :: f in a <==> f in b
    ensures a == [] <==> b == []
  {
    if a != [] { assert a[0] in b; }
    if b != [] { assert b[0] in a; }
  }

  lemma SameBestInBin(a: seq<Frame>, b: seq<Frame>, chosen: seq<Frame>, k: nat, count: int, total: int)
    requires SameFrames(a, b) && count > 0
    ensures var left := BinOptions(a, Indices(chosen), k, total, count);
            var right := BinOptions(b, Indices(chosen), k, total, count);
      && (left == [] <==> right == [])
      && (left != [] && right != [] ==>
            var key := InsideBin(chosen, BinEdge(k, total, count), BinEdge(k + 1, total, count));
            Best(left, key) == Best(right, key))
  {
    hide Best, BinOptions, BinEdge;
    var left, right := BinOptions(a, Indices(chosen), k, total, count), BinOptions(b, Indices(chosen), k, total, count);
    BinOptionsMembers(a, Indices(chosen), k, total, count);
    BinOptionsMembers(b, Indices(chosen), k, total, count);
    EmptyTogether(left, right);
    if left != [] {
      BestIsUnique(left, right, InsideBin(chosen, BinEdge(k, total, count), BinEdge(k + 1, total, count)));
    }
  }

  lemma {:induction false} BinPassIgnoresOrder(a: seq<Frame>, b: seq<Frame>, count: int, total: int, bins: nat)
    requires SameFrames(a, b) && count > 0
    ensures BinPass(a, count, total, [], bins) == BinPass(b, count, total, [], bins)
  {
    hide Best, BinOptions, BinEdge;
    if bins > 0 {
      BinPassIgnoresOrder(a, b, count, total, bins - 1);
      SameBestInBin(a, b, BinPass(a, count, total, [], bins - 1), bins - 1, count, total);
    }
  }

  lemma {:induction false} FillIgnoresOrder(chosen: seq<Frame>, a: seq<Frame>, b: seq<Frame>, count: int, total: int)
    requires SameFrames(a, b)
    ensures FillForCoverageSpec(chosen, a, count, total) == FillForCoverageSpec(chosen, b, count, total)
    decreases count - |chosen|
  {
    var left, right := Untaken(a, Indices(chosen)), Untaken(b, Indices(chosen));
    UntakenMembers(a, Indices(chosen));
    UntakenMembers(b, Indices(chosen));
    EmptyTogether(left, right);
    if left != [] && |chosen| < count {
      BestIsUnique(left, right, ForCoverage(chosen, total));
      FillIgnoresOrder(chosen + [Best(left, ForCoverage(chosen, total))], a, b, count, total);
    }
  }

  // The selection does not depend on the order in which the frames are listed, as
  // long as their indices tell them apart.
  lemma SelectionIgnoresOrder(a: seq<Frame>, b: seq<Frame>, probe: Probe, config: Config, complexity: real)
    requires SameFrames(a, b) && config.mode != AllFrames
    ensures Select(a, probe, config, complexity) == Select(b, probe, config, complexity)
  {
    AcceptableMembers(a);
    AcceptableMembers(b);
    if ValidateConfig(probe, config).Ok? {
      EmptyTogether(a, b);
      var requested := EffectiveRequested(a, probe, config, ValidateConfig(probe, config).value, complexity);
      var goal := CandidateGoal(probe.totalFrames, requested);
      TwoPassesIgnoreOrder(Acceptable(a), Acceptable(b), goal, probe.totalFrames);
    }
  }

  lemma TwoPassesIgnoreOrder(a: seq<Frame>, b: seq<Frame>, count: int, total: int)
    requires SameFrames(a, b)
    ensures TwoPasses(a, count, total) == TwoPasses(b, count, total)
  {
    EmptyTogether(a, b);
    if count > 0 {
      BinPassIgnoresOrder(a, b, count, total, count);
    }
    FillIgnoresOrder(BestByTimeBinsSpec(a, count, total, []), a, b, count, total);
  }

  // ------------------------------------------------------------ interval mode

  predicate AtAnchorK(index: int, k: int, step: int) { Abs(index - k * step) <= Max(1, step / 2) }

  ghost predicate NearAnchor(s: seq<Frame>, k: int, step: int) {
    exists f :: f in s && AtAnchorK(f.index, k, step)
  }

  ghost predicate NearSomeAnchor(index: int, anchors: nat, step: int) {
    exists k :: 0 <= k < anchors && AtAnchorK(index, k, step)
  }

  lemma AnchorVisit(candidates: seq<Frame>, step: int, k: nat)
    requires step >= 1
    ensures var before, after := AnchorPass(candidates, step, k), AnchorPass(candidates, step, k + 1);
      || (after == before && (NearAnchor(candidates, k, step) ==> NearAnchor(before, k, step)))
      || (exists best :: best in candidates && AtAnchorK(best.index, k, step)
            && best.index !in Indices(before) && after == before + [best])
  {
    hide Best;
    var chosen := AnchorPass(candidates, step, k);
    var open := Untaken(candidates, Indices(chosen));
    var options := Near(open, k * step, Max(1, step / 2));
    UntakenMembers(candidates, Indices(chosen));
    NearMembers(open, k * step, Max(1, step / 2));
    if options != [] {
      BestIsBest(options, AtAnchor(k * step, step));
      assert AnchorPass(candidates, step, k + 1) == chosen + [Best(options, AtAnchor(k * step, step))];
    } else if NearAnchor(candidates, k, step) {
      var f :| f in candidates && AtAnchorK(f.index, k, step);
      assert f.index in Indices(chosen);
      var g :| g in chosen && g.index == f.index;
    }
  }

  lemma NearAnchorGrows(before: seq<Frame>, after: seq<Frame>, k: int, step: int)
    requires NearAnchor(before, k, step) && before <= after
    ensures NearAnchor(after, k, step)
  {
    var f :| f in before && AtAnchorK(f.index, k, step);
    assert f in after;
  }

  lemma AnchorPassGrows(candidates: seq<Frame>, step: int, k: nat)
    requires step >= 1
    ensures var before, after := AnchorPass(candidates, step, k), AnchorPass(candidates, step, k + 1);
      && Grows(before, after, candidates)
      && forall f :: f in after ==> f in before || NearSomeAnchor(f.index, k + 1, step)
  {
    hide AnchorPass, AtAnchorK;
    AnchorVisit(candidates, step, k);
  }

  lemma NothingAnchoredYet(candidates: seq<Frame>, step: int)
    requires step >= 1
    ensures AnchorPass(candidates, step, 0) == [] && Distinct([]) && DrawnFrom([], candidates)
  {
  }

  lemma NearSomeAnchorWidens(index: int, anchors: nat, step: int)
    requires NearSomeAnchor(index, anchors, step)
    ensures NearSomeAnchor(index, anchors + 1, step)
  {
    hide AtAnchorK;
  }

  // The interval mode chooses distinct candidates, each near an anchor ...
  lemma {:induction false} AnchorsDraw(candidates: seq<Frame>, step: int, anchors: nat)
    requires step >= 1
    ensures var r := AnchorPass(candidates, step, anchors);
      && Distinct(r) && DrawnFrom(r, candidates) && |r| <= anchors
      && (forall f :: f in r ==> NearSomeAnchor(f.index, anchors, step))
  {
    hide *;
    NothingAnchoredYet(candidates, step);
    if anchors > 0 {
      var before, after := AnchorPass(candidates, step, anchors - 1), AnchorPass(candidates, step, anchors);
      AnchorsDraw(candidates, step, anchors - 1);
      AnchorPassGrows(candidates, step, anchors - 1);
      GrowingDraws(before, after, candidates);
      forall f | f in before ensures NearSomeAnchor(f.index, anchors, step) {
        NearSomeAnchorWidens(f.index, anchors - 1, step);
      }
    }
  }

  // ... and serves every anchor that has a candidate near it.
  lemma {:induction false} AnchorsServed(candidates: seq<Frame>, step: int, anchors: nat, k: nat)
    requires step >= 1 && k < anchors && NearAnchor(candidates, k, step)
    ensures NearAnchor(AnchorPass(candidates, step, anchors), k, step)
  {
    hide AnchorPass, AtAnchorK, Indices;
    AnchorVisit(candidates, step, anchors - 1);
    var before, after := AnchorPass(candidates, step, anchors - 1), AnchorPass(candidates, step, anchors);
    if k < anchors - 1 {
      AnchorsServed(candidates, step, anchors - 1, k);
      NearAnchorGrows(before, after, k, step);
    } else if after != before {
      var best: Frame :| AtAnchorK(best.index, k, step) && after == before + [best];
      assert best in after;
    }
  }

  lemma AnchoredChoice(frames: seq<Frame>, probe: Probe, config: Config, requested: int)
    requires config.mode == Interval
    ensures var r := SelectSome(frames, probe, config, requested);
      var step := AnchorStep(probe, config);
      var anchors := AnchorCount(probe.totalFrames, step);
      && Increasing(r.selected)
      && (forall i :: i in r.selected ==> i in r.candidates && NearSomeAnchor(i, anchors, step))
      && |r.selected| <= anchors
  {
    hide AnchorPass, AtAnchorK, AnchorStep, AnchorCount, TwoPasses, SortByIndex, CandidateGoal;
    var step := AnchorStep(probe, config);
    StepIsPositive(probe, config);
    var candidates := CandidatePool(frames, probe.totalFrames, CandidateGoal(probe.totalFrames, requested));
    var chosen := AnchorPass(candidates, step, AnchorCount(probe.totalFrames, step));
    AnchorsDraw(candidates, step, AnchorCount(probe.totalFrames, step));
    SortedIndices(chosen);
    ListedIndices(candidates);
    SameMembers(IndexList(candidates), Indices(candidates));
    SameMembers(IndexList(SortByIndex(chosen)), Indices(chosen));
  }

  lemma StepIsPositive(probe: Probe, config: Config)
    ensures AnchorStep(probe, config) >= 1
  {
  }

  lemma IntervalSelection(frames: seq<Frame>, probe: Probe, config: Config, complexity: real)
    requires config.mode == Interval
    requires Select(frames, probe, config, complexity).Ok?
    ensures var r := Select(frames, probe, config, complexity).value;
      var step := AnchorStep(probe, config);
      var anchors := AnchorCount(probe.totalFrames, step);
      && Increasing(r.selected)
      && (forall i :: i in r.selected ==> i in r.candidates && NearSomeAnchor(i, anchors, step))
      && |r.selected| <= anchors
  {
    hide SelectSome, AnchorStep, AnchorCount, NearSomeAnchor;
    StepIsPositive(probe, config);
    AnchoredChoice(frames, probe, config, ValidateConfig(probe, config).value);
  }
}
