// The join of selected frames, extracted images, registered cameras and the cameras of
// the scene bundle: packages/quality/colmap.py (read_images_txt),
// apps/desktop/camera_timeline.py and the camera part of apps/desktop/viewer.py.
module CameraJoin {
  import opened Wrappers
  import opened FrameNames

  // ---------------------------------------------------------------- ordered sequences

  ghost predicate Ascending<T(!new)>(s: seq<T>, less: (T, T) -> bool) {
    forall i, j :: 0 <= i < j < |s| ==> less(s[i], s[j])
  }

  ghost predicate StrictOrder<T(!new)>(less: (T, T) -> bool) {
    (forall x, y :: less(x, y) ==> !less(y, x)) && (forall x, y, z :: less(x, y) && less(y, z) ==> less(x, z))
  }

  // The first elements agree, as neither can come after the other.
  lemma SameFirst<T(!new)>(a: seq<T>, b: seq<T>, less: (T, T) -> bool)
    requires StrictOrder(less) && Ascending(a, less) && Ascending(b, less) && a != [] && b != []
    requires a[0] in b && b[0] in a
    ensures a[0] == b[0]
  {
    var k :| 0 <= k < |b| && b[k] == a[0];
    var m :| 0 <= m < |a| && a[m] == b[0];
  }

  // An ascending sequence is determined by its elements.
  lemma {:induction false} AscendingUnique<T(!new)>(a: seq<T>, b: seq<T>, less: (T, T) -> bool)
    requires StrictOrder(less) && Ascending(a, less) && Ascending(b, less)
    requires forall x :: x in a <==> x in b
    ensures a == b
  {
    if a != [] && b != [] {
      SameFirst(a, b, less);
      TailElements(a, less);
      TailElements(b, less);
      AscendingUnique(a[1..], b[1..], less);
      assert a == [a[0]] + a[1..] && b == [b[0]] + b[1..];
    } else {
      SameEmptiness(a, b);
    }
  }

  lemma SameEmptiness<T(!new)>(a: seq<T>, b: seq<T>)
    requires forall x :: x in a <==> x in b
    ensures a == [] <==> b == []
  {
    if a != [] { assert a[0] in b; }
    if b != [] { assert b[0] in a; }
  }

  lemma TailElements<T(!new)>(a: seq<T>, less: (T, T) -> bool)
    requires StrictOrder(less) && Ascending(a, less) && a != []
    ensures Ascending(a[1..], less) && forall x :: x in a[1..] <==> x in a && x != a[0]
  {
    forall x | x in a && x != a[0] ensures x in a[1..] {
      var k :| 0 <= k < |a| && a[k] == x;
      assert a[1..][k - 1] == x;
    }
  }

  // A stable insertion sort, as sorted() and list.sort() specify.
  function Inserted<T>(x: T, s: seq<T>, less: (T, T) -> bool): seq<T> {
    if s == [] || less(x, s[0]) then [x] + s else [s[0]] + Inserted(x, s[1..], less)
  }

  function Sorted<T>(s: seq<T>, less: (T, T) -> bool): seq<T> {
    if s == [] then [] else Inserted(s[|s| - 1], Sorted(s[..|s| - 1], less), less)
  }

  ghost predicate Distinct<T(!new)>(s: seq<T>, less: (T, T) -> bool) {
    forall i, j :: 0 <= i < j < |s| ==> less(s[i], s[j]) || less(s[j], s[i])
  }

  lemma AscendingCons<T(!new)>(x: T, s: seq<T>, less: (T, T) -> bool)
    requires Ascending(s, less) && forall y :: y in s ==> less(x, y)
    ensures Ascending([x] + s, less)
  {
  }

  lemma {:induction false} InsertedElements<T>(x: T, s: seq<T>, less: (T, T) -> bool)
    ensures forall y :: y in Inserted(x, s, less) <==> y == x || y in s
    ensures multiset(Inserted(x, s, less)) == multiset(s) + multiset{x}
  {
    if s != [] && !less(x, s[0]) {
      InsertedElements(x, s[1..], less);
      assert s == [s[0]] + s[1..];
    }
  }

  lemma FirstIsLeast<T(!new)>(x: T, s: seq<T>, less: (T, T) -> bool)
    requires StrictOrder(less) && Ascending(s, less) && (s == [] || less(x, s[0]))
    ensures forall y :: y in s ==> less(x, y)
  {
    forall y | y in s ensures less(x, y) {
      var k :| 0 <= k < |s| && s[k] == y;
      assert k > 0 ==> less(s[0], s[k]);
    }
  }

  lemma {:induction false} InsertedAscends<T(!new)>(x: T, s: seq<T>, less: (T, T) -> bool)
    requires StrictOrder(less) && Ascending(s, less) && forall y :: y in s ==> less(x, y) || less(y, x)
    ensures Ascending(Inserted(x, s, less), less)
  {
    if s == [] || less(x, s[0]) {
      FirstIsLeast(x, s, less);
      AscendingCons(x, s, less);
    } else {
      hide StrictOrder;
      TailElements(s, less);
      InsertedAscends(x, s[1..], less);
      InsertedElements(x, s[1..], less);
      forall y | y in Inserted(x, s[1..], less) ensures less(s[0], y) {
        if y in s[1..] {
          var k :| 0 <= k < |s[1..]| && s[1..][k] == y;
          assert less(s[0], s[k + 1]);
        } else {
          assert s[0] in s;
        }
      }
      AscendingCons(s[0], Inserted(x, s[1..], less), less);
    }
  }

  lemma {:induction false} SortedElements<T>(s: seq<T>, less: (T, T) -> bool)
    ensures forall y :: y in Sorted(s, less) <==> y in s
    ensures multiset(Sorted(s, less)) == multiset(s) && |Sorted(s, less)| == |s|
  {
    if s != [] {
      var n := |s| - 1;
      SortedElements(s[..n], less);
      InsertedElements(s[n], Sorted(s[..n], less), less);
      assert s == s[..n] + [s[n]];
      assert |multiset(Sorted(s, less))| == |multiset(s)|;
    }
  }

  lemma {:induction false} SortedAscends<T(!new)>(s: seq<T>, less: (T, T) -> bool)
    requires StrictOrder(less) && Distinct(s, less)
    ensures Ascending(Sorted(s, less), less)
  {
    if s != [] {
      var n := |s| - 1;
      SortedAscends(s[..n], less);
      SortedElements(s[..n], less);
      forall y | y in Sorted(s[..n], less) ensures less(s[n], y) || less(y, s[n]) {
        var k :| 0 <= k < n && s[..n][k] == y;
        assert s[k] == y;
      }
      InsertedAscends(s[n], Sorted(s[..n], less), less);
    }
  }

  function Before(i: nat, j: nat): bool { i < j }

  lemma StringsAreOrdered()
    ensures StrictOrder(Less)
  {
    forall x, y | Less(x, y) ensures !Less(y, x) {
      if Less(y, x) {
        LessTransitive(x, y, x);
        LessIrreflexive(x);
      }
    }
    forall x, y, z | Less(x, y) && Less(y, z) ensures Less(x, z) {
      LessTransitive(x, y, z);
    }
  }

  // ---------------------------------------------------------------- read_images_txt

  datatype Pose = Pose(name: string, image: int, camera: int)

  // A stripped line: a comment, an empty one, or one that as a pose line reads as the
  // given pose or is malformed.
  datatype Line = Comment | Blank | Data(pose: Option<Pose>)

  datatype ImagesError = MalformedPose | MissingPoints | NoPoses | DuplicateNames

  datatype Scan = Scan(poses: seq<Pose>, expectPose: bool)

  // Pose lines and points lines alternate; blank lines are skipped only where a pose
  // is expected, comments everywhere.
  function Scanned(lines: seq<Line>): Result<Scan, ImagesError>
    decreases |lines|
  {
    if lines == [] then Ok(Scan([], true))
    else
      match Scanned(lines[..|lines| - 1])
      case Err(e) => Err(e)
      case Ok(s) =>
        var line := lines[|lines| - 1];
        if line.Comment? then Ok(s)
        else if !s.expectPose then Ok(Scan(s.poses, true))
        else if line.Blank? then Ok(s)
        else if line.pose.None? then Err(MalformedPose)
        else Ok(Scan(s.poses + [line.pose.value], false))
  }

  function ByName(p: Pose, q: Pose): bool { Less(p.name, q.name) }

  predicate DistinctNames(poses: seq<Pose>) {
    forall i, j :: 0 <= i < j < |poses| ==> poses[i].name != poses[j].name
  }

  function Images(lines: seq<Line>): Result<seq<Pose>, ImagesError> {
    match Scanned(lines)
    case Err(e) => Err(e)
    case Ok(s) =>
      if !s.expectPose then Err(MissingPoints)
      else if s.poses == [] then Err(NoPoses)
      else if !DistinctNames(s.poses) then Err(DuplicateNames)
      else Ok(Sorted(s.poses, ByName))
  }

  method ReadImages(lines: seq<Line>) returns (r: Result<seq<Pose>, ImagesError>)
    ensures r == Images(lines)
  {
    var poses: seq<Pose> := [];
    var expectPose := true;
    for k := 0 to |lines|
      invariant Scanned(lines[..k]) == Ok(Scan(poses, expectPose))
    {
      assert lines[..k + 1][..k] == lines[..k];
      var line := lines[k];
      if line.Comment? {
        continue;
      }
      if !expectPose {
        expectPose := true;
        continue;
      }
      if line.Blank? {
        continue;
      }
      if line.pose.None? {
        ErrorStays(lines, k + 1);
        return Err(MalformedPose);
      }
      poses, expectPose := poses + [line.pose.value], false;
    }
    assert lines[..|lines|] == lines;
    if !expectPose {
      return Err(MissingPoints);
    } else if poses == [] {
      return Err(NoPoses);
    } else if !DistinctNames(poses) {
      return Err(DuplicateNames);
    }
    r := Ok(Sorted(poses, ByName));
  }

  lemma {:induction false} ErrorStays(lines: seq<Line>, k: nat)
    requires k <= |lines| && Scanned(lines[..k]).Err?
    ensures Scanned(lines) == Scanned(lines[..k])
    decreases |lines|
  {
    if k == |lines| {
      assert lines[..k] == lines;
    } else {
      assert lines[..|lines| - 1][..k] == lines[..k];
      ErrorStays(lines[..|lines| - 1], k);
    }
  }

  lemma PosesAreOrdered(poses: seq<Pose>)
    ensures StrictOrder(ByName)
    ensures DistinctNames(poses) ==> Distinct(poses, ByName)
  {
    StringsAreOrdered();
    forall i, j | 0 <= i < j < |poses|
      ensures poses[i].name == poses[j].name || ByName(poses[i], poses[j]) || ByName(poses[j], poses[i])
    {
      LessTotal(poses[i].name, poses[j].name);
    }
  }

  // A file as COLMAP writes it: each pose followed by its points line, with comments
  // and blank lines before it.
  datatype Entry = Entry(before: seq<Line>, pose: Pose, points: Line)

  function Written(entries: seq<Entry>): seq<Line> {
    if entries == [] then []
    else
      var e := entries[|entries| - 1];
      Written(entries[..|entries| - 1]) + (e.before + [Data(Some(e.pose)), e.points])
  }

  function PosesOf(entries: seq<Entry>): seq<Pose> {
    if entries == [] then [] else PosesOf(entries[..|entries| - 1]) + [entries[|entries| - 1].pose]
  }

  ghost predicate WellWritten(entries: seq<Entry>) {
    forall e :: e in entries ==> !e.points.Comment? && forall line :: line in e.before ==> !line.Data?
  }

  lemma ScannedMore(lines: seq<Line>, line: Line)
    requires Scanned(lines).Ok?
    ensures var s := Scanned(lines).value;
      Scanned(lines + [line]) ==
        if line.Comment? then Ok(s)
        else if !s.expectPose then Ok(Scan(s.poses, true))
        else if line.Blank? then Ok(s)
        else if line.pose.None? then Err(MalformedPose)
        else Ok(Scan(s.poses + [line.pose.value], false))
  {
    assert (lines + [line])[..|lines|] == lines;
  }

  lemma {:induction false} SkipsBefore(lines: seq<Line>, before: seq<Line>)
    requires Scanned(lines).Ok? && Scanned(lines).value.expectPose
    requires forall line :: line in before ==> !line.Data?
    ensures Scanned(lines + before) == Scanned(lines)
    decreases |before|
  {
    if before == [] {
      assert lines + before == lines;
    } else {
      var n := |before| - 1;
      SkipsBefore(lines, before[..n]);
      ScannedMore(lines + before[..n], before[n]);
      assert lines + before == lines + before[..n] + [before[n]];
    }
  }

  lemma {:induction false} ScannedBack(entries: seq<Entry>)
    requires WellWritten(entries)
    ensures Scanned(Written(entries)) == Ok(Scan(PosesOf(entries), true))
  {
    if entries != [] {
      var n := |entries| - 1;
      var e, lines := entries[n], Written(entries[..n]);
      ScannedBack(entries[..n]);
      SkipsBefore(lines, e.before);
      ScannedMore(lines + e.before, Data(Some(e.pose)));
      ScannedMore(lines + e.before + [Data(Some(e.pose))], e.points);
      assert Written(entries) == lines + e.before + [Data(Some(e.pose))] + [e.points];
    }
  }

  // Reading a written file gives back its poses, sorted by name; it fails exactly when
  // there are none or two have one name.
  lemma ReadBack(entries: seq<Entry>)
    requires WellWritten(entries)
    ensures Images(Written(entries)).Ok? <==> entries != [] && DistinctNames(PosesOf(entries))
    ensures Images(Written(entries)).Ok? ==>
      var poses := Images(Written(entries)).value;
      multiset(poses) == multiset(PosesOf(entries)) && Ascending(poses, ByName)
  {
    ScannedBack(entries);
    PosesAreOrdered(PosesOf(entries));
    if DistinctNames(PosesOf(entries)) {
      SortedAscends(PosesOf(entries), ByName);
      SortedElements(PosesOf(entries), ByName);
    }
  }

  // ------------------------------------------------------------ build_camera_timeline

  // `order` is the position among the selected frames, `pose` the registered camera.
  datatype Record = Record(index: nat, order: Option<nat>, pose: Option<Pose>)

  // The position of the last occurrence, as the dictionary of positions keeps it.
  function OrderOf(selected: seq<nat>, index: nat): Option<nat>
    decreases |selected|
  {
    if selected == [] then None
    else if selected[|selected| - 1] == index then Some(|selected| - 1)
    else OrderOf(selected[..|selected| - 1], index)
  }

  function PoseNamed(poses: seq<Pose>, name: string): Option<Pose>
    decreases |poses|
  {
    if poses == [] then None
    else if poses[|poses| - 1].name == name then Some(poses[|poses| - 1])
    else PoseNamed(poses[..|poses| - 1], name)
  }

  function RecordOf(index: nat, selected: seq<nat>, extracted: set<nat>, poses: seq<Pose>): Record {
    var order := OrderOf(selected, index);
    Record(index, order, if order.Some? && index in extracted then PoseNamed(poses, FrameName(index)) else None)
  }

  // The keys of the dictionary of records: those of the sampling timeline, then the
  // selected frames that are not among them.
  function Keys(indices: seq<nat>): seq<nat> {
    if indices == [] then []
    else
      var front, last := Keys(indices[..|indices| - 1]), indices[|indices| - 1];
      if last in front then front else front + [last]
  }

  function RecordsOf(keys: seq<nat>, selected: seq<nat>, extracted: set<nat>, poses: seq<Pose>): seq<Record> {
    if keys == [] then []
    else
      RecordsOf(keys[..|keys| - 1], selected, extracted, poses)
      + [RecordOf(keys[|keys| - 1], selected, extracted, poses)]
  }

  function Timeline(selected: seq<nat>, recorded: seq<nat>, extracted: set<nat>, poses: seq<Pose>): seq<Record> {
    RecordsOf(Sorted(Keys(recorded + selected), Before), selected, extracted, poses)
  }

  // `extracted` are the frames whose image file exists.
  method BuildTimeline(selected: seq<nat>, recorded: seq<nat>, extracted: set<nat>, poses: seq<Pose>)
    returns (timeline: seq<Record>)
    ensures timeline == Timeline(selected, recorded, extracted, poses)
  {
    var keys: seq<nat> := [];
    for k := 0 to |recorded|
      invariant keys == Keys(recorded[..k])
    {
      assert recorded[..k + 1][..k] == recorded[..k];
      if recorded[k] !in keys {
        keys := keys + [recorded[k]];
      }
    }
    assert recorded[..|recorded|] == recorded == recorded + selected[..0];
    for k := 0 to |selected|
      invariant keys == Keys(recorded + selected[..k])
    {
      assert (recorded + selected[..k + 1])[..|recorded| + k] == recorded + selected[..k];
      if selected[k] !in keys {
        keys := keys + [selected[k]];
      }
    }
    assert selected[..|selected|] == selected;
    var sorted := Sorted(keys, Before);
    timeline := [];
    for k := 0 to |sorted|
      invariant timeline == RecordsOf(sorted[..k], selected, extracted, poses)
    {
      assert sorted[..k + 1][..k] == sorted[..k];
      timeline := timeline + [RecordOf(sorted[k], selected, extracted, poses)];
    }
    assert sorted[..|sorted|] == sorted;
  }

  // ----------------------------------------------------------------- load_viewer_scene

  datatype Joined<C> = Joined(index: nat, order: nat, camera: C)

  datatype JoinError = CountMismatch

  // Records without an order never come into it.
  function ByOrder(x: Record, y: Record): bool { x.order.Some? && y.order.Some? && x.order.value < y.order.value }

  // The registered records of a timeline.
  function Kept(timeline: seq<Record>): seq<Record> {
    if timeline == [] then []
    else
      var last := timeline[|timeline| - 1];
      Kept(timeline[..|timeline| - 1]) + if last.pose.Some? then [last] else []
  }

  // The registered records by selected order, each with the camera at its position;
  // nothing at all if no record is registered.
  function Joining<C>(kept: seq<Record>, cameras: seq<C>): seq<Joined<C>>
    requires |kept| <= |cameras| && forall x :: x in kept ==> x.order.Some?
  {
    if kept == [] then []
    else
      var n := |kept| - 1;
      assert kept[n] in kept;
      Joining(kept[..n], cameras) + [Joined(kept[n].index, kept[n].order.value, cameras[n])]
  }

  method JoinCameras<C>(timeline: seq<Record>, cameras: seq<C>) returns (r: Result<seq<Joined<C>>, JoinError>)
    requires forall x :: x in timeline && x.pose.Some? ==> x.order.Some?
    ensures var kept := Sorted(Kept(timeline), ByOrder);
      && (forall x :: x in kept ==> x.order.Some?)
      && r == if kept != [] && |kept| != |cameras| then Err(CountMismatch) else Ok(Joining(kept, cameras))
  {
    hide Sorted;
    var joined: seq<Record> := [];
    for k := 0 to |timeline|
      invariant joined == Kept(timeline[..k])
    {
      assert timeline[..k + 1][..k] == timeline[..k];
      if timeline[k].pose.Some? {
        joined := joined + [timeline[k]];
      }
    }
    assert timeline[..|timeline|] == timeline;
    KeptElements(timeline);
    SortedElements(joined, ByOrder);
    var kept := Sorted(joined, ByOrder);
    if kept != [] && |kept| != |cameras| {
      return Err(CountMismatch);
    }
    var normalized: seq<Joined<C>> := [];
    for i := 0 to |kept|
      invariant normalized == Joining(kept[..i], cameras)
    {
      assert kept[i] in kept && kept[..i + 1][..i] == kept[..i];
      normalized := normalized + [Joined(kept[i].index, kept[i].order.value, cameras[i])];
    }
    assert kept[..|kept|] == kept;
    r := Ok(normalized);
  }

  lemma {:induction false} KeptElements(timeline: seq<Record>)
    ensures forall x :: x in Kept(timeline) <==> x in timeline && x.pose.Some?
  {
    if timeline != [] {
      var n := |timeline| - 1;
      KeptElements(timeline[..n]);
      assert timeline == timeline[..n] + [timeline[n]];
    }
  }

  // ---------------------------------------------------------------------- the pairing

  // The records that the viewer pairs with the cameras of the bundle. Camera i of the
  // bundle comes from pose i of the same images file.
  function Paired(selected: seq<nat>, recorded: seq<nat>, extracted: set<nat>, poses: seq<Pose>): seq<Record> {
    Sorted(Kept(Timeline(selected, recorded, extracted, poses)), ByOrder)
  }

  function FrameNamesOf(records: seq<Record>): (names: seq<string>)
    ensures |names| == |records| && forall i :: 0 <= i < |records| ==> names[i] == FrameName(records[i].index)
  {
    if records == [] then [] else [FrameName(records[0].index)] + FrameNamesOf(records[1..])
  }

  function PoseNames(poses: seq<Pose>): (names: seq<string>)
    ensures |names| == |poses| && forall i :: 0 <= i < |poses| ==> names[i] == poses[i].name
  {
    if poses == [] then [] else [poses[0].name] + PoseNames(poses[1..])
  }

  lemma {:induction false} OrderOfIs(selected: seq<nat>, index: nat)
    ensures OrderOf(selected, index).Some? ==>
      OrderOf(selected, index).value < |selected| && selected[OrderOf(selected, index).value] == index
    decreases |selected|
  {
    if selected != [] && selected[|selected| - 1] != index {
      OrderOfIs(selected[..|selected| - 1], index);
    }
  }

  lemma {:induction false} PoseNamedIs(poses: seq<Pose>, name: string)
    ensures PoseNamed(poses, name).Some? ==>
      PoseNamed(poses, name).value in poses && PoseNamed(poses, name).value.name == name
    decreases |poses|
  {
    if poses != [] && poses[|poses| - 1].name != name {
      PoseNamedIs(poses[..|poses| - 1], name);
    }
  }

  lemma {:induction false} KeysOf(indices: seq<nat>)
    ensures forall i, j :: 0 <= i < j < |Keys(indices)| ==> Keys(indices)[i] != Keys(indices)[j]
  {
    if indices != [] {
      KeysOf(indices[..|indices| - 1]);
    }
  }

  lemma {:induction false} RecordsOfAscend(keys: seq<nat>, selected: seq<nat>, extracted: set<nat>, poses: seq<Pose>)
    requires Ascending(keys, Before)
    ensures var t := RecordsOf(keys, selected, extracted, poses);
      && |t| == |keys|
      && forall i :: 0 <= i < |t| ==> t[i] == RecordOf(keys[i], selected, extracted, poses)
    decreases |keys|
  {
    if keys != [] {
      RecordsOfAscend(keys[..|keys| - 1], selected, extracted, poses);
    }
  }

  ghost predicate IndexAscending(t: seq<Record>) { forall i, j :: 0 <= i < j < |t| ==> t[i].index < t[j].index }

  lemma TimelineAscends(selected: seq<nat>, recorded: seq<nat>, extracted: set<nat>, poses: seq<Pose>)
    ensures var t := Timeline(selected, recorded, extracted, poses);
      && IndexAscending(t)
      && forall x :: x in t ==> x == RecordOf(x.index, selected, extracted, poses)
  {
    var keys := Keys(recorded + selected);
    KeysOf(recorded + selected);
    SortedAscends(keys, Before);
    SortedElements(keys, Before);
    var sorted := Sorted(keys, Before);
    RecordsOfAscend(sorted, selected, extracted, poses);
    hide Sorted, RecordsOf;
    var t := Timeline(selected, recorded, extracted, poses);
    forall i, j | 0 <= i < j < |t| ensures t[i].index < t[j].index {
      assert Before(sorted[i], sorted[j]);
    }
  }

  lemma {:induction false} KeptAscends(t: seq<Record>)
    requires IndexAscending(t)
    ensures IndexAscending(Kept(t))
  {
    if t != [] {
      var n := |t| - 1;
      KeptAscends(t[..n]);
      KeptElements(t[..n]);
      forall x | x in Kept(t[..n]) ensures x.index < t[n].index {
        assert x in t[..n];
      }
    }
  }

  // Strictly increasing selections: the records come by frame index as well.
  lemma PairedFacts(selected: seq<nat>, recorded: seq<nat>, extracted: set<nat>, poses: seq<Pose>)
    requires Ascending(selected, Before)
    ensures var kept := Paired(selected, recorded, extracted, poses);
      && IndexAscending(kept)
      && forall x :: x in kept ==>
           && x.order.Some? && x.index in selected && x.index in extracted
           && x.pose.Some? && x.pose.value in poses && x.pose.value.name == FrameName(x.index)
  {
    var t := Timeline(selected, recorded, extracted, poses);
    TimelineAscends(selected, recorded, extracted, poses);
    KeptAscends(t);
    KeptElements(t);
    hide Timeline, Kept, Sorted, OrderOf, PoseNamed;
    forall x | x in Kept(t)
      ensures x.order.Some? && x.order.value < |selected| && selected[x.order.value] == x.index && x.index in extracted
      ensures x.pose.Some? && x.pose.value in poses && x.pose.value.name == FrameName(x.index)
    {
      OrderOfIs(selected, x.index);
      PoseNamedIs(poses, FrameName(x.index));
    }
    OrderIsIndex(selected, Kept(t));
  }

  lemma SelectedOrder(selected: seq<nat>, a: nat, b: nat)
    requires Ascending(selected, Before) && a < |selected| && b < |selected|
    ensures a < b <==> selected[a] < selected[b]
  {
    if a < b {
      assert Before(selected[a], selected[b]);
    } else if b < a {
      assert Before(selected[b], selected[a]);
    }
  }

  lemma OrderIsIndex(selected: seq<nat>, kept: seq<Record>)
    requires Ascending(selected, Before) && IndexAscending(kept)
    requires forall x :: x in kept ==> x.order.Some? && x.order.value < |selected| && selected[x.order.value] == x.index
    ensures IndexAscending(Sorted(kept, ByOrder)) && forall x :: x in Sorted(kept, ByOrder) <==> x in kept
  {
    SortedElements(kept, ByOrder);
    forall i, j | 0 <= i < j < |kept| ensures ByOrder(kept[i], kept[j]) {
      assert kept[i] in kept && kept[j] in kept;
      SelectedOrder(selected, kept[i].order.value, kept[j].order.value);
    }
    assert StrictOrder(ByOrder);
    SortedAscends(kept, ByOrder);
    var s := Sorted(kept, ByOrder);
    forall i, j | 0 <= i < j < |s| ensures s[i].index < s[j].index {
      assert ByOrder(s[i], s[j]) && s[i] in s && s[j] in s;
      SelectedOrder(selected, s[i].order.value, s[j].order.value);
    }
  }

  lemma SameSize(a: set<string>, b: set<string>)
    requires a <= b && |a| == |b|
    ensures a == b
  {
    assert b == a + (b - a);
  }

  lemma AscendingDiffer(names: seq<string>)
    requires Ascending(names, Less)
    ensures forall i, j :: 0 <= i < j < |names| ==> names[i] != names[j]
  {
    forall i, j | 0 <= i < j < |names| ensures names[i] != names[j] {
      LessIrreflexive(names[i]);
      assert Less(names[i], names[j]);
    }
  }

  // Ascending names drawn from as many ascending names are those names.
  lemma AllNamesUsed(names: seq<string>, among: seq<string>)
    requires Ascending(names, Less) && Ascending(among, Less) && |names| == |among|
    requires forall x :: x in names ==> x in among
    ensures names == among
  {
    StringsAreOrdered();
    AscendingDiffer(names);
    AscendingDiffer(among);
    DistinctSize(names);
    DistinctSize(among);
    var a, b := set x | x in names, set x | x in among;
    SameSize(a, b);
    forall x | x in among ensures x in names {
      assert x in b;
    }
    AscendingUnique(names, among, Less);
  }

  lemma FrameNamesAscend(kept: seq<Record>)
    requires IndexAscending(kept)
    ensures Ascending(FrameNamesOf(kept), Less) <==> AllAgree(kept)
  {
    hide OrderAgrees, FrameName, Less;
    var names := FrameNamesOf(kept);
    forall i, j | 0 <= i < j < |kept| ensures Less(names[i], names[j]) <==> OrderAgrees(kept[i].index, kept[j].index) {
      NameOrder(kept[i].index, kept[j].index);
    }
  }

  lemma PoseNamesAscend(poses: seq<Pose>)
    requires Ascending(poses, ByName)
    ensures Ascending(PoseNames(poses), Less)
  {
    forall i, j | 0 <= i < j < |poses| ensures Less(PoseNames(poses)[i], PoseNames(poses)[j]) {
      assert ByName(poses[i], poses[j]);
    }
  }

  lemma NamesAmongPoses(kept: seq<Record>, poses: seq<Pose>)
    requires forall x :: x in kept ==> x.pose.Some? && x.pose.value in poses && x.pose.value.name == FrameName(x.index)
    ensures forall x :: x in FrameNamesOf(kept) ==> x in PoseNames(poses)
  {
    hide FrameName;
    forall x | x in FrameNamesOf(kept) ensures x in PoseNames(poses) {
      var i :| 0 <= i < |kept| && FrameNamesOf(kept)[i] == x;
      assert kept[i] in kept;
      var k :| 0 <= k < |poses| && poses[k] == kept[i].pose.value;
      assert PoseNames(poses)[k] == x;
    }
  }

  // The i-th record belongs to the i-th pose.
  ghost predicate Aligned(kept: seq<Record>, poses: seq<Pose>) {
    |kept| == |poses| && forall i :: 0 <= i < |kept| ==> FrameName(kept[i].index) == poses[i].name
  }

  ghost predicate AllAgree(kept: seq<Record>) {
    forall i, j :: 0 <= i < j < |kept| ==> OrderAgrees(kept[i].index, kept[j].index)
  }

  lemma AlignedNames(kept: seq<Record>, poses: seq<Pose>)
    ensures Aligned(kept, poses) <==> FrameNamesOf(kept) == PoseNames(poses)
  {
    hide FrameName;
    var names, among := FrameNamesOf(kept), PoseNames(poses);
    assert forall i :: 0 <= i < |kept| ==> names[i] == FrameName(kept[i].index);
    assert forall i :: 0 <= i < |poses| ==> among[i] == poses[i].name;
  }

  // If as many records are registered as there are poses, the i-th record by selected
  // order has the image name of the i-th pose by name, for all i, exactly when the
  // names of the registered frames are ordered as the frames.
  lemma PairingIsCorrectExactly(selected: seq<nat>, recorded: seq<nat>, extracted: set<nat>, poses: seq<Pose>)
    requires Ascending(selected, Before) && Ascending(poses, ByName)
    requires |Paired(selected, recorded, extracted, poses)| == |poses|
    ensures var kept := Paired(selected, recorded, extracted, poses); Aligned(kept, poses) <==> AllAgree(kept)
  {
    var kept := Paired(selected, recorded, extracted, poses);
    hide Paired, OrderAgrees, FrameName, Less, Aligned, AllAgree;
    PairedFacts(selected, recorded, extracted, poses);
    FrameNamesAscend(kept);
    PoseNamesAscend(poses);
    NamesAmongPoses(kept, poses);
    SameExactly(FrameNamesOf(kept), PoseNames(poses));
    AlignedNames(kept, poses);
  }

  lemma SameExactly(names: seq<string>, among: seq<string>)
    requires Ascending(among, Less) && |names| == |among| && forall x :: x in names ==> x in among
    ensures names == among <==> Ascending(names, Less)
  {
    if Ascending(names, Less) {
      AllNamesUsed(names, among);
    }
  }

  // Below a million frames the pairing is correct, whatever subset is registered: each
  // record is joined with its own camera.
  lemma PairingBelowMillion(selected: seq<nat>, recorded: seq<nat>, extracted: set<nat>, poses: seq<Pose>)
    requires Ascending(selected, Before) && Ascending(poses, ByName)
    requires forall s :: s in selected ==> s < 1000000
    requires |Paired(selected, recorded, extracted, poses)| == |poses|
    ensures forall i :: 0 <= i < |poses| ==>
      var x := Paired(selected, recorded, extracted, poses)[i];
      FrameName(x.index) == poses[i].name && x.pose == Some(poses[i])
  {
    var kept := Paired(selected, recorded, extracted, poses);
    PairedFacts(selected, recorded, extracted, poses);
    hide Paired, FrameName, Less, OrderAgrees;
    forall i, j | 0 <= i < j < |kept| ensures OrderAgrees(kept[i].index, kept[j].index) {
      assert kept[i] in kept && kept[j] in kept;
      OrderBelowMillion(kept[i].index, kept[j].index);
      NameOrder(kept[i].index, kept[j].index);
    }
    PairingIsCorrectExactly(selected, recorded, extracted, poses);
    forall i | 0 <= i < |poses| ensures FrameName(kept[i].index) == poses[i].name && kept[i].pose == Some(poses[i]) {
      assert kept[i] in kept;
      OnePoseByName(poses, kept[i].pose.value, i);
    }
  }

  lemma OnePoseByName(poses: seq<Pose>, p: Pose, i: nat)
    requires Ascending(poses, ByName) && i < |poses| && p in poses && p.name == poses[i].name
    ensures p == poses[i]
  {
    var k :| 0 <= k < |poses| && poses[k] == p;
    LessIrreflexive(p.name);
    assert k < i ==> ByName(poses[k], poses[i]);
    assert i < k ==> ByName(poses[i], poses[k]);
  }

  // ------------------------------------------------------------------- from end to end

  datatype AttachError = Unreadable(why: ImagesError) | Mismatch

  function CamerasOf<C>(poses: seq<Pose>, cameraOf: Pose -> C): (cameras: seq<C>)
    ensures |cameras| == |poses| && forall i :: 0 <= i < |poses| ==> cameras[i] == cameraOf(poses[i])
  {
    if poses == [] then [] else [cameraOf(poses[0])] + CamerasOf(poses[1..], cameraOf)
  }

  lemma ImagesAscend(lines: seq<Line>)
    requires Images(lines).Ok?
    ensures Ascending(Images(lines).value, ByName)
  {
    var poses := Scanned(lines).value.poses;
    PosesAreOrdered(poses);
    SortedAscends(poses, ByName);
  }

  lemma {:induction false} JoiningIs<C>(kept: seq<Record>, cameras: seq<C>)
    requires |kept| <= |cameras| && forall x :: x in kept ==> x.order.Some?
    ensures |Joining(kept, cameras)| == |kept|
    ensures forall i :: 0 <= i < |kept| ==>
      Joining(kept, cameras)[i].index == kept[i].index && Joining(kept, cameras)[i].camera == cameras[i]
  {
    if kept != [] {
      JoiningIs(kept[..|kept| - 1], cameras);
    }
  }

  // The training worker and the timeline read the same images file; `cameraOf` is what
  // the worker makes of a pose. Whenever the viewer does not refuse the join, every
  // frame gets the camera of the pose that bears its own image name.
  method AttachCameras<C>(selected: seq<nat>, recorded: seq<nat>, extracted: set<nat>, lines: seq<Line>,
                          cameraOf: Pose -> C)
    returns (r: Result<seq<Joined<C>>, AttachError>)
    requires Ascending(selected, Before) && forall s :: s in selected ==> s < 1000000
    ensures Images(lines).Err? ==> r == Err(Unreadable(Images(lines).error))
    ensures r.Ok? ==> forall k :: 0 <= k < |r.value| ==>
      var x := r.value[k];
      && x.index in selected && x.index in extracted
      && exists p :: p in Images(lines).value && p.name == FrameName(x.index) && x.camera == cameraOf(p)
    ensures r.Ok? && r.value != [] ==> |r.value| == |Images(lines).value|
  {
    hide *;
    var images := ReadImages(lines);
    if images.Err? {
      return Err(Unreadable(images.error));
    }
    var poses := images.value;
    var timeline := BuildTimeline(selected, recorded, extracted, poses);
    TimelineJoins(selected, recorded, extracted, poses);
    var joined := JoinCameras(timeline, CamerasOf(poses, cameraOf));
    if joined.Err? {
      return Err(Mismatch);
    }
    ImagesAscend(lines);
    AttachedRight(selected, recorded, extracted, poses, cameraOf);
    r := Ok(joined.value);
  }

  lemma TimelineJoins(selected: seq<nat>, recorded: seq<nat>, extracted: set<nat>, poses: seq<Pose>)
    ensures forall x :: x in Timeline(selected, recorded, extracted, poses) && x.pose.Some? ==> x.order.Some?
  {
    hide Timeline;
    TimelineAscends(selected, recorded, extracted, poses);
  }

  lemma AttachedRight<C>(selected: seq<nat>, recorded: seq<nat>, extracted: set<nat>, poses: seq<Pose>,
                         cameraOf: Pose -> C)
    requires Ascending(selected, Before) && Ascending(poses, ByName) && forall s :: s in selected ==> s < 1000000
    ensures var kept := Sorted(Kept(Timeline(selected, recorded, extracted, poses)), ByOrder);
      (|kept| == |poses| || kept == []) && (forall x :: x in kept ==> x.order.Some?) ==>
        var joined := Joining(kept, CamerasOf(poses, cameraOf));
        && |joined| == |kept|
        && forall k :: 0 <= k < |joined| ==>
             && joined[k].index in selected && joined[k].index in extracted
             && exists p :: p in poses && p.name == FrameName(joined[k].index) && joined[k].camera == cameraOf(p)
  {
    var kept := Paired(selected, recorded, extracted, poses);
    hide Timeline, Kept, Sorted, FrameName, Joining, Ascending;
    PairedFacts(selected, recorded, extracted, poses);
    if |kept| == |poses| {
      PairingBelowMillion(selected, recorded, extracted, poses);
      JoiningIs(kept, CamerasOf(poses, cameraOf));
      var joined := Joining(kept, CamerasOf(poses, cameraOf));
      forall k | 0 <= k < |joined|
        ensures joined[k].index in selected && joined[k].index in extracted
        ensures exists p :: p in poses && p.name == FrameName(joined[k].index) && joined[k].camera == cameraOf(p)
      {
        assert kept[k] in kept && poses[k] in poses;
      }
    } else if kept == [] {
      JoiningIs(kept, CamerasOf(poses, cameraOf));
    }
  }
}
