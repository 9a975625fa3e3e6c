/** Where the store's assumptions bite, exactly: which reads survive a migration that
    goes on while they fetch the segments they listed, and which reused segment ids
    lose data sooner or later. */
module TieredLimits {
  import opened Options
  import opened TieredStore
  import opened TieredHistory

  // --- reading a list of segments whatever they hold now -------------------------------------

  /** If each listed segment yields its batch and the others have nothing in the range,
      reading yields the in-range events of all batches. */
  lemma {:induction false} ReadsContents(t: State, segs: seq<Segment>, log: seq<Batch>, start: int, end: int)
    requires |segs| == |log|
    requires forall j | 0 <= j < |log| :: Yields(t, segs[j], log[j], start, end)
    ensures ReadAll(t, Overlapping(segs, start, end), start, end) == Some(InRange(AllEvents(log), start, end))
  {
    hide *;
    if log == [] {
      NothingRead(t, start, end);
    } else {
      var n := |log| - 1;
      assert forall j | 0 <= j < n :: segs[..n][j] == segs[j] && log[..n][j] == log[j];
      ReadsContents(t, segs[..n], log[..n], start, end);
      assert segs == segs[..n] + [segs[n]];
      AddsBatch(t, segs[..n], segs[n], log, start, end);
    }
  }

  /** What reading a range gets from one segment is its batch's in-range events. */
  ghost predicate Yields(t: State, seg: Segment, batch: Batch, start: int, end: int) {
    if Overlaps(seg, start, end) then Content(t, seg) == Some(batch.events) else InRange(batch.events, start, end) == []
  }

  lemma AddsBatch(t: State, segs: seq<Segment>, seg: Segment, log: seq<Batch>, start: int, end: int)
    requires log != [] && Yields(t, seg, log[|log| - 1], start, end)
    requires ReadAll(t, Overlapping(segs, start, end), start, end) ==
               Some(InRange(AllEvents(log[..|log| - 1]), start, end))
    ensures ReadAll(t, Overlapping(segs + [seg], start, end), start, end) == Some(InRange(AllEvents(log), start, end))
  {
    var listed := Overlapping(segs, start, end);
    OverlappingLast(segs, seg, start, end);
    InRangeJoin(AllEvents(log[..|log| - 1]), log[|log| - 1].events, start, end);
    assert listed + [] == listed;
    hide InRange, ReadAll, Overlapping, Content, Overlaps;
    if Overlaps(seg, start, end) {
      ReadsLast(t, listed, seg, start, end);
    }
  }

  lemma {:induction false} ListedExactly(segs: seq<Segment>, start: int, end: int, seg: Segment)
    ensures seg in Overlapping(segs, start, end) <==> seg in segs && Overlaps(seg, start, end)
  {
    if segs != [] {
      assert segs == [segs[0]] + segs[1..];
      ListedExactly(segs[1..], start, end, seg);
    }
  }

  /** One unreadable listed segment fails the whole read. */
  lemma OneMissingFails(t: State, segs: seq<Segment>, i: nat, start: int, end: int)
    requires i < |segs| && Overlaps(segs[i], start, end) && Content(t, segs[i]).None?
    ensures ReadAll(t, Overlapping(segs, start, end), start, end).None?
  {
    ListedExactly(segs, start, end, segs[i]);
    var listed := Overlapping(segs, start, end);
    var k :| 0 <= k < |listed| && listed[k] == segs[i];
    hide Overlapping, Content;
    ReadNext(t, listed, k, start, end);
    FailedFor(t, listed, k + 1, start, end);
  }

  // --- reads while a migration goes on --------------------------------------------------------------

  /** The state after so many steps of a migration; each segment takes three. */
  function Midway(s: State, aged: seq<Segment>, steps: nat): (r: State)
    requires s.archive.Some?
    ensures r.archive.Some?
    decreases |aged|
  {
    if steps == 0 || aged == [] || aged[0].path !in s.files then s
    else if steps == 1 then Archived(s, aged[0])
    else if steps == 2 then Pointed(Archived(s, aged[0]), aged[0])
    else Midway(MovedOne(s, aged[0]), aged[1..], steps - 3)
  }

  /** The segments whose local files are gone by then. */
  function Gone(aged: seq<Segment>, steps: nat): seq<Segment> {
    if steps / 3 >= |aged| then aged else aged[..steps / 3]
  }

  /** A read that fetches the k-th listed segment after `fetched[k]` steps. */
  function ReadThrough(s: State, aged: seq<Segment>, listed: seq<Segment>, fetched: seq<nat>, start: int, end: int)
    : Option<seq<Event>>
    requires s.archive.Some? && |fetched| == |listed|
  {
    if listed == [] then Some([])
    else
      var n := |listed| - 1;
      match ReadThrough(s, aged, listed[..n], fetched[..n], start, end)
      case None => None
      case Some(events) =>
        match Content(Midway(s, aged, fetched[n]), listed[n])
        case None => None
        case Some(more) => Some(events + InRange(more, start, end))
  }

  function PathsIn(segs: seq<Segment>): set<string> {
    set i | 0 <= i < |segs| :: segs[i].path
  }

  function KeysFor(cfg: Config, segs: seq<Segment>): set<string> {
    set i | 0 <= i < |segs| :: ColdKey(cfg, segs[i].id)
  }

  /** All a migration has done to files and objects: the local files gone are those of
      `gone`, and only keys of the aged segments are written. */
  ghost predicate Moved(s: State, s': State, aged: seq<Segment>, gone: seq<Segment>) {
    && s.archive.Some? && s'.archive.Some? && s'.cfg == s.cfg
    && s'.files == s.files - PathsIn(gone)
    && (forall k | k !in KeysFor(s.cfg, aged) :: SameObject(s.archive.value, s'.archive.value, k))
  }

  ghost predicate SameObject(a: Files, b: Files, k: string) {
    (k in a <==> k in b) && (k in a && k in b ==> a[k] == b[k])
  }

  lemma MovedFirst(s: State, s1: State, s2: State, aged: seq<Segment>, gone: seq<Segment>)
    requires aged != [] && s.archive.Some? && aged[0].path in s.files && s1 == MovedOne(s, aged[0])
    requires Moved(s1, s2, aged[1..], gone)
    ensures Moved(s, s2, aged, [aged[0]] + gone)
  {
    hide ColdKey, Repointed;
    assert PathsIn([aged[0]] + gone) == {aged[0].path} + PathsIn(gone) by { FirstPath([aged[0]] + gone); }
    assert KeysFor(s.cfg, aged) == {ColdKey(s.cfg, aged[0].id)} + KeysFor(s.cfg, aged[1..])
      by { FirstKey(s.cfg, aged); }
    hide PathsIn, KeysFor;
    forall k | k !in KeysFor(s.cfg, aged) ensures SameObject(s.archive.value, s2.archive.value, k) {
      assert SameObject(s1.archive.value, s2.archive.value, k);
    }
  }

  lemma FirstPath(segs: seq<Segment>)
    requires segs != []
    ensures PathsIn(segs) == {segs[0].path} + PathsIn(segs[1..])
  {
    var rest := segs[1..];
    forall p | p in PathsIn(segs) ensures p in {segs[0].path} + PathsIn(rest) {
      var i :| 0 <= i < |segs| && segs[i].path == p;
      if i > 0 {
        assert rest[i - 1].path == p;
      }
    }
    forall p | p in PathsIn(rest) ensures p in PathsIn(segs) {
      var i :| 0 <= i < |rest| && rest[i].path == p;
      assert segs[i + 1].path == p;
    }
  }

  lemma FirstKey(cfg: Config, segs: seq<Segment>)
    requires segs != []
    ensures KeysFor(cfg, segs) == {ColdKey(cfg, segs[0].id)} + KeysFor(cfg, segs[1..])
  {
    hide ColdKey;
    var rest := segs[1..];
    forall p | p in KeysFor(cfg, segs) ensures p in {ColdKey(cfg, segs[0].id)} + KeysFor(cfg, rest) {
      var i :| 0 <= i < |segs| && ColdKey(cfg, segs[i].id) == p;
      if i > 0 {
        assert ColdKey(cfg, rest[i - 1].id) == p;
      }
    }
    forall p | p in KeysFor(cfg, rest) ensures p in KeysFor(cfg, segs) {
      var i :| 0 <= i < |rest| && ColdKey(cfg, rest[i].id) == p;
      assert ColdKey(cfg, segs[i + 1].id) == p;
    }
  }

  lemma NothingMoved(s: State, aged: seq<Segment>)
    requires s.archive.Some?
    ensures Moved(s, s, aged, [])
  {
    assert s.files - PathsIn([]) == s.files;
  }

  /** Before its file is unlinked a segment loses nothing. */
  lemma MovingFirst(s: State, aged: seq<Segment>)
    requires aged != [] && s.archive.Some? && aged[0].path in s.files
    ensures Moved(s, Archived(s, aged[0]), aged, [])
    ensures Moved(s, Pointed(Archived(s, aged[0]), aged[0]), aged, [])
  {
    assert s.files - PathsIn([]) == s.files;
    assert ColdKey(s.cfg, aged[0].id) in KeysFor(s.cfg, aged);
    hide ColdKey, Repointed, KeysFor;
  }

  lemma GoneNext(aged: seq<Segment>, steps: nat)
    requires aged != [] && steps >= 3
    ensures Gone(aged, steps) == [aged[0]] + Gone(aged[1..], steps - 3)
  {
  }

  lemma GoneIsPrefix(aged: seq<Segment>, steps: nat)
    ensures Gone(aged, steps) <= aged && (steps < 3 || aged == [] ==> Gone(aged, steps) == [])
    ensures steps >= 3 * |aged| ==> Gone(aged, steps) == aged
  {
  }

  lemma MidwayNext(s: State, aged: seq<Segment>, steps: nat)
    requires s.archive.Some? && aged != [] && aged[0].path in s.files
    ensures Midway(s, aged, 0) == s && Midway(s, aged, 1) == Archived(s, aged[0])
    ensures Midway(s, aged, 2) == Pointed(Archived(s, aged[0]), aged[0])
    ensures MovedOne(s, aged[0]).archive.Some?
    ensures steps >= 3 ==> Midway(s, aged, steps) == Midway(MovedOne(s, aged[0]), aged[1..], steps - 3)
  {
  }

  lemma MidwayNone(s: State, steps: nat)
    requires s.archive.Some?
    ensures Midway(s, [], steps) == s
  {
  }

  lemma {:induction false} MidwayMoves(s: State, log: seq<Batch>, aged: seq<Segment>, steps: nat)
    requires Stored(s, log) && s.archive.Some? && WarmIn(s.segments, aged)
    ensures Moved(s, Midway(s, aged, steps), aged, Gone(aged, steps))
    decreases |aged|
  {
    hide *;
    GoneIsPrefix(aged, steps);
    if aged == [] {
      MidwayNone(s, steps);
      NothingMoved(s, aged);
    } else {
      var i := FirstWarm(s, log, aged);
      MoveStores(s, log, i);
      MidwayNext(s, aged, steps);
      MovingFirst(s, aged);
      NothingMoved(s, aged);
      if steps >= 3 {
        OthersStayWarm(s.segments, aged, i, aged[0].(tier := Cold, path := ColdKey(s.cfg, aged[0].id)));
        MidwayMoves(MovedOne(s, aged[0]), log, aged[1..], steps - 3);
        MovedFirst(s, MovedOne(s, aged[0]), Midway(s, aged, steps), aged, Gone(aged[1..], steps - 3));
        GoneNext(aged, steps);
      }
    }
  }

  /** The entry of a segment whose file is gone leads nowhere; every other one still
      leads to its batch. */
  lemma SnapshotContent(s: State, s': State, log: seq<Batch>, aged: seq<Segment>, gone: seq<Segment>, j: nat)
    requires Stored(s, log) && WarmIn(s.segments, aged) && gone <= aged && Moved(s, s', aged, gone)
    requires j < |log| && j < |s.segments|
    ensures Content(s, s.segments[j]) == Some(log[j].events)
    ensures Content(s', s.segments[j]) == if s.segments[j] in gone then None else Some(log[j].events)
  {
    var seg := s.segments[j];
    assert Fits(s, seg, log[j]);
    if seg in gone {
      var k :| 0 <= k < |gone| && gone[k] == seg;
      assert aged[k].tier == Warm;
      assert seg.path in PathsIn(gone);
    } else if seg.tier == Warm {
      assert seg.path !in PathsIn(gone) by {
        if seg.path in PathsIn(gone) {
          var i := GoneAt(s, log, aged, gone, seg.path);
          SamePlace(s, log, i, j);
        }
      }
    } else {
      assert seg.path !in KeysFor(s.cfg, aged) by {
        if seg.path in KeysFor(s.cfg, aged) {
          var i := AgedFor(s, log, aged, seg.path);
          SameIdSameEntry(s, log, i, j);
        }
      }
      assert SameObject(s.archive.value, s'.archive.value, seg.path);
    }
  }

  lemma GoneAt(s: State, log: seq<Batch>, aged: seq<Segment>, gone: seq<Segment>, path: string) returns (i: nat)
    requires Stored(s, log) && WarmIn(s.segments, aged) && gone <= aged && path in PathsIn(gone)
    ensures i < |log| && i < |s.segments| && s.segments[i] in gone && s.segments[i].path == path
  {
    var k :| 0 <= k < |gone| && gone[k].path == path;
    assert aged[k] == gone[k] && aged[k] in s.segments;
    i :| 0 <= i < |s.segments| && s.segments[i] == aged[k];
  }

  lemma AgedFor(s: State, log: seq<Batch>, aged: seq<Segment>, key: string) returns (i: nat)
    requires Stored(s, log) && WarmIn(s.segments, aged) && key in KeysFor(s.cfg, aged)
    ensures i < |log| && i < |s.segments| && s.segments[i].tier == Warm && ColdKey(s.cfg, s.segments[i].id) == key
  {
    var k :| 0 <= k < |aged| && ColdKey(s.cfg, aged[k].id) == key;
    assert aged[k] in s.segments && aged[k].tier == Warm;
    i :| 0 <= i < |s.segments| && s.segments[i] == aged[k];
  }

  lemma SameIdSameEntry(s: State, log: seq<Batch>, i: nat, j: nat)
    requires Stored(s, log) && s.archive.Some? && i < |log| && j < |log|
    requires s.segments[j].path == ColdKey(s.cfg, s.segments[i].id)
    ensures i == j
  {
    assert Fits(s, s.segments[i], log[i]) && Fits(s, s.segments[j], log[j]);
    PathsDiffer(s.cfg, log[i].id, log[j].id);
    assert s.segments[j].tier == Warm ==> LocalPath(s.cfg, s.segments[j].id) != ColdKey(s.cfg, s.segments[i].id);
  }

  lemma {:induction false} SameFetches(s: State, aged: seq<Segment>, listed: seq<Segment>, fetched: seq<nat>,
                                       start: int, end: int)
    requires s.archive.Some? && |fetched| == |listed|
    requires forall k | 0 <= k < |listed| :: Content(Midway(s, aged, fetched[k]), listed[k]) == Content(s, listed[k])
    ensures ReadThrough(s, aged, listed, fetched, start, end) == ReadAll(s, listed, start, end)
  {
    hide Content, Midway, InRange;
    if listed != [] {
      SameFetches(s, aged, listed[..|listed| - 1], fetched[..|listed| - 1], start, end);
    }
  }

  lemma {:induction false} MissedFetch(s: State, aged: seq<Segment>, listed: seq<Segment>, fetched: seq<nat>, k: nat,
                                       start: int, end: int)
    requires s.archive.Some? && |fetched| == |listed| && k < |listed|
    requires Content(Midway(s, aged, fetched[k]), listed[k]).None?
    ensures ReadThrough(s, aged, listed, fetched, start, end).None?
  {
    hide Content, Midway, InRange;
    if k < |listed| - 1 {
      MissedFetch(s, aged, listed[..|listed| - 1], fetched[..|listed| - 1], k, start, end);
    }
  }

  /** What one fetch of a listed segment gets. */
  lemma Fetch(s: State, log: seq<Batch>, aged: seq<Segment>, steps: nat, seg: Segment)
    requires Stored(s, log) && s.archive.Some? && WarmIn(s.segments, aged) && seg in s.segments
    ensures Content(s, seg).Some?
    ensures Content(Midway(s, aged, steps), seg) == if seg in Gone(aged, steps) then None else Content(s, seg)
  {
    var j :| 0 <= j < |s.segments| && s.segments[j] == seg;
    SameLength(s, log);
    hide *;
    MidwayMoves(s, log, aged, steps);
    GoneIsPrefix(aged, steps);
    SnapshotContent(s, Midway(s, aged, steps), log, aged, Gone(aged, steps), j);
  }

  /** A read is right exactly when no segment it listed had its file unlinked before it
      was fetched, at whatever steps of the migration the fetches happen. */
  lemma InterleavedReadExactly(s: State, log: seq<Batch>, aged: seq<Segment>, fetched: seq<nat>, start: int, end: int)
    requires Stored(s, log) && s.archive.Some? && WarmIn(s.segments, aged)
    requires |fetched| == |Overlapping(s.segments, start, end)|
    ensures var listed := Overlapping(s.segments, start, end);
            ReadThrough(s, aged, listed, fetched, start, end) == Some(InRange(AllEvents(log), start, end)) <==>
            forall k | 0 <= k < |listed| :: listed[k] !in Gone(aged, fetched[k])
  {
    hide *;
    var listed := Overlapping(s.segments, start, end);
    forall k | 0 <= k < |listed|
      ensures Content(s, listed[k]).Some?
      ensures Content(Midway(s, aged, fetched[k]), listed[k]) ==
                if listed[k] in Gone(aged, fetched[k]) then None else Content(s, listed[k])
    {
      ListedExactly(s.segments, start, end, listed[k]);
      Fetch(s, log, aged, fetched[k], listed[k]);
    }
    if forall k | 0 <= k < |listed| :: listed[k] !in Gone(aged, fetched[k]) {
      SameFetches(s, aged, listed, fetched, start, end);
      ReadIsExact(s, log, start, end);
      ReadsListed(s, start, end);
    } else {
      var k :| 0 <= k < |listed| && listed[k] in Gone(aged, fetched[k]);
      MissedFetch(s, aged, listed, fetched, k, start, end);
    }
  }

  lemma ReadsListed(s: State, start: int, end: int)
    ensures ReadSpec(s, start, end) == ReadAll(s, Overlapping(s.segments, start, end), start, end)
  {
  }

  lemma {:induction false} MidwayEnds(s: State, aged: seq<Segment>, steps: nat)
    requires s.archive.Some? && steps >= 3 * |aged|
    ensures Midway(s, aged, steps) == Migrated(s, aged).0
    decreases |aged|
  {
    if aged == [] {
    } else if aged[0].path in s.files {
      KeepsArchive(s, aged[0]);
      MidwayNext(s, aged, steps);
      MigratedFirst(s, aged);
      hide Midway, Migrated;
      MidwayEnds(MovedOne(s, aged[0]), aged[1..], steps - 3);
    }
  }

  lemma {:induction false} FetchedAtOnce(s: State, aged: seq<Segment>, listed: seq<Segment>, fetched: seq<nat>,
                                         steps: nat, start: int, end: int)
    requires s.archive.Some? && |fetched| == |listed| && forall k | 0 <= k < |listed| :: fetched[k] == steps
    ensures ReadThrough(s, aged, listed, fetched, start, end) == ReadAll(Midway(s, aged, steps), listed, start, end)
  {
    hide Content, Midway, InRange;
    if listed != [] {
      FetchedAtOnce(s, aged, listed[..|listed| - 1], fetched[..|listed| - 1], steps, start, end);
    }
  }

  /** When all is fetched after the migration: right exactly when no moved segment
      overlaps the range. */
  lemma SnapshotReadExactly(s: State, log: seq<Batch>, aged: seq<Segment>, start: int, end: int)
    requires Stored(s, log) && s.archive.Some? && WarmIn(s.segments, aged)
    ensures ReadAll(Migrated(s, aged).0, Overlapping(s.segments, start, end), start, end) ==
              Some(InRange(AllEvents(log), start, end)) <==>
            forall a | a in aged :: !Overlaps(a, start, end)
  {
    var listed := Overlapping(s.segments, start, end);
    var steps: nat := 3 * |aged|;
    assert forall a | a in aged :: a in s.segments;
    hide *;
    var fetched := FetchedLate(s, aged, listed, steps, start, end);
    GoneIsPrefix(aged, steps);
    MidwayEnds(s, aged, steps);
    InterleavedReadExactly(s, log, aged, fetched, start, end);
    forall seg ensures seg in listed <==> seg in s.segments && Overlaps(seg, start, end) {
      ListedExactly(s.segments, start, end, seg);
    }
    NoneOf(listed, aged);
  }

  lemma FetchedLate(s: State, aged: seq<Segment>, listed: seq<Segment>, steps: nat, start: int, end: int)
    returns (fetched: seq<nat>)
    requires s.archive.Some?
    ensures |fetched| == |listed| && forall k | 0 <= k < |listed| :: fetched[k] == steps
    ensures ReadThrough(s, aged, listed, fetched, start, end) == ReadAll(Midway(s, aged, steps), listed, start, end)
  {
    fetched := seq(|listed|, _ => steps);
    FetchedAtOnce(s, aged, listed, fetched, steps, start, end);
  }

  lemma NoneOf(listed: seq<Segment>, aged: seq<Segment>)
    ensures (forall k | 0 <= k < |listed| :: listed[k] !in aged) <==> forall a | a in aged :: a !in listed
  {
  }

  lemma EntryFits(s: State, log: seq<Batch>, j: nat)
    requires Stored(s, log) && j < |log|
    ensures j < |s.segments| && Fits(s, s.segments[j], log[j])
  {
  }

  lemma MovesOne(s: State, seg: Segment)
    requires s.archive.Some? && seg.path in s.files
    ensures Migrated(s, [seg]).0 == MovedOne(s, seg)
  {
    hide Archived, Pointed, Unlinked;
    KeepsArchive(s, seg);
    var s1 := Unlinked(Pointed(Archived(s, seg), seg), seg);
    NoneMigrated(s1);
    assert [seg][1..] == [];
  }

  /** For one moved segment: a read of segments listed before is right exactly when that
      segment is outside the range. */
  lemma SnapshotReadOne(s: State, log: seq<Batch>, i: nat, start: int, end: int)
    requires Stored(s, log) && s.archive.Some? && i < |log| && s.segments[i].tier == Warm
    ensures s.segments[i].path in s.files
    ensures ReadAll(MovedOne(s, s.segments[i]), Overlapping(s.segments, start, end), start, end) ==
              Some(InRange(AllEvents(log), start, end)) <==>
            !Overlaps(s.segments[i], start, end)
  {
    EntryFits(s, log, i);
    var seg := s.segments[i];
    assert Content(s, seg) == Some(log[i].events);
    assert WarmIn(s.segments, [seg]);
    hide Stored, Fits, WarmIn, MovedOne, Migrated, ReadAll, Overlapping, AllEvents, InRange, Overlaps;
    MovesOne(s, seg);
    SnapshotReadExactly(s, log, [seg], start, end);
    assert forall a :: a in [seg] <==> a == seg;
  }

  lemma {:induction false} AgedExactly(segments: seq<Segment>, now: int, maxWarmAge: int, a: Segment)
    ensures a in Aged(segments, now, maxWarmAge) <==> a in segments && a.tier == Warm && now - a.maxTs > maxWarmAge
  {
    if segments != [] {
      assert segments == [segments[0]] + segments[1..];
      AgedExactly(segments[1..], now, maxWarmAge, a);
    }
  }

  /** For a whole migration: a read of segments listed before is right exactly when every
      warm segment past the warm age is outside the range. */
  lemma SnapshotReadOverMigration(s: State, log: seq<Batch>, now: int, maxWarmAge: int, start: int, end: int)
    requires Stored(s, log) && s.archive.Some?
    ensures ReadAll(MigrateSpec(s, now, maxWarmAge).0, Overlapping(s.segments, start, end), start, end) ==
              Some(InRange(AllEvents(log), start, end)) <==>
            forall a | a in s.segments && a.tier == Warm && now - a.maxTs > maxWarmAge :: !Overlaps(a, start, end)
  {
    var aged := Aged(s.segments, now, maxWarmAge);
    SegsDistinct(s, log);
    AgedAreWarm(s.segments, now, maxWarmAge);
    hide Stored, WarmIn, Migrated, Aged, ReadAll, Overlapping, AllEvents, InRange, Overlaps;
    SnapshotReadExactly(s, log, aged, start, end);
    forall a ensures a in aged <==> a in s.segments && a.tier == Warm && now - a.maxTs > maxWarmAge {
      AgedExactly(s.segments, now, maxWarmAge, a);
    }
  }

  /** When a moved segment is in the range the read finds its file gone. */
  lemma StaleSnapshotFails(s: State, log: seq<Batch>, i: nat, start: int, end: int)
    requires Stored(s, log) && s.archive.Some? && i < |log| && s.segments[i].tier == Warm &&
             Overlaps(s.segments[i], start, end)
    ensures s.segments[i].path in s.files
    ensures ReadAll(MovedOne(s, s.segments[i]), Overlapping(s.segments, start, end), start, end).None?
  {
    assert Fits(s, s.segments[i], log[i]);
    var s' := MovedOne(s, s.segments[i]);
    assert Content(s', s.segments[i]).None?;
    hide Stored, Fits, Overlapping, Content;
    OneMissingFails(s', s.segments, i, start, end);
  }

  // --- reusing a segment id -----------------------------------------------------------------------

  /** Every range reads as the old batches followed by the new one. */
  ghost predicate WriteAdds(s: State, log: seq<Batch>, id: string, events: seq<Event>, now: int) {
    forall start, end ::
      ReadSpec(Written(s, id, events, now), start, end) ==
        Some(InRange(AllEvents(log + [Batch(id, events)]), start, end))
  }

  /** The local files the write replaces hold the same events already. */
  ghost predicate Replaceable(s: State, log: seq<Batch>, id: string, events: seq<Event>)
    requires |s.segments| == |log|
  {
    forall i | 0 <= i < |log| && s.segments[i].tier == Warm && s.segments[i].id == id :: log[i].events == events
  }

  /** What an old entry leads to after the write. */
  lemma OldEntryAfter(s: State, log: seq<Batch>, id: string, events: seq<Event>, now: int, j: nat)
    requires Stored(s, log) && events != [] && j < |log| && j < |s.segments|
    ensures Content(Written(s, id, events, now), s.segments[j]) ==
              Some(if s.segments[j].tier == Warm && s.segments[j].id == id then events else log[j].events)
  {
    assert Fits(s, s.segments[j], log[j]);
    PathsDiffer(s.cfg, log[j].id, id);
  }

  lemma NewEntryAfter(s: State, id: string, events: seq<Event>, now: int)
    requires events != []
    ensures Content(Written(s, id, events, now), SegmentOf(s.cfg, id, events, now)) == Some(events)
    ensures Written(s, id, events, now).segments == s.segments + [SegmentOf(s.cfg, id, events, now)]
  {
  }

  lemma NewEntryYields(s: State, id: string, events: seq<Event>, now: int, start: int, end: int)
    requires events != []
    ensures Yields(Written(s, id, events, now), SegmentOf(s.cfg, id, events, now), Batch(id, events), start, end)
  {
    NewEntryAfter(s, id, events, now);
    var seg := SegmentOf(s.cfg, id, events, now);
    hide Written, Content;
    if !Overlaps(seg, start, end) {
      OutOfRange(events, start, end);
    }
  }

  lemma ReplaceableAdds(s: State, log: seq<Batch>, id: string, events: seq<Event>, now: int, start: int, end: int)
    requires Stored(s, log) && events != [] && |s.segments| == |log| && Replaceable(s, log, id, events)
    ensures ReadSpec(Written(s, id, events, now), start, end) ==
              Some(InRange(AllEvents(log + [Batch(id, events)]), start, end))
  {
    var t, log' := Written(s, id, events, now), log + [Batch(id, events)];
    NewEntryAfter(s, id, events, now);
    NewEntryYields(s, id, events, now, start, end);
    hide Stored, Written, Content, Overlaps, InRange, AllEvents, ReadAll, Overlapping, SegmentOf;
    forall j | 0 <= j < |log'| ensures Yields(t, t.segments[j], log'[j], start, end) {
      if j < |log| {
        OldEntryAfter(s, log, id, events, now, j);
        EntryFits(s, log, j);
        if !Overlaps(s.segments[j], start, end) {
          PrunedIsOutside(s, s.segments[j], log[j], start, end);
        }
      }
    }
    ReadsContents(t, t.segments, log', start, end);
  }

  lemma {:induction false} InRangeAll(events: seq<Event>, start: int, end: int)
    requires forall e | e in events :: start <= e.ts <= end
    ensures InRange(events, start, end) == events
  {
    if events != [] {
      InRangeAll(events[..|events| - 1], start, end);
      assert events == events[..|events| - 1] + [events[|events| - 1]];
      assert events[|events| - 1] in events;
    }
  }

  lemma {:induction false} EventInAll(log: seq<Batch>, i: nat, e: Event)
    requires i < |log| && e in log[i].events
    ensures e in AllEvents(log)
  {
    if i < |log| - 1 {
      EventInAll(log[..|log| - 1], i, e);
    }
  }

  lemma {:induction false} EventsOfSome(log: seq<Batch>, e: Event)
    requires e in AllEvents(log)
    ensures exists i :: 0 <= i < |log| && e in log[i].events
  {
    if e !in log[|log| - 1].events {
      EventsOfSome(log[..|log| - 1], e);
      var i :| 0 <= i < |log| - 1 && e in log[..|log| - 1][i].events;
      assert e in log[i].events;
    }
  }

  /** Larger batches make a longer sum. */
  lemma {:induction false} LongerSum(a: seq<Batch>, b: seq<Batch>, i: nat)
    requires |a| == |b| && i <= |a| && forall j | 0 <= j < |a| :: |a[j].events| <= |b[j].events|
    ensures |AllEvents(a)| <= |AllEvents(b)|
    ensures i < |a| && |a[i].events| < |b[i].events| ==> |AllEvents(a)| < |AllEvents(b)|
    decreases |a|
  {
    if a != [] {
      LongerSum(a[..|a| - 1], b[..|b| - 1], if i < |a| - 1 then i else |a| - 1);
    }
  }

  /** Batches of the same sizes with one sum are the same. */
  lemma {:induction false} SameSum(a: seq<Batch>, b: seq<Batch>, i: nat)
    requires |a| == |b| && i < |a| && forall j | 0 <= j < |a| :: |a[j].events| == |b[j].events|
    requires AllEvents(a) == AllEvents(b)
    ensures a[i].events == b[i].events
    decreases |a|
  {
    var n := |a| - 1;
    JoinedSame(AllEvents(a[..n]), a[n].events, AllEvents(b[..n]), b[n].events);
    if i < n {
      SameSum(a[..n], b[..n], i);
    }
  }

  lemma JoinedSame(x: seq<Event>, y: seq<Event>, x': seq<Event>, y': seq<Event>)
    requires x + y == x' + y' && |y| == |y'|
    ensures x == x' && y == y'
  {
    assert |x| == |x'|;
    assert (x + y)[..|x|] == x && (x' + y')[..|x|] == x';
    assert (x + y)[|x|..] == y && (x' + y')[|x|..] == y';
  }

  /** Exchanging batches that hold `was` for others that hold `events` shows in the sum. */
  lemma ExchangeShows(a: seq<Batch>, b: seq<Batch>, i: nat, was: seq<Event>, events: seq<Event>)
    requires |a| == |b| && i < |a| && a[i].events == was && b[i].events == events && was != events
    requires forall j | 0 <= j < |a| :: a[j].events == b[j].events || (a[j].events == was && b[j].events == events)
    ensures AllEvents(a) != AllEvents(b)
  {
    if |was| < |events| {
      LongerSum(a, b, i);
    } else if |was| > |events| {
      LongerSum(b, a, i);
    } else if AllEvents(a) == AllEvents(b) {
      SameSum(a, b, i);
    }
  }

  /** Bounds that take in every event of the batches. */
  lemma Span(log: seq<Batch>) returns (lo: int, hi: int)
    requires log != [] && forall j | 0 <= j < |log| :: log[j].events != []
    ensures Within(log, lo, hi)
  {
    var all := AllEvents(log);
    forall j, e | 0 <= j < |log| && e in log[j].events ensures e in all {
      EventInAll(log, j, e);
    }
    assert log[0].events[0] in log[0].events;
    lo, hi := MinTs(all), MaxTs(all);
  }

  /** What the old entries and the new one lead to after the write. */
  function Held(s: State, log: seq<Batch>, id: string, events: seq<Event>): seq<Batch>
    requires |s.segments| == |log|
  {
    seq(|log|, j requires 0 <= j < |log| =>
      if s.segments[j].tier == Warm && s.segments[j].id == id then Batch(id, events) else log[j]) + [Batch(id, events)]
  }

  lemma HeldYields(s: State, log: seq<Batch>, id: string, events: seq<Event>, now: int, lo: int, hi: int, j: nat)
    requires Stored(s, log) && events != [] && |s.segments| == |log| && j <= |log|
    requires Within(log, lo, hi)
    ensures |Written(s, id, events, now).segments| == |log| + 1
    ensures Yields(Written(s, id, events, now), Written(s, id, events, now).segments[j],
                   Held(s, log, id, events)[j], lo, hi)
  {
    NewEntryAfter(s, id, events, now);
    if j < |log| {
      OldEntryAfter(s, log, id, events, now, j);
      EntryFits(s, log, j);
      WideOverlaps(s.segments[j], log[j].events, lo, hi);
    } else {
      hide Yields, Overlaps, Stored, Written;
      NewEntryYields(s, id, events, now, lo, hi);
    }
  }

  /** Only entries with the id are exchanged, and they all held the same events. */
  lemma HeldDiffers(s: State, log: seq<Batch>, id: string, events: seq<Event>, i: nat)
    requires Stored(s, log) && |s.segments| == |log| && i < |log| && events != []
    requires s.segments[i].tier == Warm && s.segments[i].id == id && log[i].events != events
    ensures AllEvents(Held(s, log, id, events)) != AllEvents(log + [Batch(id, events)])
  {
    var a, b := log + [Batch(id, events)], Held(s, log, id, events);
    forall j | 0 <= j < |a|
      ensures a[j].events == b[j].events || (a[j].events == log[i].events && b[j].events == events)
    {
      if j < |log| {
        EntryFits(s, log, j);
        EntryFits(s, log, i);
      }
    }
    ExchangeShows(a, b, i, log[i].events, events);
  }

  /** A read of the widest range gets what is held. */
  lemma HeldIsRead(s: State, log: seq<Batch>, id: string, events: seq<Event>, now: int, lo: int, hi: int)
    requires Stored(s, log) && events != [] && |s.segments| == |log|
    requires Within(log, lo, hi)
    ensures ReadSpec(Written(s, id, events, now), lo, hi) ==
              Some(InRange(AllEvents(Held(s, log, id, events)), lo, hi))
  {
    var t, held := Written(s, id, events, now), Held(s, log, id, events);
    NewEntryAfter(s, id, events, now);
    hide Stored, Written, Yields, Overlapping, ReadAll, InRange, AllEvents, SegmentOf;
    forall j | 0 <= j < |held| ensures Yields(t, t.segments[j], held[j], lo, hi) {
      HeldYields(s, log, id, events, now, lo, hi, j);
    }
    ReadsContents(t, t.segments, held, lo, hi);
  }

  ghost predicate Within(log: seq<Batch>, lo: int, hi: int) {
    forall j, e | 0 <= j < |log| && e in log[j].events :: lo <= e.ts <= hi
  }

  lemma HeldWithin(s: State, log: seq<Batch>, id: string, events: seq<Event>, lo: int, hi: int)
    requires |s.segments| == |log| && Within(log + [Batch(id, events)], lo, hi)
    ensures Within(log, lo, hi) && Within(Held(s, log, id, events), lo, hi)
  {
    var log' := log + [Batch(id, events)];
    assert log'[|log|] == Batch(id, events) && forall j | 0 <= j < |log| :: log'[j] == log[j];
  }

  /** A reused id whose file held other events shows in the widest range. */
  lemma OverwriteShows(s: State, log: seq<Batch>, id: string, events: seq<Event>, now: int, i: nat)
    requires Stored(s, log) && events != [] && i < |log| && i < |s.segments|
    requires s.segments[i].tier == Warm && s.segments[i].id == id && log[i].events != events
    ensures !WriteAdds(s, log, id, events, now)
  {
    var t, log' := Written(s, id, events, now), log + [Batch(id, events)];
    SameLength(s, log);
    var held := Held(s, log, id, events);
    NonEmpty(s, log);
    var lo, hi := Span(log');
    hide *;
    HeldWithin(s, log, id, events, lo, hi);
    HeldDiffers(s, log, id, events, i);
    HeldIsRead(s, log, id, events, now, lo, hi);
    WideRange(held, lo, hi);
    WideRange(log', lo, hi);
    AddsNothingElse(s, log, id, events, now, lo, hi);
  }

  lemma AddsNothingElse(s: State, log: seq<Batch>, id: string, events: seq<Event>, now: int, lo: int, hi: int)
    requires ReadSpec(Written(s, id, events, now), lo, hi) !=
               Some(InRange(AllEvents(log + [Batch(id, events)]), lo, hi))
    ensures !WriteAdds(s, log, id, events, now)
  {
    hide ReadSpec, InRange, AllEvents, Written;
  }

  lemma NonEmpty(s: State, log: seq<Batch>)
    requires Stored(s, log)
    ensures forall j | 0 <= j < |log| :: log[j].events != []
  {
    forall j | 0 <= j < |log| ensures log[j].events != [] {
      EntryFits(s, log, j);
    }
  }

  lemma WideOverlaps(seg: Segment, events: seq<Event>, lo: int, hi: int)
    requires events != [] && seg.minTs == MinTs(events) && seg.maxTs == MaxTs(events)
    requires forall e | e in events :: lo <= e.ts <= hi
    ensures Overlaps(seg, lo, hi)
  {
    assert events[0] in events;
  }

  lemma WideRange(log: seq<Batch>, lo: int, hi: int)
    requires Within(log, lo, hi)
    ensures InRange(AllEvents(log), lo, hi) == AllEvents(log)
  {
    forall e | e in AllEvents(log) ensures lo <= e.ts <= hi {
      EventsOfSome(log, e);
    }
    InRangeAll(AllEvents(log), lo, hi);
  }

  /** Right after a write every range reads as the old log followed by the new events
      exactly when each warm segment stored under its id holds the very same events.
      With an archive this is not enough for long: see `ConservesExactly`. */
  lemma WriteAddsExactly(s: State, log: seq<Batch>, id: string, events: seq<Event>, now: int)
    requires Stored(s, log) && events != []
    ensures |s.segments| == |log|
    ensures WriteAdds(s, log, id, events, now) <==> Replaceable(s, log, id, events)
  {
    SameLength(s, log);
    if Replaceable(s, log, id, events) {
      forall start, end
        ensures ReadSpec(Written(s, id, events, now), start, end) ==
                  Some(InRange(AllEvents(log + [Batch(id, events)]), start, end))
      {
        ReplaceableAdds(s, log, id, events, now, start, end);
      }
    } else {
      var i :| 0 <= i < |log| && s.segments[i].tier == Warm && s.segments[i].id == id && log[i].events != events;
      OverwriteShows(s, log, id, events, now, i);
    }
  }

  // --- reusing an id over runs -------------------------------------------------------------------

  /** Every later run of migrations, retention and writes that may use their ids reads
      as the log continued. */
  ghost predicate Conserves(t: State, log: seq<Batch>) {
    forall ops: seq<Op>, start: int, end: int | WritableOps(t.archive.Some?, log, ops) ::
      ReadSpec(Run(t, ops), start, end) == Some(InRange(AllEvents(LogOf(log, ops)), start, end))
  }

  /** The last entry shares its id with an earlier one, which migration finds first. */
  ghost predicate Shadowed(t: State, last: Segment) {
    && t.segments != [] && t.segments[|t.segments| - 1] == last
    && exists i :: 0 <= i < |t.segments| - 1 && t.segments[i].id == last.id
  }

  lemma {:induction false} RepointedIds(segs: seq<Segment>, id: string, tier: Tier, path: string)
    ensures |Repointed(segs, id, tier, path)| == |segs|
    ensures forall j | 0 <= j < |segs| :: Repointed(segs, id, tier, path)[j].id == segs[j].id
  {
    if segs != [] && segs[0].id != id {
      RepointedIds(segs[1..], id, tier, path);
    }
  }

  /** The last entry is not the first with its id. */
  lemma {:induction false} RepointedLast(segs: seq<Segment>, i: nat, id: string, tier: Tier, path: string)
    requires i < |segs| - 1 && segs[i].id == segs[|segs| - 1].id
    ensures |Repointed(segs, id, tier, path)| == |segs|
    ensures Repointed(segs, id, tier, path)[|segs| - 1] == segs[|segs| - 1]
  {
    if segs[0].id != id {
      if i > 0 {
        RepointedLast(segs[1..], i - 1, id, tier, path);
      } else {
        RepointedOther(segs[1..], id, tier, path);
      }
    }
  }

  lemma {:induction false} RepointedOther(segs: seq<Segment>, id: string, tier: Tier, path: string)
    requires segs != [] && segs[|segs| - 1].id != id
    ensures |Repointed(segs, id, tier, path)| == |segs|
    ensures Repointed(segs, id, tier, path)[|segs| - 1] == segs[|segs| - 1]
  {
    if segs[0].id != id && |segs| > 1 {
      RepointedOther(segs[1..], id, tier, path);
    }
  }

  lemma MovedSegments(t: State, seg: Segment)
    requires t.archive.Some? && seg.path in t.files
    ensures MovedOne(t, seg).segments == Repointed(t.segments, seg.id, Cold, ColdKey(t.cfg, seg.id))
  {
  }

  lemma MoveKeepsShadowed(t: State, seg: Segment, last: Segment)
    requires t.archive.Some? && seg.path in t.files && Shadowed(t, last)
    ensures Shadowed(MovedOne(t, seg), last)
  {
    var i :| 0 <= i < |t.segments| - 1 && t.segments[i].id == last.id;
    hide MovedOne, Repointed, ColdKey;
    MovedSegments(t, seg);
    RepointedIds(t.segments, seg.id, Cold, ColdKey(t.cfg, seg.id));
    RepointedLast(t.segments, i, seg.id, Cold, ColdKey(t.cfg, seg.id));
    assert MovedOne(t, seg).segments[i].id == last.id;
  }

  lemma {:induction false} MigratedShadowed(t: State, aged: seq<Segment>, last: Segment)
    requires t.archive.Some? && Shadowed(t, last)
    ensures Shadowed(Migrated(t, aged).0, last)
    decreases |aged|
  {
    if aged != [] && aged[0].path in t.files {
      hide Shadowed, MovedOne;
      KeepsArchive(t, aged[0]);
      MoveKeepsShadowed(t, aged[0], last);
      MigratedShadowed(MovedOne(t, aged[0]), aged[1..], last);
      MigratedFirst(t, aged);
    }
  }

  /** Apart from `path` the aged segments have files of their own. */
  ghost predicate FilesBut(t: State, aged: seq<Segment>, path: string) {
    && (forall k | 0 <= k < |aged| && aged[k].path != path :: aged[k].path in t.files)
    && (forall j, k | 0 <= j < k < |aged| && aged[j].path == aged[k].path :: aged[j].path == path)
  }

  lemma FilesButNext(t: State, aged: seq<Segment>, path: string)
    requires t.archive.Some? && aged != [] && aged[0].path in t.files && FilesBut(t, aged, path)
    ensures FilesBut(MovedOne(t, aged[0]), aged[1..], path)
    ensures MovedOne(t, aged[0]).files == t.files - {aged[0].path}
  {
    hide Repointed;
  }

  /** A migration that reaches a local file unlinks it. */
  lemma {:induction false} MigratedUnlinks(t: State, aged: seq<Segment>, path: string)
    requires t.archive.Some? && FilesBut(t, aged, path)
    requires path !in t.files || exists k :: 0 <= k < |aged| && aged[k].path == path
    ensures path !in Migrated(t, aged).0.files
    decreases |aged|
  {
    if aged != [] && aged[0].path in t.files {
      KeepsArchive(t, aged[0]);
      FilesButNext(t, aged, path);
      hide FilesBut, MovedOne;
      assert aged[0].path != path && path in t.files ==>
               exists k :: 0 <= k < |aged[1..]| && aged[1..][k].path == path by {
        if k :| 0 <= k < |aged| && aged[k].path == path && k > 0 {
          assert aged[1..][k - 1].path == path;
        }
      }
      MigratedUnlinks(MovedOne(t, aged[0]), aged[1..], path);
      MigratedFirst(t, aged);
    }
  }

  /** Warm entries with one path hold that one path. */
  ghost predicate WarmPathsBut(segs: seq<Segment>, path: string) {
    forall i, j | 0 <= i < j < |segs| && segs[i].tier == Warm && segs[j].tier == Warm && segs[i].path == segs[j].path ::
      segs[i].path == path
  }

  lemma {:induction false} AgedPathsBut(segs: seq<Segment>, now: int, age: int, path: string)
    requires WarmPathsBut(segs, path)
    ensures WarmPathsBut(Aged(segs, now, age), path)
  {
    if segs != [] {
      AgedPathsBut(segs[1..], now, age, path);
      var rest := Aged(segs[1..], now, age);
      forall k | 0 <= k < |rest| && segs[0].tier == Warm && rest[k].tier == Warm && rest[k].path == segs[0].path
        ensures segs[0].path == path
      {
        AgedExactly(segs[1..], now, age, rest[k]);
        var j :| 0 <= j < |segs[1..]| && segs[1..][j] == rest[k];
        assert segs[j + 1] == rest[k];
      }
    }
  }

  lemma WrittenPaths(s: State, log: seq<Batch>, id: string, events: seq<Event>, now: int)
    requires Stored(s, log) && s.archive.Some? && events != []
    ensures WarmPathsBut(Written(s, id, events, now).segments, LocalPath(s.cfg, id))
    ensures forall seg | seg in Written(s, id, events, now).segments && seg.tier == Warm ::
              seg.path in Written(s, id, events, now).files
  {
    var t := Written(s, id, events, now);
    NewEntryAfter(s, id, events, now);
    forall i, j | 0 <= i < j < |t.segments| && t.segments[i].path == t.segments[j].path
      ensures t.segments[i].path == LocalPath(s.cfg, id)
    {
      if j < |log| {
        SamePlace(s, log, i, j);
      }
    }
    forall i | 0 <= i < |log| && s.segments[i].tier == Warm ensures s.segments[i].path in s.files {
      EntryFits(s, log, i);
    }
  }

  /** With an archive, a later migration of a segment whose id was taken leaves its
      entry without a file, and its range can no longer be read. */
  lemma ReusedIdIsLost(s: State, log: seq<Batch>, id: string, events: seq<Event>, now: int, later: int, age: int)
    requires Stored(s, log) && s.archive.Some? && events != [] && later - MaxTs(events) > age
    requires exists i :: 0 <= i < |log| && log[i].id == id
    ensures ReadSpec(MigrateSpec(Written(s, id, events, now), later, age).0, MinTs(events), MaxTs(events)).None?
  {
    hide *;
    var t, last := Written(s, id, events, now), SegmentOf(s.cfg, id, events, now);
    var aged := Aged(t.segments, later, age);
    NamedSegment(s.cfg, id, events, now);
    StaysAttached(s, id, events, now);
    WrittenShadowed(s, log, id, events, now);
    AgedFiles(s, log, id, events, now, later, age);
    MigratedShadowed(t, aged, last);
    MigratedUnlinks(t, aged, last.path);
    MigratesAged(t, later, age);
    LastMissing(Migrated(t, aged).0, last, MinTs(events), MaxTs(events));
  }

  lemma StaysAttached(s: State, id: string, events: seq<Event>, now: int)
    ensures Written(s, id, events, now).archive == s.archive
  {
  }

  lemma MigratesAged(t: State, later: int, age: int)
    requires t.archive.Some?
    ensures MigrateSpec(t, later, age).0 == Migrated(t, Aged(t.segments, later, age)).0
  {
  }

  lemma WrittenShadowed(s: State, log: seq<Batch>, id: string, events: seq<Event>, now: int)
    requires Stored(s, log) && events != [] && exists i :: 0 <= i < |log| && log[i].id == id
    ensures Shadowed(Written(s, id, events, now), SegmentOf(s.cfg, id, events, now))
  {
    var i :| 0 <= i < |log| && log[i].id == id;
    EntryFits(s, log, i);
    NewEntryAfter(s, id, events, now);
    hide SegmentOf;
    assert Written(s, id, events, now).segments[i].id == id;
    assert SegmentOf(s.cfg, id, events, now).id == id by { NamedSegment(s.cfg, id, events, now); }
  }

  lemma NamedSegment(cfg: Config, id: string, events: seq<Event>, now: int)
    requires events != []
    ensures var seg := SegmentOf(cfg, id, events, now);
            && seg.id == id && seg.tier == Warm && seg.path == LocalPath(cfg, id) && seg.maxTs == MaxTs(events)
            && Overlaps(seg, MinTs(events), MaxTs(events))
  {
    assert events[0] in events;
  }

  lemma AgedFiles(s: State, log: seq<Batch>, id: string, events: seq<Event>, now: int, later: int, age: int)
    requires Stored(s, log) && s.archive.Some? && events != [] && later - MaxTs(events) > age
    ensures var t, path := Written(s, id, events, now), LocalPath(s.cfg, id);
            var aged := Aged(t.segments, later, age);
            FilesBut(t, aged, path) && exists k :: 0 <= k < |aged| && aged[k].path == path
  {
    var t, path := Written(s, id, events, now), LocalPath(s.cfg, id);
    var aged, last := Aged(t.segments, later, age), SegmentOf(s.cfg, id, events, now);
    NewEntryAfter(s, id, events, now);
    NamedSegment(s.cfg, id, events, now);
    WrittenPaths(s, log, id, events, now);
    AgedPathsBut(t.segments, later, age, path);
    assert t.segments[|s.segments|] == last;
    hide Written, SegmentOf, LocalPath, Stored, Aged;
    AgedExactly(t.segments, later, age, last);
    forall k | 0 <= k < |aged| ensures aged[k].tier == Warm && aged[k].path in t.files {
      AgedExactly(t.segments, later, age, aged[k]);
    }
    var k :| 0 <= k < |aged| && aged[k] == last;
    assert aged[k].path == path;
  }

  lemma LastMissing(t: State, last: Segment, start: int, end: int)
    requires Shadowed(t, last) && last.tier == Warm && last.path !in t.files
    requires Overlaps(last, start, end)
    ensures ReadSpec(t, start, end).None?
  {
    assert Content(t, last).None?;
    hide Content, Overlapping;
    OneMissingFails(t, t.segments, |t.segments| - 1, start, end);
  }

  lemma StoredConserves(s: State, log: seq<Batch>)
    requires Stored(s, log)
    ensures Conserves(s, log)
  {
    forall ops: seq<Op>, start: int, end: int | WritableOps(s.archive.Some?, log, ops)
      ensures ReadSpec(Run(s, ops), start, end) == Some(InRange(AllEvents(LogOf(log, ops)), start, end))
    {
      TieringConserves(s, log, ops, start, end);
    }
  }

  lemma RunNone(t: State, log: seq<Batch>)
    ensures Run(t, []) == t && LogOf(log, []) == log && WritableOps(t.archive.Some?, log, [])
  {
  }

  lemma RunOne(t: State, log: seq<Batch>, op: Op)
    requires WritableNext(t.archive.Some?, log, op)
    ensures Run(t, [op]) == Apply(t, op) && LogOf(log, [op]) == Logged(log, op)
    ensures WritableOps(t.archive.Some?, log, [op])
  {
    RunNone(t, log);
    assert [op][..0] == [];
  }

  /** What conservation says of the state itself and of one migration. */
  lemma ConservesNow(t: State, log: seq<Batch>, start: int, end: int)
    requires Conserves(t, log)
    ensures ReadSpec(t, start, end) == Some(InRange(AllEvents(log), start, end))
  {
    RunNone(t, log);
    hide ReadSpec, AllEvents, InRange, WritableOps, Run, LogOf;
  }

  lemma ConservesMigrating(t: State, log: seq<Batch>, later: int, age: int, start: int, end: int)
    requires Conserves(t, log)
    ensures ReadSpec(MigrateSpec(t, later, age).0, start, end).Some?
  {
    RunOne(t, log, Migrate(later, age));
    hide ReadSpec, AllEvents, InRange, WritableOps, Run, LogOf, MigrateSpec;
    assert ReadSpec(Run(t, [Migrate(later, age)]), start, end).Some?;
  }

  /** A write keeps every later answer right, over all runs, exactly when it may use its
      id: with an archive attached, when the id is fresh; with none, when whatever is
      stored under the id holds the same events. */
  lemma ConservesExactly(s: State, log: seq<Batch>, id: string, events: seq<Event>, now: int)
    requires Stored(s, log) && events != []
    ensures Conserves(Written(s, id, events, now), log + [Batch(id, events)]) <==>
              Writable(s.archive.Some?, log, id, events)
  {
    var t, log' := Written(s, id, events, now), log + [Batch(id, events)];
    if Writable(s.archive.Some?, log, id, events) {
      hide Stored, Written, Writable, Conserves;
      WriteStores(s, log, id, events, now);
      StoredConserves(t, log');
    } else if Conserves(t, log') {
      var i :| 0 <= i < |log| && log[i].id == id && (s.archive.Some? || log[i].events != events);
      EntryFits(s, log, i);
      hide Stored, Written, Writable, Conserves, ReadSpec, MigrateSpec, InRange, AllEvents;
      if s.archive.Some? {
        ReusedIdIsLost(s, log, id, events, now, MaxTs(events) + 1, 0);
        ConservesMigrating(t, log', MaxTs(events) + 1, 0, MinTs(events), MaxTs(events));
      } else {
        OverwriteShows(s, log, id, events, now, i);
        forall start, end ensures ReadSpec(t, start, end) == Some(InRange(AllEvents(log'), start, end)) {
          ConservesNow(t, log', start, end);
        }
      }
    }
  }

  /** Throughout a run of any writes, migrations and retention the store is good for
      every continuation exactly when each write may use its id at its time. */
  lemma {:induction false} ConservesThroughoutExactly(s: State, log: seq<Batch>, ops: seq<Op>)
    requires Stored(s, log)
    ensures (forall k | 0 <= k <= |ops| :: Conserves(Run(s, ops[..k]), LogOf(log, ops[..k]))) <==>
              WritableOps(s.archive.Some?, log, ops)
  {
    hide Stored, Conserves, Apply, Logged, WritableNext;
    if ops == [] {
      RunNone(s, log);
      StoredConserves(s, log);
      assert ops[..0] == [];
    } else {
      var init, last := ops[..|ops| - 1], ops[|ops| - 1];
      ConservesThroughoutExactly(s, log, init);
      assert forall k | 0 <= k <= |init| :: init[..k] == ops[..k];
      assert ops[..|ops|] == ops;
      if WritableOps(s.archive.Some?, log, init) {
        RunStores(s, log, init);
        ConservesNext(Run(s, init), LogOf(log, init), last);
      }
    }
  }

  lemma ConservesNext(s: State, log: seq<Batch>, op: Op)
    requires Stored(s, log)
    ensures Conserves(Apply(s, op), Logged(log, op)) <==> WritableNext(s.archive.Some?, log, op)
  {
    hide Stored, Conserves, Writable, Written, MigrateSpec, Retained;
    if WritableNext(s.archive.Some?, log, op) {
      ApplyStores(s, log, op);
      StoredConserves(Apply(s, op), Logged(log, op));
    } else {
      ConservesExactly(s, log, op.id, op.events, op.now);
    }
  }

  // --- two runs that lose data ---------------------------------------------------------------------

  lemma RunTwo(s: State, a: Op, b: Op)
    ensures Run(s, [a, b]) == Apply(Apply(s, a), b)
  {
    assert [a, b][..1] == [a] && [a][..0] == [];
    assert Run(s, [a]) == Apply(s, a);
  }

  /** Reusing an id overwrites the earlier file: its event can no longer be read. */
  lemma ReusedIdLosesData(cfg: Config, archive: Option<Files>, id: string, e1: Event, e2: Event, now: int)
    requires e1.ts != e2.ts
    ensures var s := Run(Empty(cfg, archive), [Write(id, [e1], now), Write(id, [e2], now)]);
            ReadSpec(s, e1.ts, e1.ts) == Some([]) && InRange([e1, e2], e1.ts, e1.ts) == [e1]
  {
    RunTwo(Empty(cfg, archive), Write(id, [e1], now), Write(id, [e2], now));
    var s := Run(Empty(cfg, archive), [Write(id, [e1], now), Write(id, [e2], now)]);
    var a, b := SegmentOf(cfg, id, [e1], now), SegmentOf(cfg, id, [e2], now);
    assert MinTs([e1]) == MaxTs([e1]) == e1.ts && MinTs([e2]) == MaxTs([e2]) == e2.ts;
    assert s.segments == [a, b];
    assert [a, b][1..] == [b] && [b][1..] == [];
    assert Overlapping([b], e1.ts, e1.ts) == [];
    assert Overlapping(s.segments, e1.ts, e1.ts) == [a];
    assert Content(s, a) == Some([e2]);
    assert [e2][..0] == [];
    assert InRange([e2], e1.ts, e1.ts) == [];
    ReadsLast(s, [], a, e1.ts, e1.ts);
    assert [] + [a] == [a];
    assert [e1, e2][..1] == [e1] && [e1][..0] == [];
  }

  /** A segment in the archive is found first under its id: a second one written under
      it reads right until it is migrated too, and is then lost. */
  lemma ReusedColdIdLosesData(cfg: Config, objects: Files, id: string, e1: Event, e2: Event, late: int)
    requires Apart(cfg) && late > e1.ts && late > e2.ts
    ensures var s := Run(Empty(cfg, Some(objects)), [Write(id, [e1], late), Migrate(late, 0)]);
            var log := [Batch(id, [e1])];
            && Stored(s, log) && WriteAdds(s, log, id, [e2], late)
            && ReadSpec(MigrateSpec(Written(s, id, [e2], late), late, 0).0, e2.ts, e2.ts).None?
  {
    var s0 := Empty(cfg, Some(objects));
    RunTwo(s0, Write(id, [e1], late), Migrate(late, 0));
    assert MinTs([e1]) == MaxTs([e1]) == e1.ts && MinTs([e2]) == MaxTs([e2]) == e2.ts;
    NoneStored(cfg, Some(objects));
    WriteStores(s0, [], id, [e1], late);
    var s1, log := Written(s0, id, [e1], late), [Batch(id, [e1])];
    assert [] + [Batch(id, [e1])] == log;
    var seg := SegmentOf(cfg, id, [e1], late);
    assert s1.segments == [seg];
    assert Aged([seg], late, 0) == [seg] by { assert [seg][1..] == []; }
    MoveStores(s1, log, 0);
    MovesOne(s1, seg);
    var s := MovedOne(s1, seg);
    assert Run(s0, [Write(id, [e1], late), Migrate(late, 0)]) == s;
    assert s.segments[0].tier == Cold;
    hide Stored, Written, MovedOne, WriteAdds, MigrateSpec, ReadSpec;
    WriteAddsExactly(s, log, id, [e2], late);
    assert log[0].id == id;
    ReusedIdIsLost(s, log, id, [e2], late, late, 0);
  }
}
