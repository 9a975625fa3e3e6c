/** Nothing is left behind: the local files are exactly those of the catalogued warm
    segments, and the archived objects exactly those of the cold ones. */
module TieredTidy {
  import opened Options
  import opened TieredStore
  import opened TieredHistory

  /** Some catalogued segment of the tier lives there. */
  ghost predicate Lives(segments: seq<Segment>, tier: Tier, place: string) {
    exists seg :: seg in segments && seg.tier == tier && seg.path == place
  }

  ghost predicate TidyFiles(s: State) {
    forall k :: k in s.files <==> Lives(s.segments, Warm, k)
  }

  ghost predicate TidyArchive(s: State) {
    s.archive.Some? ==> forall k :: k in s.archive.value <==> Lives(s.segments, Cold, k)
  }

  ghost predicate Tidy(s: State) {
    TidyFiles(s) && TidyArchive(s)
  }

  // --- writing --------------------------------------------------------------------------------------

  lemma LivesMore(segments: seq<Segment>, seg: Segment, tier: Tier, place: string)
    ensures Lives(segments + [seg], tier, place) <==>
              Lives(segments, tier, place) || (seg.tier == tier && seg.path == place)
  {
    if x :| x in segments && x.tier == tier && x.path == place {
      assert x in segments + [seg];
    }
    assert seg in segments + [seg];
  }

  lemma WriteTidies(s: State, id: string, events: seq<Event>, now: int)
    requires Tidy(s) && events != []
    ensures Tidy(Written(s, id, events, now))
  {
    var s', seg := Written(s, id, events, now), SegmentOf(s.cfg, id, events, now);
    hide Lives, LocalPath;
    forall tier, k ensures Lives(s'.segments, tier, k) <==>
                             Lives(s.segments, tier, k) || (seg.tier == tier && seg.path == k)
    {
      LivesMore(s.segments, seg, tier, k);
    }
  }

  // --- migrating -------------------------------------------------------------------------------------

  /** Moving one entry: its old place is empty, its new one is taken. */
  lemma LivesMoved(segments: seq<Segment>, i: nat, moved: Segment, tier: Tier, place: string)
    requires i < |segments| && segments[i].tier == Warm && moved.tier == Cold
    requires forall j | 0 <= j < |segments| && segments[j].path == segments[i].path :: j == i
    ensures Lives(segments[i := moved], Warm, place) <==> Lives(segments, Warm, place) && place != segments[i].path
    ensures Lives(segments[i := moved], Cold, place) <==> Lives(segments, Cold, place) || place == moved.path
  {
    var after := segments[i := moved];
    forall seg | seg in after ensures seg == moved || (seg in segments && seg.path != segments[i].path) {
      var j :| 0 <= j < |after| && after[j] == seg;
      assert j != i ==> segments[j] == seg;
    }
    forall seg | seg in segments && seg != segments[i] ensures seg in after {
      var j :| 0 <= j < |segments| && segments[j] == seg;
      assert after[j] == seg;
    }
    assert after[i] == moved && segments[i] in segments;
  }

  lemma MoveTidies(s: State, log: seq<Batch>, i: nat)
    requires Stored(s, log) && Tidy(s) && s.archive.Some? && i < |log| && s.segments[i].tier == Warm
    ensures s.segments[i].path in s.files && Tidy(MovedOne(s, s.segments[i]))
  {
    var seg := s.segments[i];
    MoveStores(s, log, i);
    forall j | 0 <= j < |s.segments| && s.segments[j].path == seg.path ensures j == i {
      SamePlace(s, log, i, j);
    }
    var s', moved := MovedOne(s, seg), seg.(tier := Cold, path := ColdKey(s.cfg, seg.id));
    MovedFiles(s, seg);
    hide Lives, Stored, MovedOne, ColdKey;
    forall k ensures k in s'.files <==> Lives(s'.segments, Warm, k) {
      LivesMoved(s.segments, i, moved, Warm, k);
    }
    forall k ensures k in s'.archive.value <==> Lives(s'.segments, Cold, k) {
      LivesMoved(s.segments, i, moved, Cold, k);
    }
  }

  lemma MovedFiles(s: State, seg: Segment)
    requires s.archive.Some? && seg.path in s.files
    ensures var s' := MovedOne(s, seg);
            && s'.files == s.files - {seg.path} && s'.archive.Some?
            && s'.archive.value.Keys == s.archive.value.Keys + {ColdKey(s.cfg, seg.id)}
  {
    hide Repointed, ColdKey;
  }

  lemma {:induction false} MigratedTidies(s: State, log: seq<Batch>, aged: seq<Segment>)
    requires Stored(s, log) && Tidy(s) && s.archive.Some? && WarmIn(s.segments, aged)
    ensures Tidy(Migrated(s, aged).0)
    decreases |aged|
  {
    hide *;
    if aged == [] {
      NoneMigrated(s);
    } else {
      var i := FirstWarm(s, log, aged);
      MoveStores(s, log, i);
      MoveTidies(s, log, i);
      OthersStayWarm(s.segments, aged, i, aged[0].(tier := Cold, path := ColdKey(s.cfg, aged[0].id)));
      MigratedTidies(MovedOne(s, aged[0]), log, aged[1..]);
      MigratedFirst(s, aged);
    }
  }

  lemma MigrationTidies(s: State, log: seq<Batch>, now: int, maxWarmAge: int)
    requires Stored(s, log) && Tidy(s)
    ensures Tidy(MigrateSpec(s, now, maxWarmAge).0)
  {
    if s.archive.Some? {
      SegsDistinct(s, log);
      hide Stored, Tidy;
      AgedAreWarm(s.segments, now, maxWarmAge);
      MigratedTidies(s, log, Aged(s.segments, now, maxWarmAge));
    }
  }

  // --- retention --------------------------------------------------------------------------------------

  lemma {:induction false} WithoutExactly(segments: seq<Segment>, ids: seq<string>, seg: Segment)
    ensures seg in Without(segments, ids) <==> seg in segments && seg.id !in ids
  {
    if segments != [] {
      assert segments == [segments[0]] + segments[1..];
      WithoutExactly(segments[1..], ids, seg);
    }
  }

  /** A path is shared only by entries that retention treats alike. */
  lemma AlikeAt(s: State, log: seq<Batch>, a: Segment, b: Segment)
    requires Stored(s, log) && a in s.segments && b in s.segments && a.path == b.path
    ensures a.id == b.id && a.tier == b.tier
  {
    var i :| 0 <= i < |s.segments| && s.segments[i] == a;
    var j :| 0 <= j < |s.segments| && s.segments[j] == b;
    SamePathSameId(s, log, i, j);
    assert Fits(s, s.segments[i], log[i]) && Fits(s, s.segments[j], log[j]);
  }

  lemma GoneIds(s: State, log: seq<Batch>, now: int, maxAge: int, seg: Segment)
    requires Stored(s, log) && seg in s.segments
    ensures seg.id in IdsOf(Expired(s.segments, now, maxAge)) <==> seg in Expired(s.segments, now, maxAge)
  {
    var i :| 0 <= i < |s.segments| && s.segments[i] == seg;
    AgesById(s, log);
    ExpiredIds(s.segments, now, maxAge, i);
    ExpiredAre(s.segments, now, maxAge, seg);
  }

  lemma PathsExactly(segments: seq<Segment>, ids: seq<string>, place: string)
    ensures place in PathsOf(segments, ids) <==> exists seg :: seg in segments && seg.id in ids && seg.path == place
  {
    if seg :| seg in segments && seg.id in ids && seg.path == place {
      var i :| 0 <= i < |segments| && segments[i] == seg;
    }
  }

  lemma RetentionFiles(s: State, log: seq<Batch>, now: int, maxAge: int, k: string)
    requires Stored(s, log) && TidyFiles(s)
    ensures k in Retained(s, now, maxAge).files <==> Lives(Retained(s, now, maxAge).segments, Warm, k)
  {
    var ids := IdsOf(Expired(s.segments, now, maxAge));
    var s' := Retained(s, now, maxAge);
    hide Stored, Expired, IdsOf, Without, PathsOf, ColdPaths;
    PathsExactly(s.segments, ids, k);
    if seg :| seg in s.segments && seg.tier == Warm && seg.path == k {
      WithoutExactly(s.segments, ids, seg);
      forall x | x in s.segments && x.path == k ensures x.id == seg.id {
        AlikeAt(s, log, x, seg);
      }
      forall x | x in s'.segments ensures x in s.segments && x.id !in ids {
        WithoutExactly(s.segments, ids, x);
      }
    } else {
      forall x | x in s'.segments ensures x in s.segments {
        WithoutExactly(s.segments, ids, x);
      }
    }
  }

  lemma ColdPathsExactly(segments: seq<Segment>, place: string)
    ensures place in ColdPaths(segments) <==> exists seg :: seg in segments && seg.tier == Cold && seg.path == place
  {
    if seg :| seg in segments && seg.tier == Cold && seg.path == place {
      var i :| 0 <= i < |segments| && segments[i] == seg;
    }
  }

  lemma RetentionArchive(s: State, log: seq<Batch>, now: int, maxAge: int, k: string)
    requires Stored(s, log) && TidyArchive(s) && s.archive.Some?
    ensures k in Retained(s, now, maxAge).archive.value <==> Lives(Retained(s, now, maxAge).segments, Cold, k)
  {
    var expired := Expired(s.segments, now, maxAge);
    var ids, s' := IdsOf(expired), Retained(s, now, maxAge);
    forall x | x in expired ensures x in s.segments {
      ExpiredAre(s.segments, now, maxAge, x);
    }
    hide Stored, Expired, IdsOf, Without, PathsOf, ColdPaths;
    ColdPathsExactly(expired, k);
    forall x | x in s'.segments ensures x in s.segments && x.id !in ids {
      WithoutExactly(s.segments, ids, x);
    }
    if seg :| seg in s.segments && seg.tier == Cold && seg.path == k {
      WithoutExactly(s.segments, ids, seg);
      GoneIds(s, log, now, maxAge, seg);
      forall x | x in s.segments && x.path == k ensures x.id == seg.id && (x in expired <==> x.id in ids) {
        AlikeAt(s, log, x, seg);
        GoneIds(s, log, now, maxAge, x);
      }
    }
  }

  lemma RetentionTidies(s: State, log: seq<Batch>, now: int, maxAge: int)
    requires Stored(s, log) && Tidy(s)
    ensures Tidy(Retained(s, now, maxAge))
  {
    var s' := Retained(s, now, maxAge);
    SameArchive(s, now, maxAge);
    hide Stored, Retained, Lives, TidyFiles, TidyArchive;
    assert TidyFiles(s') by { RetentionTidiesFiles(s, log, now, maxAge); }
    assert TidyArchive(s') by { RetentionTidiesArchive(s, log, now, maxAge); }
  }

  lemma SameArchive(s: State, now: int, maxAge: int)
    ensures Retained(s, now, maxAge).archive.Some? == s.archive.Some?
  {
  }

  lemma RetentionTidiesFiles(s: State, log: seq<Batch>, now: int, maxAge: int)
    requires Stored(s, log) && TidyFiles(s)
    ensures TidyFiles(Retained(s, now, maxAge))
  {
    var s' := Retained(s, now, maxAge);
    hide Stored, Retained, Lives;
    forall k ensures k in s'.files <==> Lives(s'.segments, Warm, k) {
      RetentionFiles(s, log, now, maxAge, k);
    }
  }

  lemma RetentionTidiesArchive(s: State, log: seq<Batch>, now: int, maxAge: int)
    requires Stored(s, log) && TidyArchive(s)
    ensures TidyArchive(Retained(s, now, maxAge))
  {
    var s' := Retained(s, now, maxAge);
    SameArchive(s, now, maxAge);
    hide Stored, Retained, Lives;
    if s.archive.Some? {
      forall k ensures k in s'.archive.value <==> Lives(s'.segments, Cold, k) {
        RetentionArchive(s, log, now, maxAge, k);
      }
    }
  }

  // --- over runs -----------------------------------------------------------------------------------------

  lemma ApplyTidies(s: State, log: seq<Batch>, op: Op)
    requires Stored(s, log) && Tidy(s) && WritableNext(s.archive.Some?, log, op)
    ensures Tidy(Apply(s, op))
  {
    hide Stored, Tidy, Written, MigrateSpec, Retained, Writable;
    match op
    case Write(id, events, now) =>
      if events != [] {
        WriteTidies(s, id, events, now);
      } else {
        NothingWritten(s, id, now);
      }
    case Migrate(now, age) =>
      MigrationTidies(s, log, now, age);
    case Retain(now, age) =>
      RetentionTidies(s, log, now, age);
  }

  lemma {:induction false} RunTidies(s: State, log: seq<Batch>, ops: seq<Op>)
    requires Stored(s, log) && Tidy(s) && WritableOps(s.archive.Some?, log, ops)
    ensures Tidy(Run(s, ops))
  {
    hide Stored, Tidy, Apply, Logged, WritableNext;
    if ops != [] {
      var init, last := ops[..|ops| - 1], ops[|ops| - 1];
      RunTidies(s, log, init);
      RunStores(s, log, init);
      ApplyTidies(Run(s, init), LogOf(log, init), last);
    }
  }

  /** From an empty store, over every run of writes that may use their ids, migrations
      and retention: a local file exists exactly where some catalogued warm segment
      lives, and an archived object exactly where some catalogued cold one does. */
  lemma NoOrphans(cfg: Config, attached: bool, ops: seq<Op>)
    requires attached ==> Apart(cfg)
    requires WritableOps(attached, [], ops)
    ensures var s := Run(Empty(cfg, if attached then Some(map[]) else None), ops);
            && (forall k :: k in s.files <==> Lives(s.segments, Warm, k))
            && (attached ==> s.archive.Some? && forall k :: k in s.archive.value <==> Lives(s.segments, Cold, k))
  {
    var s0 := Empty(cfg, if attached then Some(map[]) else None);
    NoneStored(cfg, s0.archive);
    assert Tidy(s0);
    hide Stored, Run, WritableOps;
    RunTidies(s0, [], ops);
    RunStores(s0, [], ops);
  }

  lemma {:induction false} NoneSurvives(log: seq<Batch>, now: int, maxAge: int)
    requires forall i | 0 <= i < |log| :: log[i].events != []
    requires forall i, e | 0 <= i < |log| && e in log[i].events :: now - e.ts > maxAge
    ensures Surviving(log, now, maxAge) == []
  {
    if log != [] {
      var newest := Newest(log[0].events);
      NoneSurvives(log[1..], now, maxAge);
    }
  }

  /** So once everything has expired, nothing is left anywhere. */
  lemma AllExpiredLeavesNothing(s: State, log: seq<Batch>, now: int, maxAge: int)
    requires Stored(s, log) && Tidy(s)
    requires forall i, e | 0 <= i < |log| && e in log[i].events :: now - e.ts > maxAge
    ensures var s' := Retained(s, now, maxAge);
            s'.segments == [] && s'.files == map[] && (s.archive.Some? ==> s'.archive == Some(map[]))
  {
    forall i | 0 <= i < |log| ensures log[i].events != [] {
      assert Fits(s, s.segments[i], log[i]);
    }
    hide Retained, Stored, Tidy;
    NoneSurvives(log, now, maxAge);
    RetentionStores(s, log, now, maxAge);
    RetentionTidies(s, log, now, maxAge);
    SameArchive(s, now, maxAge);
    SameLength(Retained(s, now, maxAge), []);
    EmptyIsBare(Retained(s, now, maxAge));
  }

  lemma EmptyIsBare(s: State)
    requires Tidy(s) && s.segments == []
    ensures s.files == map[] && (s.archive.Some? ==> s.archive == Some(map[]))
  {
    assert forall tier, k :: !Lives(s.segments, tier, k);
    assert s.files.Keys == {};
    if s.archive.Some? {
      assert s.archive.value.Keys == {};
    }
  }
}
