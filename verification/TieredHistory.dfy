/** What the tiered store conserves: every answer is the written events in range of
    the surviving segments, in write order, through writes, migrations and retention. */
module TieredHistory {
  import opened Options
  import opened TieredStore

  /** One written segment. */
  datatype Batch = Batch(id: string, events: seq<Event>)

  /** No local path is an archive key. */
  ghost predicate Apart(cfg: Config) {
    forall a, b :: LocalPath(cfg, a) != ColdKey(cfg, b)
  }

  /** No id is used twice; with no archive attached it may be, for the same events. */
  ghost predicate IdsApart(archived: bool, log: seq<Batch>) {
    forall i, j | 0 <= i < j < |log| && log[i].id == log[j].id :: !archived && log[i].events == log[j].events
  }

  /** A catalog entry describes a batch and leads to its events. */
  ghost predicate Fits(s: State, seg: Segment, batch: Batch) {
    && seg.id == batch.id && batch.events != []
    && seg.minTs == MinTs(batch.events) && seg.maxTs == MaxTs(batch.events) && seg.rows == |batch.events|
    && ((seg.tier == Warm && seg.path == LocalPath(s.cfg, seg.id)) ||
        (seg.tier == Cold && seg.path == ColdKey(s.cfg, seg.id) && s.archive.Some?))
    && Content(s, seg) == Some(batch.events)
  }

  /** The store holds exactly the batches of the log, in order. */
  ghost predicate Stored(s: State, log: seq<Batch>) {
    && |s.segments| == |log| && IdsApart(s.archive.Some?, log) && (s.archive.Some? ==> Apart(s.cfg))
    && forall i | 0 <= i < |log| :: Fits(s, s.segments[i], log[i])
  }

  function AllEvents(log: seq<Batch>): seq<Event> {
    if log == [] then [] else AllEvents(log[..|log| - 1]) + log[|log| - 1].events
  }

  // --- reading is exact ------------------------------------------------------------------------

  lemma {:induction false} InRangeJoin(a: seq<Event>, b: seq<Event>, start: int, end: int)
    ensures InRange(a + b, start, end) == InRange(a, start, end) + InRange(b, start, end)
  {
    if b == [] {
      assert a + b == a;
    } else {
      var init := b[..|b| - 1];
      InRangeJoin(a, init, start, end);
      assert (a + b)[..|a + b| - 1] == a + init;
    }
  }

  lemma {:induction false} OutOfRange(events: seq<Event>, start: int, end: int)
    requires forall e | e in events :: !(start <= e.ts <= end)
    ensures InRange(events, start, end) == []
  {
    if events != [] {
      OutOfRange(events[..|events| - 1], start, end);
      assert events[|events| - 1] in events;
    }
  }

  lemma OverlappingNext(segs: seq<Segment>, start: int, end: int)
    requires segs != []
    ensures Overlapping(segs, start, end) ==
              (if Overlaps(segs[0], start, end) then [segs[0]] else []) + Overlapping(segs[1..], start, end)
  {
  }

  lemma {:induction false} OverlappingLast(segs: seq<Segment>, last: Segment, start: int, end: int)
    ensures Overlapping(segs + [last], start, end) ==
              Overlapping(segs, start, end) + (if Overlaps(last, start, end) then [last] else [])
  {
    if segs == [] {
      assert segs + [last] == [last] && [last][1..] == [];
    } else {
      OverlappingNext(segs, start, end);
      OverlappingNext(segs + [last], start, end);
      assert (segs + [last])[1..] == segs[1..] + [last];
      hide Overlapping, Overlaps;
      OverlappingLast(segs[1..], last, start, end);
    }
  }

  /** A pruned segment has nothing in the range. */
  lemma PrunedIsOutside(s: State, seg: Segment, batch: Batch, start: int, end: int)
    requires Fits(s, seg, batch) && !Overlaps(seg, start, end)
    ensures InRange(batch.events, start, end) == []
  {
    OutOfRange(batch.events, start, end);
  }

  lemma ReadsLast(s: State, segs: seq<Segment>, last: Segment, start: int, end: int)
    requires ReadAll(s, segs, start, end).Some? && Content(s, last).Some?
    ensures ReadAll(s, segs + [last], start, end) ==
              Some(ReadAll(s, segs, start, end).value + InRange(Content(s, last).value, start, end))
  {
    assert (segs + [last])[..|segs|] == segs;
  }

  lemma PrefixNext(s: State, log: seq<Batch>, k: nat)
    requires Stored(s, log) && k < |log|
    ensures |s.segments| == |log| && s.segments[..k + 1] == s.segments[..k] + [s.segments[k]]
    ensures AllEvents(log[..k + 1]) == AllEvents(log[..k]) + log[k].events
    ensures Fits(s, s.segments[k], log[k]) && Content(s, s.segments[k]) == Some(log[k].events)
  {
    assert log[..k + 1][..k] == log[..k];
  }

  lemma ReadsOneMore(s: State, segs: seq<Segment>, seg: Segment, events: seq<Event>, batch: Batch, start: int, end: int)
    requires ReadAll(s, Overlapping(segs, start, end), start, end) == Some(InRange(events, start, end)) &&
             Fits(s, seg, batch)
    ensures ReadAll(s, Overlapping(segs + [seg], start, end), start, end) ==
              Some(InRange(events + batch.events, start, end))
  {
    var listed := Overlapping(segs, start, end);
    OverlappingLast(segs, seg, start, end);
    InRangeJoin(events, batch.events, start, end);
    if Overlaps(seg, start, end) {
      assert Content(s, seg) == Some(batch.events);
      hide *;
      ReadsLast(s, listed, seg, start, end);
    } else {
      hide *;
      PrunedIsOutside(s, seg, batch, start, end);
      assert listed + [] == listed;
      assert InRange(events, start, end) + [] == InRange(events, start, end);
    }
  }

  lemma NothingRead(s: State, start: int, end: int)
    ensures ReadAll(s, Overlapping([], start, end), start, end) == Some(InRange(AllEvents([]), start, end))
  {
  }

  lemma {:induction false} ReadsPrefix(s: State, log: seq<Batch>, k: nat, start: int, end: int)
    requires Stored(s, log) && k <= |log|
    ensures k <= |s.segments|
    ensures ReadAll(s, Overlapping(s.segments[..k], start, end), start, end) ==
              Some(InRange(AllEvents(log[..k]), start, end))
  {
    hide *;
    SameLength(s, log);
    if k == 0 {
      assert s.segments[..0] == [] && log[..0] == [];
      NothingRead(s, start, end);
    } else {
      PrefixNext(s, log, k - 1);
      ReadsPrefix(s, log, k - 1, start, end);
      ReadsOneMore(s, s.segments[..k - 1], s.segments[k - 1], AllEvents(log[..k - 1]), log[k - 1], start, end);
    }
  }

  /** Reading a range returns exactly the stored events in it, in write order: pruning
      by the catalog loses nothing. */
  lemma ReadIsExact(s: State, log: seq<Batch>, start: int, end: int)
    requires Stored(s, log)
    ensures ReadSpec(s, start, end) == Some(InRange(AllEvents(log), start, end))
  {
    ReadsPrefix(s, log, |log|, start, end);
    assert s.segments[..|log|] == s.segments && log[..|log|] == log;
  }

  // --- paths ----------------------------------------------------------------------------------------

  lemma SuffixedDiffer(front: string, a: string, b: string, tail: string)
    requires front + a + tail == front + b + tail
    ensures a == b
  {
    assert |a| == |b|;
    assert (front + a + tail)[|front|..|front| + |a|] == a;
    assert (front + b + tail)[|front|..|front| + |b|] == b;
  }

  lemma PathsDiffer(cfg: Config, a: string, b: string)
    ensures LocalPath(cfg, a) == LocalPath(cfg, b) ==> a == b
    ensures ColdKey(cfg, a) == ColdKey(cfg, b) ==> a == b
  {
    if LocalPath(cfg, a) == LocalPath(cfg, b) {
      SuffixedDiffer(cfg.coldDir + "/", a, b, ".parquet");
    }
    if ColdKey(cfg, a) == ColdKey(cfg, b) {
      SuffixedDiffer(cfg.prefix + "/", a, b, ".parquet");
    }
  }

  /** An entry still fits when neither its file nor its object changes. */
  lemma StillFits(s: State, s': State, seg: Segment, batch: Batch)
    requires Fits(s, seg, batch) && s'.cfg == s.cfg && (s.archive.Some? ==> s'.archive.Some?) &&
             (s.archive.None? ==> s'.archive.None?)
    requires seg.tier == Warm && seg.path in s.files ==> seg.path in s'.files && s'.files[seg.path] == s.files[seg.path]
    requires seg.tier == Cold && s.archive.Some? && seg.path in s.archive.value ==>
               seg.path in s'.archive.value && s'.archive.value[seg.path] == s.archive.value[seg.path]
    ensures Fits(s', seg, batch)
  {
  }

  // --- writing -----------------------------------------------------------------------------------------

  /** A write may use the id: no stored batch has it, or, with no archive attached,
      those that have it hold the same events. */
  ghost predicate Writable(archived: bool, log: seq<Batch>, id: string, events: seq<Event>) {
    forall i | 0 <= i < |log| && log[i].id == id :: !archived && log[i].events == events
  }

  lemma WriteStores(s: State, log: seq<Batch>, id: string, events: seq<Event>, now: int)
    requires Stored(s, log) && events != [] && Writable(s.archive.Some?, log, id, events)
    ensures Stored(Written(s, id, events, now), log + [Batch(id, events)])
  {
    var s', log' := Written(s, id, events, now), log + [Batch(id, events)];
    forall i | 0 <= i < |log'| ensures Fits(s', s'.segments[i], log'[i]) {
      if i < |log| {
        assert Fits(s, s.segments[i], log[i]);
        PathsDiffer(s.cfg, log[i].id, id);
        hide LocalPath, ColdKey;
        StillFits(s, s', s.segments[i], log[i]);
      }
    }
  }

  // --- migrating, step by step ----------------------------------------------------------------------------

  /** Uploading a copy changes no answer. */
  lemma UploadStores(s: State, log: seq<Batch>, i: nat)
    requires Stored(s, log) && s.archive.Some? && i < |log| && s.segments[i].tier == Warm
    ensures s.segments[i].path in s.files && s.files[s.segments[i].path] == log[i].events
    ensures Stored(Archived(s, s.segments[i]), log)
  {
    assert Fits(s, s.segments[i], log[i]);
    var s' := Archived(s, s.segments[i]);
    forall j | 0 <= j < |log| ensures Fits(s', s'.segments[j], log[j]) {
      assert Fits(s, s.segments[j], log[j]);
      PathsDiffer(s.cfg, log[i].id, log[j].id);
      hide LocalPath, ColdKey, MinTs, MaxTs;
      StillFits(s, s', s.segments[j], log[j]);
    }
  }

  lemma PointedAt(s: State, log: seq<Batch>, i: nat)
    requires Stored(s, log) && s.archive.Some? && i < |log|
    ensures Pointed(s, s.segments[i]).segments ==
              s.segments[i := s.segments[i].(tier := Cold, path := ColdKey(s.cfg, s.segments[i].id))]
  {
    forall j | 0 <= j < i ensures s.segments[j].id != s.segments[i].id {
      assert Fits(s, s.segments[j], log[j]) && Fits(s, s.segments[i], log[i]);
    }
    FirstRepointed(s.segments, i, s.segments[i].id, Cold, ColdKey(s.cfg, s.segments[i].id));
  }

  /** Pointing the catalog at the uploaded copy changes no answer. */
  lemma PointStores(s: State, log: seq<Batch>, i: nat)
    requires Stored(s, log) && s.archive.Some? && i < |log|
    requires ColdKey(s.cfg, log[i].id) in s.archive.value && s.archive.value[ColdKey(s.cfg, log[i].id)] == log[i].events
    ensures Stored(Pointed(s, s.segments[i]), log)
  {
    PointedAt(s, log, i);
    var s' := Pointed(s, s.segments[i]);
    forall j | 0 <= j < |log| ensures Fits(s', s'.segments[j], log[j]) {
      assert Fits(s, s.segments[j], log[j]);
      if j != i {
        StillFits(s, s', s.segments[j], log[j]);
      }
    }
  }

  /** Unlinking a local file nobody points at changes no answer. */
  lemma UnlinkStores(s: State, log: seq<Batch>, i: nat, seg: Segment)
    requires Stored(s, log) && s.archive.Some? && i < |log| && s.segments[i].tier == Cold
    requires seg.path == LocalPath(s.cfg, log[i].id)
    ensures Stored(Unlinked(s, seg), log)
  {
    var s' := Unlinked(s, seg);
    forall j | 0 <= j < |log| ensures Fits(s', s'.segments[j], log[j]) {
      assert Fits(s, s.segments[j], log[j]);
      PathsDiffer(s.cfg, log[i].id, log[j].id);
      hide LocalPath, ColdKey, MinTs, MaxTs;
      StillFits(s, s', s.segments[j], log[j]);
    }
  }

  /** The state after all three steps for one segment. */
  function MovedOne(s: State, seg: Segment): State
    requires s.archive.Some? && seg.path in s.files
  {
    Unlinked(Pointed(Archived(s, seg), seg), seg)
  }

  /** Each intermediate step of moving a warm segment keeps every answer. */
  lemma MoveKeepsEveryAnswer(s: State, log: seq<Batch>, i: nat, start: int, end: int)
    requires Stored(s, log) && s.archive.Some? && i < |log| && s.segments[i].tier == Warm
    ensures s.segments[i].path in s.files
    ensures var seg := s.segments[i];
            var answer := Some(InRange(AllEvents(log), start, end));
            && ReadSpec(s, start, end) == answer
            && ReadSpec(Archived(s, seg), start, end) == answer
            && ReadSpec(Pointed(Archived(s, seg), seg), start, end) == answer
            && ReadSpec(MovedOne(s, seg), start, end) == answer
  {
    MoveStores(s, log, i);
    hide Stored;
    ReadIsExact(s, log, start, end);
    ReadIsExact(Archived(s, s.segments[i]), log, start, end);
    ReadIsExact(Pointed(Archived(s, s.segments[i]), s.segments[i]), log, start, end);
    ReadIsExact(MovedOne(s, s.segments[i]), log, start, end);
  }

  lemma MoveStores(s: State, log: seq<Batch>, i: nat)
    requires Stored(s, log) && s.archive.Some? && i < |log| && s.segments[i].tier == Warm
    ensures s.segments[i].path in s.files
    ensures var seg := s.segments[i];
            && Stored(Archived(s, seg), log) && Stored(Pointed(Archived(s, seg), seg), log)
            && Stored(MovedOne(s, seg), log)
            && MovedOne(s, seg).archive.Some?
            && MovedOne(s, seg).segments == s.segments[i := seg.(tier := Cold, path := ColdKey(s.cfg, seg.id))]
  {
    var seg := s.segments[i];
    assert Fits(s, seg, log[i]);
    hide Stored, Fits, LocalPath, ColdKey;
    UploadStores(s, log, i);
    var s1 := Archived(s, seg);
    PointedAt(s1, log, i) by { SameLength(s1, log); }
    PointStores(s1, log, i);
    var s2 := Pointed(s1, seg);
    UnlinkStores(s2, log, i, seg) by { SameLength(s2, log); }
  }

  lemma SameLength(s: State, log: seq<Batch>)
    requires Stored(s, log)
    ensures |s.segments| == |log|
  {
  }

  // --- a whole migration ----------------------------------------------------------------------------------------

  /** Distinct warm segments of the catalog. */
  ghost predicate WarmIn(segments: seq<Segment>, aged: seq<Segment>) {
    && (forall k | 0 <= k < |aged| :: aged[k].tier == Warm && aged[k] in segments)
    && (forall j, k | 0 <= j < k < |aged| :: aged[j].id != aged[k].id)
  }

  lemma {:induction false} AgedAreWarm(segments: seq<Segment>, now: int, maxWarmAge: int)
    requires DistinctSegs(segments)
    ensures WarmIn(segments, Aged(segments, now, maxWarmAge))
    ensures forall a | a in Aged(segments, now, maxWarmAge) :: now - a.maxTs > maxWarmAge
  {
    if segments != [] {
      AgedAreWarm(segments[1..], now, maxWarmAge);
      var rest := Aged(segments[1..], now, maxWarmAge);
      forall k | 0 <= k < |rest| ensures rest[k] in segments && rest[k].id != segments[0].id {
        assert rest[k] in segments[1..];
      }
    }
  }

  lemma OthersStayWarm(segments: seq<Segment>, aged: seq<Segment>, i: nat, moved: Segment)
    requires WarmIn(segments, aged) && aged != [] && i < |segments| && segments[i] == aged[0]
    ensures WarmIn(segments[i := moved], aged[1..])
  {
    var rest, after := aged[1..], segments[i := moved];
    forall k | 0 <= k < |rest| ensures rest[k].tier == Warm && rest[k] in after {
      assert rest[k] == aged[k + 1];
      var j :| 0 <= j < |segments| && segments[j] == aged[k + 1];
      assert after[j] == segments[j];
    }
  }

  lemma NoneMigrated(s: State)
    requires s.archive.Some?
    ensures Migrated(s, []) == (s, Some(0))
  {
  }

  lemma FirstWarm(s: State, log: seq<Batch>, aged: seq<Segment>) returns (i: nat)
    requires Stored(s, log) && WarmIn(s.segments, aged) && aged != []
    ensures i < |log| && i < |s.segments| && s.segments[i] == aged[0] && aged[0].tier == Warm
  {
    assert aged[0] in s.segments;
    i :| 0 <= i < |s.segments| && s.segments[i] == aged[0];
  }

  lemma {:induction false} MigratedStores(s: State, log: seq<Batch>, aged: seq<Segment>)
    requires Stored(s, log) && s.archive.Some? && WarmIn(s.segments, aged)
    ensures Stored(Migrated(s, aged).0, log) && Migrated(s, aged).1 == Some(|aged|) && Migrated(s, aged).0.archive.Some?
    decreases |aged|
  {
    hide *;
    if aged == [] {
      NoneMigrated(s);
    } else {
      var i := FirstWarm(s, log, aged);
      MoveStores(s, log, i);
      OthersStayWarm(s.segments, aged, i, aged[0].(tier := Cold, path := ColdKey(s.cfg, aged[0].id)));
      MigratedStores(MovedOne(s, aged[0]), log, aged[1..]);
      MigratedFirst(s, aged);
    }
  }

  lemma KeepsArchive(s: State, seg: Segment)
    requires s.archive.Some? && seg.path in s.files
    ensures Unlinked(Pointed(Archived(s, seg), seg), seg).archive.Some?
  {
  }

  lemma MigratedFirst(s: State, aged: seq<Segment>)
    requires s.archive.Some? && aged != [] && aged[0].path in s.files
    ensures var rest := Migrated(MovedOne(s, aged[0]), aged[1..]);
            Migrated(s, aged).0 == rest.0 && (rest.1.Some? ==> Migrated(s, aged).1 == Some(rest.1.value + 1))
  {
    hide Archived, Pointed, Unlinked;
    var s1 := Unlinked(Pointed(Archived(s, aged[0]), aged[0]), aged[0]);
    KeepsArchive(s, aged[0]);
    assert MovedOne(s, aged[0]) == s1;
    var rest := Migrated(s1, aged[1..]);
    assert Migrated(s, aged) == (rest.0, match rest.1 case None => None case Some(k) => Some(k + 1));
  }

  lemma MigrationStores(s: State, log: seq<Batch>, now: int, maxWarmAge: int)
    requires Stored(s, log)
    ensures Stored(MigrateSpec(s, now, maxWarmAge).0, log) && MigrateSpec(s, now, maxWarmAge).1.Some?
  {
    if s.archive.Some? {
      SegsDistinct(s, log);
      hide Stored;
      AgedAreWarm(s.segments, now, maxWarmAge);
      MigratedStores(s, log, Aged(s.segments, now, maxWarmAge));
    }
  }

  // --- retention ---------------------------------------------------------------------------------------------------

  /** The batches whose newest event is within the age limit. */
  function Surviving(log: seq<Batch>, now: int, maxAge: int): seq<Batch> {
    if log == [] then []
    else (if log[0].events != [] && now - MaxTs(log[0].events) > maxAge then [] else [log[0]]) +
           Surviving(log[1..], now, maxAge)
  }

  lemma Newest(events: seq<Event>) returns (e: Event)
    requires events != []
    ensures e in events && e.ts == MaxTs(events) && forall x | x in events :: x.ts <= e.ts
  {
    var m := MaxTs(events);
    assert exists x :: x in events && x.ts == m;
    e :| e in events && e.ts == m;
  }

  /** Retention never drops a batch holding an event within the age limit, and drops a
      batch only when all its events are older. */
  lemma {:induction false} RetentionKeepsYoung(log: seq<Batch>, now: int, maxAge: int, batch: Batch)
    requires batch.events != []
    ensures batch in Surviving(log, now, maxAge) <==>
              batch in log && exists e :: e in batch.events && now - e.ts <= maxAge
  {
    if log != [] {
      assert log == [log[0]] + log[1..];
      RetentionKeepsYoung(log[1..], now, maxAge, batch);
      if log[0] == batch {
        var newest := Newest(batch.events);
      }
    }
  }

  ghost predicate DistinctSegs(segs: seq<Segment>) {
    forall i, j | 0 <= i < j < |segs| :: segs[i].id != segs[j].id
  }

  /** Entries with one id have one age. */
  ghost predicate AgeById(segs: seq<Segment>) {
    forall i, j | 0 <= i < |segs| && 0 <= j < |segs| && segs[i].id == segs[j].id :: segs[i].maxTs == segs[j].maxTs
  }

  lemma {:induction false} ExpiredAre(segs: seq<Segment>, now: int, maxAge: int, seg: Segment)
    ensures seg in Expired(segs, now, maxAge) <==> seg in segs && IsExpired(seg, now, maxAge)
  {
    if segs != [] {
      assert segs == [segs[0]] + segs[1..];
      ExpiredAre(segs[1..], now, maxAge, seg);
    }
  }

  lemma ExpiredIds(segs: seq<Segment>, now: int, maxAge: int, i: nat)
    requires AgeById(segs) && i < |segs|
    ensures segs[i].id in IdsOf(Expired(segs, now, maxAge)) <==> IsExpired(segs[i], now, maxAge)
  {
    var expired := Expired(segs, now, maxAge);
    ExpiredAre(segs, now, maxAge, segs[i]);
    if segs[i].id in IdsOf(expired) {
      var k :| 0 <= k < |expired| && IdsOf(expired)[k] == segs[i].id;
      ExpiredAre(segs, now, maxAge, expired[k]);
      var j :| 0 <= j < |segs| && segs[j] == expired[k];
    }
    if segs[i] in expired {
      var k :| 0 <= k < |expired| && expired[k] == segs[i];
      assert IdsOf(expired)[k] == segs[i].id;
    }
  }

  /** Catalog and log lose the same positions. */
  lemma {:induction false} RetainAligned(s: State, segs: seq<Segment>, log: seq<Batch>, now: int, maxAge: int,
                                         ids: seq<string>)
    requires |segs| == |log|
    requires forall i | 0 <= i < |log| ::
               log[i].events != [] && segs[i].maxTs == MaxTs(log[i].events) &&
               (segs[i].id in ids <==> IsExpired(segs[i], now, maxAge))
    requires forall i | 0 <= i < |log| && !IsExpired(segs[i], now, maxAge) :: Fits(s, segs[i], log[i])
    ensures |Without(segs, ids)| == |Surviving(log, now, maxAge)|
    ensures forall j | 0 <= j < |Surviving(log, now, maxAge)| ::
              Fits(s, Without(segs, ids)[j], Surviving(log, now, maxAge)[j])
  {
    hide Fits, MaxTs;
    if log != [] {
      RetainAligned(s, segs[1..], log[1..], now, maxAge, ids);
      assert segs[0].id in ids <==> IsExpired(segs[0], now, maxAge);
    }
  }

  lemma {:induction false} SurvivingApart(archived: bool, log: seq<Batch>, now: int, maxAge: int)
    requires IdsApart(archived, log)
    ensures IdsApart(archived, Surviving(log, now, maxAge))
    ensures forall b | b in Surviving(log, now, maxAge) :: b in log
  {
    if log != [] {
      SurvivingApart(archived, log[1..], now, maxAge);
      var rest := Surviving(log[1..], now, maxAge);
      forall k | 0 <= k < |rest| && rest[k].id == log[0].id ensures !archived && rest[k].events == log[0].events {
        assert rest[k] in log[1..];
      }
    }
  }

  /** Catalog entries that share a path share an id. */
  lemma SamePathSameId(s: State, log: seq<Batch>, i: nat, j: nat)
    requires Stored(s, log) && i < |log| && j < |log| && i < |s.segments| && j < |s.segments|
    requires s.segments[i].path == s.segments[j].path
    ensures s.segments[i].id == s.segments[j].id
  {
    assert Fits(s, s.segments[i], log[i]) && Fits(s, s.segments[j], log[j]);
    PathsDiffer(s.cfg, log[i].id, log[j].id);
  }

  /** With an archive no two entries of the catalog share a path. */
  lemma SamePlace(s: State, log: seq<Batch>, i: nat, j: nat)
    requires Stored(s, log) && s.archive.Some?
    requires i < |log| && j < |log| && i < |s.segments| && j < |s.segments|
    requires s.segments[i].path == s.segments[j].path
    ensures i == j
  {
    SamePathSameId(s, log, i, j);
    assert Fits(s, s.segments[i], log[i]) && Fits(s, s.segments[j], log[j]);
  }

  lemma ExpiredAt(s: State, log: seq<Batch>, now: int, maxAge: int, seg: Segment) returns (j: nat)
    requires Stored(s, log) && seg in Expired(s.segments, now, maxAge)
    ensures j < |s.segments| && j < |log| && s.segments[j] == seg && IsExpired(seg, now, maxAge) && Fits(s, seg, log[j])
  {
    ExpiredAre(s.segments, now, maxAge, seg);
    j :| 0 <= j < |s.segments| && s.segments[j] == seg;
  }

  /** A survivor's content is not touched. */
  lemma SurvivorFits(s: State, log: seq<Batch>, now: int, maxAge: int, i: nat)
    requires Stored(s, log) && AgeById(s.segments) && i < |log| && !IsExpired(s.segments[i], now, maxAge)
    ensures Fits(Retained(s, now, maxAge), s.segments[i], log[i])
  {
    var s', seg := Retained(s, now, maxAge), s.segments[i];
    var expired := Expired(s.segments, now, maxAge);
    var ids := IdsOf(expired);
    assert Fits(s, seg, log[i]);
    assert seg.tier == Warm ==> seg.path !in PathsOf(s.segments, ids) by {
      if seg.tier == Warm && seg.path in PathsOf(s.segments, ids) {
        var j :| 0 <= j < |s.segments| && s.segments[j].id in ids && s.segments[j].path == seg.path;
        SamePathSameId(s, log, i, j);
        ExpiredIds(s.segments, now, maxAge, i);
      }
    }
    assert seg.tier == Cold ==> seg.path !in ColdPaths(expired) by {
      if seg.tier == Cold && seg.path in ColdPaths(expired) {
        var k :| 0 <= k < |expired| && expired[k].tier == Cold && expired[k].path == seg.path;
        var j := ExpiredAt(s, log, now, maxAge, expired[k]);
        SamePathSameId(s, log, i, j);
      }
    }
    hide LocalPath, ColdKey, PathsOf, ColdPaths, Expired, IdsOf, Without, Stored;
    StillFits(s, s', seg, log[i]);
  }

  /** Retention keeps exactly the surviving batches. */
  lemma RetentionStores(s: State, log: seq<Batch>, now: int, maxAge: int)
    requires Stored(s, log)
    ensures Stored(Retained(s, now, maxAge), Surviving(log, now, maxAge))
  {
    var s', log' := Retained(s, now, maxAge), Surviving(log, now, maxAge);
    var ids := IdsOf(Expired(s.segments, now, maxAge));
    AgesById(s, log);
    SurvivingApart(s.archive.Some?, log, now, maxAge);
    forall i | 0 <= i < |log|
      ensures log[i].events != [] && s.segments[i].maxTs == MaxTs(log[i].events)
      ensures s.segments[i].id in ids <==> IsExpired(s.segments[i], now, maxAge)
      ensures !IsExpired(s.segments[i], now, maxAge) ==> Fits(s', s.segments[i], log[i])
    {
      assert Fits(s, s.segments[i], log[i]);
      ExpiredIds(s.segments, now, maxAge, i);
      if !IsExpired(s.segments[i], now, maxAge) {
        SurvivorFits(s, log, now, maxAge, i);
      }
    }
    hide Fits, Surviving, Without, Expired, IdsOf, PathsOf, ColdPaths;
    RetainAligned(s', s.segments, log, now, maxAge, ids);
  }

  lemma AgesById(s: State, log: seq<Batch>)
    requires Stored(s, log)
    ensures AgeById(s.segments)
  {
    forall i, j | 0 <= i < |s.segments| && 0 <= j < |s.segments| && s.segments[i].id == s.segments[j].id
      ensures s.segments[i].maxTs == s.segments[j].maxTs
    {
      assert Fits(s, s.segments[i], log[i]) && Fits(s, s.segments[j], log[j]);
    }
  }

  lemma SegsDistinct(s: State, log: seq<Batch>)
    requires Stored(s, log) && s.archive.Some?
    ensures DistinctSegs(s.segments)
  {
    forall i, j | 0 <= i < j < |s.segments| ensures s.segments[i].id != s.segments[j].id {
      assert Fits(s, s.segments[i], log[i]) && Fits(s, s.segments[j], log[j]);
    }
  }

  // --- whole runs -----------------------------------------------------------------------------

  datatype Op =
    | Write(id: string, events: seq<Event>, now: int)
    | Migrate(now: int, maxWarmAge: int)
    | Retain(now: int, maxAge: int)

  function Apply(s: State, op: Op): State {
    match op
    case Write(id, events, now) => Written(s, id, events, now)
    case Migrate(now, age) => MigrateSpec(s, now, age).0
    case Retain(now, age) => Retained(s, now, age)
  }

  /** What an operation does to the written batches; migration does nothing. */
  function Logged(log: seq<Batch>, op: Op): seq<Batch> {
    match op
    case Write(id, events, _) => if events == [] then log else log + [Batch(id, events)]
    case Migrate(_, _) => log
    case Retain(now, age) => Surviving(log, now, age)
  }

  function Run(s: State, ops: seq<Op>): State {
    if ops == [] then s else Apply(Run(s, ops[..|ops| - 1]), ops[|ops| - 1])
  }

  /** The log continued by the operations. */
  function LogOf(log: seq<Batch>, ops: seq<Op>): seq<Batch> {
    if ops == [] then log else Logged(LogOf(log, ops[..|ops| - 1]), ops[|ops| - 1])
  }

  /** Every write may use its id, given what is stored then. */
  ghost predicate WritableOps(archived: bool, log: seq<Batch>, ops: seq<Op>) {
    ops != [] ==>
      var init, last := ops[..|ops| - 1], ops[|ops| - 1];
      WritableOps(archived, log, init) && WritableNext(archived, LogOf(log, init), last)
  }

  ghost predicate WritableNext(archived: bool, log: seq<Batch>, op: Op) {
    op.Write? && op.events != [] ==> Writable(archived, log, op.id, op.events)
  }

  function Empty(cfg: Config, archive: Option<Files>): State {
    State(cfg, [], map[], archive)
  }

  lemma NoneStored(cfg: Config, archive: Option<Files>)
    requires archive.Some? ==> Apart(cfg)
    ensures Stored(Empty(cfg, archive), [])
  {
  }

  lemma {:induction false} MigratedArchive(s: State, aged: seq<Segment>)
    requires s.archive.Some?
    ensures Migrated(s, aged).0.archive.Some?
    decreases |aged|
  {
    if aged != [] && aged[0].path in s.files {
      KeepsArchive(s, aged[0]);
      MigratedArchive(MovedOne(s, aged[0]), aged[1..]);
    }
  }

  /** An archive stays attached, or stays missing. */
  lemma ArchiveStays(s: State, op: Op)
    ensures Apply(s, op).archive.Some? == s.archive.Some?
  {
    if op.Migrate? && s.archive.Some? {
      MigratedArchive(s, Aged(s.segments, op.now, op.maxWarmAge));
    }
  }

  lemma ApplyStores(s: State, log: seq<Batch>, op: Op)
    requires Stored(s, log) && WritableNext(s.archive.Some?, log, op)
    ensures Stored(Apply(s, op), Logged(log, op)) && Apply(s, op).archive.Some? == s.archive.Some?
  {
    ArchiveStays(s, op);
    hide Stored, Written, MigrateSpec, Retained, Surviving, Writable;
    match op
    case Write(id, events, now) =>
      if events != [] {
        WriteStores(s, log, id, events, now);
      } else {
        NothingWritten(s, id, now);
      }
    case Migrate(now, age) =>
      MigrationStores(s, log, now, age);
    case Retain(now, age) =>
      RetentionStores(s, log, now, age);
  }

  lemma {:induction false} RunStores(s: State, log: seq<Batch>, ops: seq<Op>)
    requires Stored(s, log) && WritableOps(s.archive.Some?, log, ops)
    ensures Stored(Run(s, ops), LogOf(log, ops)) && Run(s, ops).archive.Some? == s.archive.Some?
  {
    hide Stored, Apply, Logged, WritableNext;
    if ops != [] {
      var init, last := ops[..|ops| - 1], ops[|ops| - 1];
      RunStores(s, log, init);
      ApplyStores(Run(s, init), LogOf(log, init), last);
    }
  }

  lemma NothingWritten(s: State, id: string, now: int)
    ensures Written(s, id, [], now) == s
  {
  }

  /** From any stored state, over any run of writes that may use their ids, migrations
      and retention, reading returns exactly the in-range events of the surviving
      batches, in write order. */
  lemma TieringConserves(s: State, log: seq<Batch>, ops: seq<Op>, start: int, end: int)
    requires Stored(s, log) && WritableOps(s.archive.Some?, log, ops)
    ensures ReadSpec(Run(s, ops), start, end) == Some(InRange(AllEvents(LogOf(log, ops)), start, end))
  {
    hide *;
    RunStores(s, log, ops);
    ReadIsExact(Run(s, ops), LogOf(log, ops), start, end);
  }
}
