/** The tiered columnar store: immutable segments in local files and in a cold
    archive, found through a catalog. Segment encoding is taken as lossless. */
module TieredStore {
  import opened Options

  datatype Event = Event(id: string, ts: int, payload: string)

  datatype Tier = Hot | Warm | Cold

  datatype Segment = Segment(id: string, path: string, tier: Tier, minTs: int, maxTs: int, rows: nat, createdTs: int)

  type Files = map<string, seq<Event>>

  /** Where local segments and archived ones live. */
  datatype Config = Config(coldDir: string, prefix: string)

  /** Everything stored: the catalog, the local files, and the archive if attached. */
  datatype State = State(cfg: Config, segments: seq<Segment>, files: Files, archive: Option<Files>)

  function LocalPath(cfg: Config, id: string): string {
    cfg.coldDir + "/" + id + ".parquet"
  }

  function ColdKey(cfg: Config, id: string): string {
    cfg.prefix + "/" + id + ".parquet"
  }

  function MinTs(events: seq<Event>): (m: int)
    requires events != []
    ensures forall e | e in events :: m <= e.ts
    ensures exists e :: e in events && e.ts == m
  {
    if |events| == 1 then assert events[0] in events; events[0].ts
    else
      var m := MinTs(events[1..]);
      assert events == [events[0]] + events[1..];
      if events[0].ts < m then events[0].ts else m
  }

  function MaxTs(events: seq<Event>): (m: int)
    requires events != []
    ensures forall e | e in events :: e.ts <= m
    ensures exists e :: e in events && e.ts == m
  {
    if |events| == 1 then assert events[0] in events; events[0].ts
    else
      var m := MaxTs(events[1..]);
      assert events == [events[0]] + events[1..];
      if events[0].ts > m then events[0].ts else m
  }

  // --- the catalog ------------------------------------------------------------------------------

  predicate Overlaps(s: Segment, start: int, end: int) {
    s.minTs <= end && s.maxTs >= start
  }

  predicate IsExpired(s: Segment, now: int, maxAge: int) {
    now - s.maxTs > maxAge
  }

  function Overlapping(segments: seq<Segment>, start: int, end: int): seq<Segment> {
    if segments == [] then []
    else (if Overlaps(segments[0], start, end) then [segments[0]] else []) + Overlapping(segments[1..], start, end)
  }

  function Expired(segments: seq<Segment>, now: int, maxAge: int): seq<Segment> {
    if segments == [] then []
    else (if IsExpired(segments[0], now, maxAge) then [segments[0]] else []) + Expired(segments[1..], now, maxAge)
  }

  function Aged(segments: seq<Segment>, now: int, maxWarmAge: int): seq<Segment> {
    if segments == [] then []
    else (if segments[0].tier == Warm && now - segments[0].maxTs > maxWarmAge then [segments[0]] else []) +
         Aged(segments[1..], now, maxWarmAge)
  }

  /** Repoints the first segment with the id. */
  function Repointed(segments: seq<Segment>, id: string, tier: Tier, path: string): seq<Segment> {
    if segments == [] then []
    else if segments[0].id == id then [segments[0].(tier := tier, path := path)] + segments[1..]
    else [segments[0]] + Repointed(segments[1..], id, tier, path)
  }

  function Without(segments: seq<Segment>, ids: seq<string>): seq<Segment> {
    if segments == [] then []
    else (if segments[0].id in ids then [] else [segments[0]]) + Without(segments[1..], ids)
  }

  /** The paths of the segments removed. */
  function PathsOf(segments: seq<Segment>, ids: seq<string>): set<string> {
    set i | 0 <= i < |segments| && segments[i].id in ids :: segments[i].path
  }

  function IdsOf(segments: seq<Segment>): seq<string> {
    seq(|segments|, i requires 0 <= i < |segments| => segments[i].id)
  }

  class Disk {
    var files: Files

    constructor ()
      ensures files == map[]
    {
      files := map[];
    }
  }

  class Archive {
    const prefix: string
    var objects: Files

    constructor (prefix: string)
      ensures this.prefix == prefix && objects == map[]
    {
      this.prefix := prefix;
      objects := map[];
    }
  }

  class Catalog {
    var segments: seq<Segment>

    constructor ()
      ensures segments == []
    {
      segments := [];
    }

    method Add(seg: Segment)
      modifies this
      ensures segments == old(segments) + [seg]
    {
      segments := segments + [seg];
    }

    method Migrate(id: string, tier: Tier, path: string) returns (found: bool)
      modifies this
      ensures segments == Repointed(old(segments), id, tier, path)
      ensures found <==> exists i :: 0 <= i < |old(segments)| && old(segments)[i].id == id
    {
      for i := 0 to |segments|
        invariant segments == old(segments) && forall j | 0 <= j < i :: segments[j].id != id
      {
        if segments[i].id == id {
          FirstRepointed(segments, i, id, tier, path);
          segments := segments[i := segments[i].(tier := tier, path := path)];
          return true;
        }
      }
      NoneRepointed(segments, id, tier, path);
      return false;
    }

    /** Removes the segments from the catalog and unlinks their local files. */
    method Remove(ids: seq<string>, disk: Disk) returns (removed: nat)
      modifies this, disk
      ensures segments == Without(old(segments), ids)
      ensures disk.files == old(disk.files) - PathsOf(old(segments), ids)
      ensures removed == |old(segments)| - |segments|
    {
      hide Without, PathsOf;
      removed := 0;
      var kept: seq<Segment> := [];
      NothingRemoved(segments, ids);
      for i := 0 to |segments|
        invariant segments == old(segments)
        invariant kept + Without(segments[i..], ids) == Without(segments, ids)
        invariant disk.files == old(disk.files) - PathsOf(segments[..i], ids)
        invariant removed == i - |kept|
      {
        WithoutNext(segments, i, ids);
        PathsNext(segments, i, ids);
        if segments[i].id in ids {
          disk.files := disk.files - {segments[i].path};
          removed := removed + 1;
        } else {
          kept := kept + [segments[i]];
        }
      }
      assert segments[..|segments|] == segments;
      segments := kept;
    }
  }

  lemma PathsNext(segments: seq<Segment>, i: nat, ids: seq<string>)
    requires i < |segments|
    ensures PathsOf(segments[..i + 1], ids) == PathsOf(segments[..i], ids) +
              (if segments[i].id in ids then {segments[i].path} else {})
  {
    var a, b := segments[..i], segments[..i + 1];
    assert b[i] == segments[i] && forall k | 0 <= k < i :: a[k] == b[k];
    forall p | p in PathsOf(b, ids)
      ensures p in PathsOf(a, ids) + (if segments[i].id in ids then {segments[i].path} else {})
    {
      var k :| 0 <= k < |b| && b[k].id in ids && b[k].path == p;
      if k < i {
        assert b[k] == a[k];
      }
    }
    forall p | p in PathsOf(a, ids) ensures p in PathsOf(b, ids) {
      var k :| 0 <= k < |a| && a[k].id in ids && a[k].path == p;
      assert b[k] == a[k];
    }
  }

  lemma NothingRemoved(segments: seq<Segment>, ids: seq<string>)
    ensures PathsOf(segments[..0], ids) == {} && segments[0..] == segments && Without(segments[|segments|..], ids) == []
  {
  }

  lemma WithoutNext(segments: seq<Segment>, i: nat, ids: seq<string>)
    requires i < |segments|
    ensures Without(segments[i..], ids) == (if segments[i].id in ids then [] else [segments[i]]) +
              Without(segments[i + 1..], ids)
  {
    assert segments[i..][1..] == segments[i + 1..];
  }

  lemma {:induction false} FirstRepointed(segments: seq<Segment>, i: nat, id: string, tier: Tier, path: string)
    requires i < |segments| && segments[i].id == id && forall j | 0 <= j < i :: segments[j].id != id
    ensures Repointed(segments, id, tier, path) == segments[i := segments[i].(tier := tier, path := path)]
  {
    if i > 0 {
      FirstRepointed(segments[1..], i - 1, id, tier, path);
      assert segments == [segments[0]] + segments[1..];
    }
  }

  lemma {:induction false} NoneRepointed(segments: seq<Segment>, id: string, tier: Tier, path: string)
    requires forall j | 0 <= j < |segments| :: segments[j].id != id
    ensures Repointed(segments, id, tier, path) == segments
  {
    if segments != [] {
      NoneRepointed(segments[1..], id, tier, path);
    }
  }

  // --- what the store's operations do to the whole state ---------------------------------------------

  function SegmentOf(cfg: Config, id: string, events: seq<Event>, now: int): Segment
    requires events != []
  {
    Segment(id, LocalPath(cfg, id), Warm, MinTs(events), MaxTs(events), |events|, now)
  }

  function Written(s: State, id: string, events: seq<Event>, now: int): State {
    if events == [] then s
    else s.(files := s.files[LocalPath(s.cfg, id) := events],
            segments := s.segments + [SegmentOf(s.cfg, id, events, now)])
  }

  /** A segment's events, from wherever its catalog entry points. */
  function Content(s: State, seg: Segment): Option<seq<Event>> {
    if seg.tier == Cold && s.archive.Some? then
      if seg.path in s.archive.value then Some(s.archive.value[seg.path]) else None
    else if seg.path in s.files then Some(s.files[seg.path])
    else None
  }

  function InRange(events: seq<Event>, start: int, end: int): seq<Event> {
    if events == [] then []
    else InRange(events[..|events| - 1], start, end) +
         (if start <= events[|events| - 1].ts <= end then [events[|events| - 1]] else [])
  }

  /** Reads the listed segments in order; none if some content is missing. */
  function ReadAll(s: State, segs: seq<Segment>, start: int, end: int): Option<seq<Event>> {
    if segs == [] then Some([])
    else
      match ReadAll(s, segs[..|segs| - 1], start, end)
      case None => None
      case Some(events) =>
        match Content(s, segs[|segs| - 1])
        case None => None
        case Some(more) => Some(events + InRange(more, start, end))
  }

  function ReadSpec(s: State, start: int, end: int): Option<seq<Event>> {
    ReadAll(s, Overlapping(s.segments, start, end), start, end)
  }

  // The three steps of migrating one segment.

  function Archived(s: State, seg: Segment): State
    requires s.archive.Some? && seg.path in s.files
  {
    s.(archive := Some(s.archive.value[ColdKey(s.cfg, seg.id) := s.files[seg.path]]))
  }

  function Pointed(s: State, seg: Segment): State {
    s.(segments := Repointed(s.segments, seg.id, Cold, ColdKey(s.cfg, seg.id)))
  }

  function Unlinked(s: State, seg: Segment): State {
    s.(files := s.files - {seg.path})
  }

  /** Migrates segments in order until one cannot be read. */
  function Migrated(s: State, aged: seq<Segment>): (State, Option<nat>)
    requires s.archive.Some?
    decreases |aged|
  {
    if aged == [] then (s, Some(0))
    else if aged[0].path !in s.files then (s, None)
    else
      var (s', n) := Migrated(Unlinked(Pointed(Archived(s, aged[0]), aged[0]), aged[0]), aged[1..]);
      (s', match n case None => None case Some(k) => Some(k + 1))
  }

  function MigrateSpec(s: State, now: int, maxWarmAge: int): (State, Option<nat>) {
    if s.archive.None? then (s, Some(0)) else Migrated(s, Aged(s.segments, now, maxWarmAge))
  }

  function ColdPaths(segs: seq<Segment>): set<string> {
    set i | 0 <= i < |segs| && segs[i].tier == Cold :: segs[i].path
  }

  function Retained(s: State, now: int, maxAge: int): State {
    var expired := Expired(s.segments, now, maxAge);
    var ids := IdsOf(expired);
    s.(archive := (match s.archive case None => None case Some(objects) => Some(objects - ColdPaths(expired))),
       files := s.files - PathsOf(s.segments, ids),
       segments := Without(s.segments, ids))
  }

  function Counted(k: nat, r: (State, Option<nat>)): (State, Option<nat>) {
    (r.0, match r.1 case None => None case Some(n) => Some(k + n))
  }

  lemma MigratedNext(s: State, aged: seq<Segment>, i: nat, k: nat)
    requires s.archive.Some? && i < |aged|
    ensures aged[i].path !in s.files ==> Migrated(s, aged[i..]) == (s, None)
    ensures aged[i].path in s.files ==>
              Counted(k, Migrated(s, aged[i..])) ==
                Counted(k + 1, Migrated(Unlinked(Pointed(Archived(s, aged[i]), aged[i]), aged[i]), aged[i + 1..]))
  {
    hide Archived, Pointed, Unlinked;
    assert aged[i..][0] == aged[i] && aged[i..][1..] == aged[i + 1..];
  }

  lemma MigratedNone(s: State, aged: seq<Segment>)
    requires s.archive.Some?
    ensures Migrated(s, aged[|aged|..]) == (s, Some(0)) && aged[0..] == aged
    ensures Counted(0, Migrated(s, aged)) == Migrated(s, aged)
  {
  }

  lemma ReadNext(s: State, segs: seq<Segment>, i: nat, start: int, end: int)
    requires i < |segs|
    ensures ReadAll(s, segs[..i + 1], start, end) ==
              match ReadAll(s, segs[..i], start, end)
              case None => None
              case Some(events) =>
                match Content(s, segs[i])
                case None => None
                case Some(more) => Some(events + InRange(more, start, end))
  {
    assert segs[..i + 1][..i] == segs[..i];
  }

  lemma ReadNone(s: State, segs: seq<Segment>, start: int, end: int)
    ensures ReadAll(s, segs[..0], start, end) == Some([])
  {
  }

  // --- the store -------------------------------------------------------------------------------------------

  class ColumnarStore {
    const coldDir: string
    const catalog: Catalog
    const disk: Disk
    const archive: Option<Archive>

    constructor (coldDir: string, archive: Option<Archive>)
      requires archive.Some? ==> archive.value.objects == map[]
      ensures this.coldDir == coldDir && this.archive == archive && fresh(catalog) && fresh(disk)
      ensures catalog.segments == [] && disk.files == map[]
    {
      this.coldDir := coldDir;
      this.catalog := new Catalog();
      this.disk := new Disk();
      this.archive := archive;
    }

    ghost function Repr(): set<object> {
      {catalog, disk} + (if archive.Some? then {archive.value} else {})
    }

    ghost function Cfg(): Config {
      Config(coldDir, if archive.Some? then archive.value.prefix else "")
    }

    ghost function Abs(): State
      reads Repr()
    {
      State(Cfg(), catalog.segments, disk.files, if archive.Some? then Some(archive.value.objects) else None)
    }

    /** The id and the time come from the clock in the source. */
    method WriteSegment(id: string, events: seq<Event>, now: int) returns (meta: Option<Segment>)
      modifies catalog, disk
      ensures Abs() == Written(old(Abs()), id, events, now)
      ensures meta == if events == [] then None else Some(SegmentOf(Cfg(), id, events, now))
      ensures meta.Some? ==>
                && meta.value.id == id && meta.value.tier == Warm && meta.value.createdTs == now
                && meta.value.rows == |events| &&
                   (forall e | e in events :: meta.value.minTs <= e.ts <= meta.value.maxTs)
                && meta.value.path == coldDir + "/" + id + ".parquet" && meta.value.path in disk.files
                && disk.files[meta.value.path] == events
                && (exists e :: e in events && e.ts == meta.value.minTs)
                && (exists e :: e in events && e.ts == meta.value.maxTs)
    {
      if events == [] {
        return None;
      }
      var path := coldDir + "/" + id + ".parquet";
      disk.files := disk.files[path := events];
      var seg := Segment(id, path, Warm, MinTs(events), MaxTs(events), |events|, now);
      catalog.Add(seg);
      meta := Some(seg);
    }

    /** One segment, from the archive if it is there and else from its local file. */
    method ReadOne(seg: Segment) returns (events: Option<seq<Event>>)
      ensures events == Content(Abs(), seg)
      ensures seg.tier != Cold ==> (events.Some? <==> seg.path in disk.files)
      ensures archive.None? ==> (events.Some? <==> seg.path in disk.files)
    {
      if seg.tier == Cold && archive.Some? {
        events := if seg.path in archive.value.objects then Some(archive.value.objects[seg.path]) else None;
      } else {
        events := if seg.path in disk.files then Some(disk.files[seg.path]) else None;
      }
    }

    method ReadRange(start: int, end: int) returns (result: Option<seq<Event>>)
      ensures result == ReadSpec(Abs(), start, end)
    {
      hide Overlapping, InRange, Content, ReadAll;
      var overlapping := Listed(start, end);
      var events := [];
      ReadNone(Abs(), overlapping, start, end);
      for i := 0 to |overlapping|
        invariant ReadAll(Abs(), overlapping[..i], start, end) == Some(events)
      {
        ReadNext(Abs(), overlapping, i, start, end);
        var more := ReadOne(overlapping[i]);
        if more.None? {
          FailedFor(Abs(), overlapping, i + 1, start, end);
          return None;
        }
        events := events + InRange(more.value, start, end);
      }
      assert overlapping[..|overlapping|] == overlapping;
      return Some(events);
    }

    method Listed(start: int, end: int) returns (segs: seq<Segment>)
      ensures segs == Overlapping(Abs().segments, start, end)
    {
      segs := Overlapping(catalog.segments, start, end);
    }

    /** Archives one segment's file, repoints the catalog, then unlinks the file. */
    method MigrateOne(seg: Segment)
      requires archive.Some? && seg.path in disk.files
      modifies Repr()
      ensures Abs() == Unlinked(Pointed(Archived(old(Abs()), seg), seg), seg)
      ensures var key := archive.value.prefix + "/" + seg.id + ".parquet";
              key in archive.value.objects && archive.value.objects[key] == old(disk.files[seg.path])
    {
      var key := archive.value.prefix + "/" + seg.id + ".parquet";
      archive.value.objects := archive.value.objects[key := disk.files[seg.path]];
      var _ := catalog.Migrate(seg.id, Cold, key);
      disk.files := disk.files - {seg.path};
    }

    method MigrateWarm(now: int, maxWarmAge: int) returns (migrated: Option<nat>)
      modifies Repr()
      ensures (Abs(), migrated) == MigrateSpec(old(Abs()), now, maxWarmAge)
    {
      if archive.None? {
        return Some(0);
      }
      hide Aged, Archived, Pointed, Unlinked, Migrated;
      var aged := Aged(catalog.segments, now, maxWarmAge);
      var count := 0;
      MigratedNone(Abs(), aged);
      for i := 0 to |aged|
        invariant Migrated(old(Abs()), aged) == Counted(count, Migrated(Abs(), aged[i..]))
      {
        MigratedNext(Abs(), aged, i, count);
        if aged[i].path !in disk.files {
          return None;
        }
        MigrateOne(aged[i]);
        count := count + 1;
      }
      MigratedNone(Abs(), aged);
      return Some(count);
    }

    /** Deletes the cold ones of the segments from the archive. */
    method DeleteArchived(archive: Archive, segs: seq<Segment>)
      modifies archive
      ensures archive.objects == old(archive.objects) - ColdPaths(segs)
    {
      for i := 0 to |segs|
        invariant archive.objects == old(archive.objects) - ColdPaths(segs[..i])
      {
        ColdNext(segs, i);
        if segs[i].tier == Cold {
          archive.objects := archive.objects - {segs[i].path};
        }
      }
      assert segs[..|segs|] == segs;
    }

    method EnforceRetention(now: int, maxAge: int) returns (removed: nat)
      modifies Repr()
      ensures Abs() == Retained(old(Abs()), now, maxAge)
      ensures removed == |old(Abs()).segments| - |Abs().segments|
    {
      var expired := Expired(catalog.segments, now, maxAge);
      if archive.Some? {
        DeleteArchived(archive.value, expired);
      }
      removed := catalog.Remove(IdsOf(expired), disk);
    }
  }

  lemma ColdNext(segs: seq<Segment>, i: nat)
    requires i < |segs|
    ensures ColdPaths(segs[..i + 1]) == ColdPaths(segs[..i]) + (if segs[i].tier == Cold then {segs[i].path} else {})
  {
    var a, b := segs[..i], segs[..i + 1];
    assert b[i] == segs[i] && forall k | 0 <= k < i :: a[k] == b[k];
    forall p | p in ColdPaths(a) ensures p in ColdPaths(b) {
      var k :| 0 <= k < |a| && a[k].tier == Cold && a[k].path == p;
      assert b[k] == a[k];
    }
    forall p | p in ColdPaths(b) ensures p in ColdPaths(a) + (if segs[i].tier == Cold then {segs[i].path} else {}) {
      var k :| 0 <= k < |b| && b[k].tier == Cold && b[k].path == p;
      if k < i {
        assert b[k] == a[k];
      }
    }
  }

  lemma {:induction false} FailedFor(s: State, segs: seq<Segment>, i: nat, start: int, end: int)
    requires i <= |segs| && ReadAll(s, segs[..i], start, end).None?
    ensures ReadAll(s, segs, start, end).None?
    decreases |segs| - i
  {
    if i == |segs| {
      assert segs[..i] == segs;
    } else {
      assert segs[..i + 1][..i] == segs[..i];
      FailedFor(s, segs, i + 1, start, end);
    }
  }
}
