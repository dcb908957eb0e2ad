/** Properties of the walk of src/fileProcessor.js, stated over the event
    list `DirEvents` and its effect `Replay`: which files are visited, what
    the summary counters add up to, what pruning and unreadable
    directories do, and what a run does to the filesystem. */
module WalkProperties {
  import opened Utils
  import opened FileProcessor

  /** What a walk should meet in a tree, counted without paths: regular
      files and unreadable directories, neither inside an excluded or
      unreadable directory. */
  datatype Census = Census(files: nat, unreadable: nat)

  function Plus(a: Census, b: Census): Census
  {
    Census(a.files + b.files, a.unreadable + b.unreadable)
  }

  function DirCensus(readable: bool, entries: seq<Entry>): Census
    decreases entries, 1
  {
    if !readable then Census(0, 1) else EntriesCensus(entries)
  }

  function EntriesCensus(entries: seq<Entry>): Census
    decreases entries, 0
  {
    if entries == [] then Census(0, 0) else Plus(EntryCensus(entries[0]), EntriesCensus(entries[1..]))
  }

  function EntryCensus(e: Entry): Census
    decreases e
  {
    match e
    case Dir(name, children, readable) =>
      if Excluded(name) then Census(0, 0) else DirCensus(readable, children)
    case File(_, _, _) => Census(1, 0)
    case Special(_) => Census(0, 0)
  }

  /** The same count taken from a list of events. */
  function EventCensus(evs: seq<Event>): Census
    decreases |evs|
  {
    if evs == [] then Census(0, 0)
    else Plus(if evs[0].Visit? then Census(1, 0) else Census(0, 1), EventCensus(evs[1..]))
  }

  lemma {:induction false} EventCensusAppend(a: seq<Event>, b: seq<Event>)
    ensures EventCensus(a + b).files == EventCensus(a).files + EventCensus(b).files
    ensures EventCensus(a + b).unreadable == EventCensus(a).unreadable + EventCensus(b).unreadable
    decreases |a|
  {
    if a == [] {
      assert a + b == b;
    } else {
      assert (a + b)[0] == a[0] && (a + b)[1..] == a[1..] + b;
      EventCensusAppend(a[1..], b);
    }
  }

  /** The entries of a directory are walked one after the other, each on
      its own: what one entry produces does not depend on its siblings. */
  lemma {:induction false} EntriesEventsAppend(dirPath: string, a: seq<Entry>, b: seq<Entry>)
    ensures EntriesEvents(dirPath, a + b) == EntriesEvents(dirPath, a) + EntriesEvents(dirPath, b)
    decreases |b|
  {
    if b == [] {
      assert a + b == a;
    } else {
      var c := a + b;
      assert c[..|c| - 1] == a + b[..|b| - 1] && c[|c| - 1] == b[|b| - 1];
      EntriesEventsAppend(dirPath, a, b[..|b| - 1]);
    }
  }

  lemma EntryInContext(dirPath: string, entries: seq<Entry>, i: nat)
    requires i < |entries|
    ensures EntriesEvents(dirPath, entries) ==
      EntriesEvents(dirPath, entries[..i]) + EntryEvents(dirPath, entries[i]) + EntriesEvents(dirPath, entries[i + 1..])
  {
    var e := entries[i];
    assert entries == entries[..i] + [e] + entries[i + 1..];
    EntriesEventsAppend(dirPath, entries[..i] + [e], entries[i + 1..]);
    EntriesEventsAppend(dirPath, entries[..i], [e]);
    assert [e][..0] == [];
  }

  /** Every regular file outside excluded and unreadable directories is
      handed to processFile once, and every unreadable directory outside
      excluded ones is reported once: nothing else happens. */
  lemma {:induction false} WalkCensus(dirPath: string, readable: bool, entries: seq<Entry>)
    ensures EventCensus(DirEvents(dirPath, readable, entries)).files == DirCensus(readable, entries).files
    ensures EventCensus(DirEvents(dirPath, readable, entries)).unreadable == DirCensus(readable, entries).unreadable
    decreases entries, 1
  {
    if readable {
      EntriesWalkCensus(dirPath, entries);
    }
  }

  lemma {:induction false} EntriesWalkCensus(dirPath: string, entries: seq<Entry>)
    ensures EventCensus(EntriesEvents(dirPath, entries)).files == EntriesCensus(entries).files
    ensures EventCensus(EntriesEvents(dirPath, entries)).unreadable == EntriesCensus(entries).unreadable
    decreases entries, 0
  {
    if entries == [] {
      assert EntriesEvents(dirPath, entries) == [];
    } else {
      var head := EntryEvents(dirPath, entries[0]);
      var tail := EntriesEvents(dirPath, entries[1..]);
      var all := EventCensus(EntriesEvents(dirPath, entries));
      assert all.files == EventCensus(head).files + EventCensus(tail).files &&
             all.unreadable == EventCensus(head).unreadable + EventCensus(tail).unreadable by {
        EntryInContext(dirPath, entries, 0);
        assert EntriesEvents(dirPath, entries[..0]) == [];
        assert EntriesEvents(dirPath, entries) == head + tail;
        EventCensusAppend(head, tail);
      }
      EntryWalkCensus(dirPath, entries[0]);
      EntriesWalkCensus(dirPath, entries[1..]);
    }
  }

  lemma {:induction false} EntryWalkCensus(dirPath: string, e: Entry)
    ensures EventCensus(EntryEvents(dirPath, e)).files == EntryCensus(e).files
    ensures EventCensus(EntryEvents(dirPath, e)).unreadable == EntryCensus(e).unreadable
    decreases e
  {
    if e.Dir? && !Excluded(e.name) {
      WalkCensus(Join(dirPath, e.name), e.readable, e.children);
    } else if e.File? {
      FileCensus(Join(dirPath, e.name), e.exif, e.stat);
    }
  }

  lemma FileCensus(path: string, exif: Exif, stat: Stat)
    ensures EventCensus([Visit(path, exif, stat)]) == Census(1, 0)
  {
    assert [Visit(path, exif, stat)][1..] == [];
  }

  /** A directory whose name starts with '@' contributes nothing, whatever
      it holds and whether or not it can be read. */
  lemma PrunedDirectoryInvisible(dirPath: string, entries: seq<Entry>, i: nat, children: seq<Entry>, readable: bool)
    requires i < |entries| && entries[i].Dir? && Excluded(entries[i].name)
    ensures EntriesEvents(dirPath, entries) == EntriesEvents(dirPath, entries[..i]) + EntriesEvents(dirPath, entries[i + 1..])
    ensures EntriesEvents(dirPath, entries[i := Dir(entries[i].name, children, readable)]) == EntriesEvents(dirPath, entries)
  {
    var other := entries[i := Dir(entries[i].name, children, readable)];
    EntryInContext(dirPath, entries, i);
    EntryInContext(dirPath, other, i);
    assert other[..i] == entries[..i] && other[i + 1..] == entries[i + 1..];
  }

  /** A subdirectory that cannot be read costs one error and abandons only
      itself: its siblings before and after are walked as usual. */
  lemma UnreadableDirectoryIsolated(dirPath: string, entries: seq<Entry>, i: nat)
    requires i < |entries| && entries[i].Dir? && !entries[i].readable && !Excluded(entries[i].name)
    ensures EntriesEvents(dirPath, entries) ==
      EntriesEvents(dirPath, entries[..i]) + [ReadFailed(Join(dirPath, entries[i].name))] + EntriesEvents(dirPath, entries[i + 1..])
  {
    EntryInContext(dirPath, entries, i);
  }

  /** Visits of files of one category. */
  function KindCount(evs: seq<Event>, t: FileType): nat
    decreases |evs|
  {
    if evs == [] then 0
    else (if evs[0].Visit? && GetFileType(evs[0].path) == t then 1 else 0) + KindCount(evs[1..], t)
  }

  /** A directory that cannot be read adds one error; a file adds one to its
      category, and one more to `errors` exactly when processing it threw. */
  lemma StepStats(cfg: Config, w: World, ev: Event)
    ensures var s := ReplayEvent(cfg, w, ev).stats;
      ev.ReadFailed? ==> s == AddError(w.stats)
    ensures var s := ReplayEvent(cfg, w, ev).stats;
      ev.Visit? ==>
        s == if FileStep(cfg, w, ev.path, ev.exif, ev.stat).threw
             then AddError(Bump(w.stats, GetFileType(ev.path)))
             else Bump(w.stats, GetFileType(ev.path))
  {
    if ev.Visit? {
      FileStepCountsCategory(cfg, w, ev.path, ev.exif, ev.stat);
    }
  }

  /** Each visited file adds one to the counter of its category, whether
      or not it is then moved; errors grow by one per unreadable directory
      and by at most one per visited file. */
  lemma {:induction false} ReplayStats(cfg: Config, w: World, evs: seq<Event>)
    ensures var s := Replay(cfg, w, evs).stats;
      s.images == w.stats.images + KindCount(evs, Image) &&
      s.videos == w.stats.videos + KindCount(evs, Video) &&
      s.others == w.stats.others + KindCount(evs, Other)
    ensures KindCount(evs, Image) + KindCount(evs, Video) + KindCount(evs, Other) == EventCensus(evs).files
    ensures var s := Replay(cfg, w, evs).stats;
      w.stats.errors + EventCensus(evs).unreadable <= s.errors <=
      w.stats.errors + EventCensus(evs).unreadable + EventCensus(evs).files
    decreases |evs|
  {
    if evs != [] {
      StepStats(cfg, w, evs[0]);
      ReplayStats(cfg, ReplayEvent(cfg, w, evs[0]), evs[1..]);
    }
  }

  /** The summary processDirectory prints: the three category counters add
      up to the files the walk meets, and the error counter lies between
      the unreadable directories and those plus the files. */
  lemma Summary(cfg: Config, sourceDir: string, readable: bool, entries: seq<Entry>,
                files: set<string>, dirs: set<string>, ids: seq<string>)
    ensures var s := Replay(cfg, World(Stats(0, 0, 0, 0), files, dirs, ids), DirEvents(sourceDir, readable, entries)).stats;
      var c := DirCensus(readable, entries);
      s.images + s.videos + s.others == c.files &&
      c.unreadable <= s.errors <= c.unreadable + c.files
  {
    var evs := DirEvents(sourceDir, readable, entries);
    ReplayStats(cfg, World(Stats(0, 0, 0, 0), files, dirs, ids), evs);
    WalkCensus(sourceDir, readable, entries);
  }

  /** With `--debug` nothing is created or moved. */
  lemma {:induction false} DryRunLeavesDiskUnchanged(cfg: Config, w: World, evs: seq<Event>)
    requires cfg.debugMode
    ensures Replay(cfg, w, evs).files == w.files && Replay(cfg, w, evs).dirs == w.dirs
    decreases |evs|
  {
    if evs != [] {
      if evs[0].Visit? {
        FileStepKeepsFiles(cfg, w, evs[0].path, evs[0].exif, evs[0].stat);
      }
      DryRunLeavesDiskUnchanged(cfg, ReplayEvent(cfg, w, evs[0]), evs[1..]);
    }
  }

  lemma StepKeepsFileCount(cfg: Config, w: World, ev: Event)
    ensures |ReplayEvent(cfg, w, ev).files| == |w.files|
    ensures w.dirs <= ReplayEvent(cfg, w, ev).dirs
  {
    if ev.Visit? {
      var o := FileStep(cfg, w, ev.path, ev.exif, ev.stat);
      FileStepKeepsFiles(cfg, w, ev.path, ev.exif, ev.stat);
      if !o.threw && !cfg.debugMode {
        FileStepMoves(cfg, w, ev.path, ev.exif, ev.stat);
        var dir := PlannedDir(cfg, ev.path, ev.exif, ev.stat);
        var k :| 0 <= k <= |w.ids| &&
          var dest := Join(dir, RetryPrefix(w.ids, k) + Basename(ev.path));
          dest !in w.files + w.dirs && ev.path in w.files &&
          o.world.files == w.files - {ev.path} + {dest};
        var dest := Join(dir, RetryPrefix(w.ids, k) + Basename(ev.path));
        assert |w.files - {ev.path}| == |w.files| - 1;
        assert dest !in w.files - {ev.path};
      }
    }
  }

  /** No file is lost or overwritten: a run moves files only to names that
      are free, so the number of regular files never changes, and
      directories are only ever added. */
  lemma {:induction false} ReplayKeepsFileCount(cfg: Config, w: World, evs: seq<Event>)
    ensures |Replay(cfg, w, evs).files| == |w.files|
    ensures w.dirs <= Replay(cfg, w, evs).dirs
    decreases |evs|
  {
    if evs != [] {
      StepKeepsFileCount(cfg, w, evs[0]);
      ReplayKeepsFileCount(cfg, ReplayEvent(cfg, w, evs[0]), evs[1..]);
    }
  }
}
