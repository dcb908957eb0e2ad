/** The walk and per-file step of src/fileProcessor.js.

    The source tree is a value (`Entry`): a directory lists its entries, or
    cannot be read. The filesystem, source and destination alike, is
    abstract: the set of regular-file paths and the set of directory paths
    that exist, plus
    the paths on which the filesystem refuses to create or move anything.
    The random ids come from a finite supply that the whole run consumes.

    The walk is specified in two layers: `DirEvents` says which files the
    depth-first walk hands to processFile and which directories fail to be
    read, in order; `Replay` says what each of those does to the counters,
    the filesystem and the id supply. The class `Organizer` is the
    imperative walk, proved equal to `Replay` of `DirEvents`. */
module FileProcessor {
  import opened Text
  import opened Utils

  /** One entry of `fs.readdir(dir, { withFileTypes: true })`. `Special` is
      anything that is neither a directory nor a regular file. A directory
      that is not `readable` makes `readdir` throw; its children are then
      never seen. */
  datatype Entry =
    | Dir(name: string, children: seq<Entry>, readable: bool)
    | File(name: string, exif: Exif, stat: Stat)
    | Special(name: string)

  /** Directories whose name starts with '@' are skipped. */
  predicate Excluded(name: string)
  {
    |name| > 0 && name[0] == '@'
  }

  // ---------------------------------------------------------------------
  // Path planning

  /** `String(month).padStart(2, '0')` */
  function MonthString(m: Month): string
  {
    PadStart(NatToString(m), 2, '0')
  }

  lemma MonthStringDigits(m: Month)
    ensures |MonthString(m)| == 2 && AllDigits(MonthString(m))
    ensures ParseNat(MonthString(m)) == m
  {
    var s := NatToString(m);
    ParseNatToString(m);
    if m < 10 {
      assert MonthString(m) == "0" + s;
      ParseNatLeadingZero(s);
    } else {
      assert |s| == 2 by {
        assert s == NatToString(m / 10) + [DigitChar(m % 10)];
      }
    }
  }

  /** Reads a `<year>/<MM>` directory name back into its year and month. */
  function ParseSubdir(s: string): Option<(int, int)>
  {
    if |s| >= 4 && s[|s| - 3] == '/' && AllDigits(s[|s| - 2..]) && IsIntString(s[..|s| - 3])
    then Some((ParseInt(s[..|s| - 3]), ParseNat(s[|s| - 2..] )))
    else None
  }

  /** The date subdirectory: `<year>/<MM>` for a date, `undate` without one.
      An invalid `Date` object is truthy and its fields print as NaN. */
  function TargetSubdir(date: Option<Date>): string
  {
    match date
    case None => "undate"
    case Some(InvalidDate) => "NaN/NaN"
    case Some(Date(year, month, _)) => IntToString(year) + "/" + MonthString(month)
  }

  /** The year and month can be read back from the subdirectory of a date,
      and nothing can be read from the other two. */
  lemma SubdirRoundTrip(date: Option<Date>)
    ensures ParseSubdir(TargetSubdir(date)) ==
      if date.Some? && date.value.Date? then Some((date.value.year, date.value.month as int)) else None
  {
    match date
    case None =>
    case Some(InvalidDate) =>
    case Some(Date(year, month, _)) =>
      DatedSubdirParses(year, month);
  }

  lemma DatedSubdirParses(year: int, month: Month)
    ensures ParseSubdir(IntToString(year) + "/" + MonthString(month)) == Some((year, month as int))
  {
    MonthStringDigits(month);
    IntStringRoundTrip(year);
    ParseSubdirOf(IntToString(year), MonthString(month));
  }

  lemma ParseSubdirOf(y: string, mm: string)
    requires |y| >= 1 && IsIntString(y) && |mm| == 2 && AllDigits(mm)
    ensures ParseSubdir(y + "/" + mm) == Some((ParseInt(y), ParseNat(mm)))
  {
    var r := y + "/" + mm;
    assert r[|r| - 2..] == mm && r[..|r| - 3] == y && r[|r| - 3] == '/';
  }

  /** Files share a date subdirectory exactly when both are undated, both
      have an invalid date, or their dates fall in the same month of the
      same year. */
  lemma SubdirsSeparateMonths(a: Option<Date>, b: Option<Date>)
    ensures TargetSubdir(a) == TargetSubdir(b) <==>
      (a.None? && b.None?) ||
      (a == Some(InvalidDate) && b == Some(InvalidDate)) ||
      (a.Some? && a.value.Date? && b.Some? && b.value.Date? &&
       a.value.year == b.value.year && a.value.month == b.value.month)
  {
    SubdirRoundTrip(a);
    SubdirRoundTrip(b);
    if a.Some? && a.value.Date? && b.Some? && b.value.Date? &&
       a.value.year == b.value.year && a.value.month == b.value.month {
      assert TargetSubdir(a) == TargetSubdir(b);
    }
  }

  /** The top-level folder of each category. */
  function CategoryDir(t: FileType): string
  {
    match t
    case Image => "photos"
    case Video => "videos"
    case Other => "others"
  }

  lemma CategoryDirsDistinct(s: FileType, t: FileType)
    requires CategoryDir(s) == CategoryDir(t)
    ensures s == t
  {
  }

  // ---------------------------------------------------------------------
  // Run state

  /** The `stats` record of processDirectory. */
  datatype Stats = Stats(images: nat, videos: nat, others: nat, errors: nat)

  /** The counter of the file's category, incremented. */
  function Bump(s: Stats, t: FileType): Stats
  {
    match t
    case Image => s.(images := s.images + 1)
    case Video => s.(videos := s.videos + 1)
    case Other => s.(others := s.others + 1)
  }

  function AddError(s: Stats): Stats
  {
    s.(errors := s.errors + 1)
  }

  /** Everything a run reads and changes: the counters, the regular files
      and directories that exist, and the ids not yet drawn. */
  datatype World = World(stats: Stats, files: set<string>, dirs: set<string>, ids: seq<string>)

  /** What stays fixed during a run: the destination root, the `--debug`
      (dry-run) flag, and the paths on which mkdir or rename is refused
      (permissions, read-only or cross-device mounts). */
  datatype Config = Config(destDir: string, debugMode: bool, refused: set<string>)

  /** The directories `mkdir -p d` creates or finds: every prefix of `d`
      that ends at a '/', and `d` itself. */
  function Ancestors(d: string): (r: set<string>)
    ensures |d| > 0 ==> d in r
  {
    assert |d| > 0 ==> d[..|d|] == d;
    set i | 0 < i <= |d| && (i == |d| || d[i] == '/') :: d[..i]
  }

  /** Every directory `mkdir -p d` touches is a prefix of `d`. */
  lemma AncestorIsPrefix(d: string, x: string)
    requires x in Ancestors(d)
    ensures 0 < |x| <= |d| && x == d[..|x|]
  {
  }

  /** `fs.mkdir(d, { recursive: true })` fails when the path is refused or
      when one of its prefixes is a regular file. */
  predicate MkdirSucceeds(cfg: Config, files: set<string>, d: string)
  {
    d !in cfg.refused && Ancestors(d) !! files
  }

  /** `fs.rename(src, dst)` fails when the source is gone or either path is
      refused. */
  predicate RenameSucceeds(cfg: Config, files: set<string>, src: string, dst: string)
  {
    src in files && src !in cfg.refused && dst !in cfg.refused
  }

  // ---------------------------------------------------------------------
  // processFile

  /** The directory a file is filed under: `destDir/category/subdir`. */
  function PlannedDir(cfg: Config, path: string, exif: Exif, stat: Stat): string
  {
    Join(Join(cfg.destDir, CategoryDir(GetFileType(path))), TargetSubdir(GetFileDate(path, exif, stat)))
  }

  /** The new state after processFile, and whether it threw. */
  datatype Outcome = Outcome(world: World, threw: bool)

  /** processFile, step by step: classify, date, count the category, pick
      a free name, log (which throws on an invalid date), then, unless in
      dry-run mode, create the directory and move the file. Running out of
      ids stands for the source's unbounded retrying. */
  function FileStep(cfg: Config, w: World, path: string, exif: Exif, stat: Stat): Outcome
  {
    var counted := w.(stats := Bump(w.stats, GetFileType(path)));
    var dir := PlannedDir(cfg, path, exif, stat);
    match UniqueFilename(dir, Basename(path), w.files + w.dirs, w.ids)
    case Exhausted => Outcome(counted.(ids := []), true)
    case Named(dest, drawn) =>
      var named := counted.(ids := w.ids[drawn..]);
      if GetFileDate(path, exif, stat) == Some(InvalidDate) then Outcome(named, true)
      else MoveStep(cfg, named, path, dir, dest)
  }

  /** The end of processFile: nothing in dry-run mode; otherwise create the
      directory chain, then move the file. */
  function MoveStep(cfg: Config, w: World, path: string, dir: string, dest: string): Outcome
  {
    if cfg.debugMode then Outcome(w, false)
    else if !MkdirSucceeds(cfg, w.files, dir) then Outcome(w, true)
    else
      var made := w.(dirs := w.dirs + Ancestors(dir));
      if !RenameSucceeds(cfg, made.files, path, dest) then Outcome(made, true)
      else Outcome(made.(files := made.files - {path} + {dest}), false)
  }

  /** The end of processFile touches only the filesystem: it keeps the
      counters and the id supply, only adds directories, moves no file when
      it throws, and does nothing at all in dry-run mode. */
  lemma MoveStepEffect(cfg: Config, w: World, path: string, dir: string, dest: string)
    ensures var o := MoveStep(cfg, w, path, dir, dest);
      o.world.stats == w.stats && o.world.ids == w.ids && w.dirs <= o.world.dirs &&
      (o.threw ==> o.world.files == w.files) &&
      (cfg.debugMode ==> !o.threw && o.world == w) &&
      (!cfg.debugMode && !o.threw ==>
         path in w.files && o.world.files == w.files - {path} + {dest} &&
         o.world.dirs == w.dirs + Ancestors(dir))
  {
  }

  /** The category counter is incremented before anything that can throw:
      whatever happens later, exactly one category counter grows by one and
      `errors` is left to the caller. */
  lemma FileStepCountsCategory(cfg: Config, w: World, path: string, exif: Exif, stat: Stat)
    ensures FileStep(cfg, w, path, exif, stat).world.stats == Bump(w.stats, GetFileType(path))
  {
    var dir := PlannedDir(cfg, path, exif, stat);
    var n := UniqueFilename(dir, Basename(path), w.files + w.dirs, w.ids);
    if n.Named? {
      MoveStepEffect(cfg, w.(stats := Bump(w.stats, GetFileType(path)), ids := w.ids[n.drawn..]), path, dir, n.path);
    }
  }

  /** A step that throws leaves every file where it was, and in dry-run
      mode no step touches the filesystem; then it throws only when the
      date is invalid or the ids run out. */
  lemma FileStepKeepsFiles(cfg: Config, w: World, path: string, exif: Exif, stat: Stat)
    ensures var o := FileStep(cfg, w, path, exif, stat);
      (o.threw || cfg.debugMode) ==> o.world.files == w.files
    ensures w.dirs <= FileStep(cfg, w, path, exif, stat).world.dirs
    ensures var o := FileStep(cfg, w, path, exif, stat);
      cfg.debugMode ==>
        o.world.dirs == w.dirs &&
        (o.threw <==>
          GetFileDate(path, exif, stat) == Some(InvalidDate) ||
          UniqueFilename(PlannedDir(cfg, path, exif, stat), Basename(path), w.files + w.dirs, w.ids).Exhausted?)
  {
    var dir := PlannedDir(cfg, path, exif, stat);
    var n := UniqueFilename(dir, Basename(path), w.files + w.dirs, w.ids);
    if n.Named? {
      MoveStepEffect(cfg, w.(stats := Bump(w.stats, GetFileType(path)), ids := w.ids[n.drawn..]), path, dir, n.path);
    }
  }

  /** A step that succeeds outside dry-run mode has created the planned
      directory chain and moved the file to a name in it that did not exist:
      the original name, or that name behind `<id>_` prefixes, the ids
      drawn being removed from the supply. */
  lemma FileStepMoves(cfg: Config, w: World, path: string, exif: Exif, stat: Stat)
    requires !cfg.debugMode
    requires !FileStep(cfg, w, path, exif, stat).threw
    ensures var o := FileStep(cfg, w, path, exif, stat);
      var dir := PlannedDir(cfg, path, exif, stat);
      exists k :: 0 <= k <= |w.ids| &&
        var dest := Join(dir, RetryPrefix(w.ids, k) + Basename(path));
        dest !in w.files + w.dirs &&
        path in w.files &&
        o.world.files == w.files - {path} + {dest} &&
        o.world.dirs == w.dirs + Ancestors(dir) &&
        o.world.ids == w.ids[k..]
  {
    var dir := PlannedDir(cfg, path, exif, stat);
    var n := UniqueFilename(dir, Basename(path), w.files + w.dirs, w.ids);
    assert n.Named?;
    MoveStepEffect(cfg, w.(stats := Bump(w.stats, GetFileType(path)), ids := w.ids[n.drawn..]), path, dir, n.path);
    assert 0 <= n.drawn <= |w.ids|;
  }

  /** Conversely, a file with a usable (or no) date whose name is free in
      its planned directory, where mkdir and rename both go through, is
      moved there under its own name and counted once. */
  lemma FileStepSucceeds(cfg: Config, w: World, path: string, exif: Exif, stat: Stat)
    requires GetFileDate(path, exif, stat) != Some(InvalidDate) && !cfg.debugMode
    requires var dir := PlannedDir(cfg, path, exif, stat);
      Join(dir, Basename(path)) !in w.files + w.dirs &&
      MkdirSucceeds(cfg, w.files, dir) && RenameSucceeds(cfg, w.files, path, Join(dir, Basename(path)))
    ensures var dir := PlannedDir(cfg, path, exif, stat);
      var o := FileStep(cfg, w, path, exif, stat);
      !o.threw && o.world.stats == Bump(w.stats, GetFileType(path)) &&
      o.world.files == w.files - {path} + {Join(dir, Basename(path))} &&
      o.world.dirs == w.dirs + Ancestors(dir) && o.world.ids == w.ids
  {
    var dir := PlannedDir(cfg, path, exif, stat);
    FreeNameKept(dir, Basename(path), w.files + w.dirs, w.ids);
    assert w.ids[0..] == w.ids;
  }

  /** An invalid date is fatal for the file (its log line throws), after
      it has been counted and before any directory is made. */
  lemma InvalidDateFails(cfg: Config, w: World, path: string, exif: Exif, stat: Stat)
    requires GetFileDate(path, exif, stat) == Some(InvalidDate)
    ensures var o := FileStep(cfg, w, path, exif, stat);
      o.threw && o.world.files == w.files && o.world.dirs == w.dirs &&
      o.world.stats == Bump(w.stats, GetFileType(path))
  {
  }

  // ---------------------------------------------------------------------
  // processRecursively: what the walk does, as a list of events

  datatype Event = Visit(path: string, exif: Exif, stat: Stat) | ReadFailed(dir: string)

  /** The events of walking the directory `dirPath`. */
  function DirEvents(dirPath: string, readable: bool, entries: seq<Entry>): seq<Event>
    decreases entries, 1
  {
    if !readable then [ReadFailed(dirPath)] else EntriesEvents(dirPath, entries)
  }

  /** The events of the entries of one directory, in listing order. */
  function EntriesEvents(dirPath: string, entries: seq<Entry>): seq<Event>
    decreases entries, 0
  {
    if entries == [] then []
    else EntriesEvents(dirPath, entries[..|entries| - 1]) + EntryEvents(dirPath, entries[|entries| - 1])
  }

  /** The events of one entry: an excluded directory and a special file
      produce none. */
  function EntryEvents(dirPath: string, e: Entry): seq<Event>
    decreases e
  {
    match e
    case Dir(name, children, readable) =>
      if Excluded(name) then [] else DirEvents(Join(dirPath, name), readable, children)
    case File(name, exif, stat) => [Visit(Join(dirPath, name), exif, stat)]
    case Special(_) => []
  }

  /** The effect of one event: a file is processed, and counted as an error
      if processing threw; a directory that cannot be read is an error. */
  function ReplayEvent(cfg: Config, w: World, ev: Event): World
  {
    match ev
    case ReadFailed(_) => w.(stats := AddError(w.stats))
    case Visit(path, exif, stat) =>
      var o := FileStep(cfg, w, path, exif, stat);
      if o.threw then o.world.(stats := AddError(o.world.stats)) else o.world
  }

  function Replay(cfg: Config, w: World, evs: seq<Event>): World
    decreases |evs|
  {
    if evs == [] then w else Replay(cfg, ReplayEvent(cfg, w, evs[0]), evs[1..])
  }

  lemma {:induction false} ReplayAppend(cfg: Config, w: World, a: seq<Event>, b: seq<Event>)
    ensures Replay(cfg, w, a + b) == Replay(cfg, Replay(cfg, w, a), b)
    decreases |a|
  {
    if a == [] {
      assert a + b == b;
    } else {
      assert (a + b)[0] == a[0] && (a + b)[1..] == a[1..] + b;
      ReplayAppend(cfg, ReplayEvent(cfg, w, a[0]), a[1..], b);
    }
  }

  // ---------------------------------------------------------------------
  // The imperative walk

  class Organizer {
    const destDir: string
    const debugMode: bool
    const refused: set<string>
    var images: nat
    var videos: nat
    var others: nat
    var errors: nat
    var files: set<string>
    var dirs: set<string>
    var ids: seq<string>

    function Settings(): Config
    {
      Config(destDir, debugMode, refused)
    }

    function State(): World
      reads this
    {
      World(Stats(images, videos, others, errors), files, dirs, ids)
    }

    /** A run with all four counters at zero over the given filesystem and
        id supply. */
    constructor (cfg: Config, files: set<string>, dirs: set<string>, ids: seq<string>)
      ensures Settings() == cfg
      ensures State() == World(Stats(0, 0, 0, 0), files, dirs, ids)
    {
      destDir, debugMode, refused := cfg.destDir, cfg.debugMode, cfg.refused;
      images, videos, others, errors := 0, 0, 0, 0;
      this.files, this.dirs, this.ids := files, dirs, ids;
    }

    method MakeDirectory(d: string) returns (ok: bool)
      modifies this`dirs
      ensures ok == MkdirSucceeds(Settings(), files, d)
      ensures dirs == if ok then old(dirs) + Ancestors(d) else old(dirs)
    {
      ok := d !in refused && Ancestors(d) !! files;
      if ok {
        dirs := dirs + Ancestors(d);
      }
    }

    method Rename(src: string, dst: string) returns (ok: bool)
      modifies this`files
      ensures ok == RenameSucceeds(Settings(), old(files), src, dst)
      ensures files == if ok then old(files) - {src} + {dst} else old(files)
    {
      ok := src in files && src !in refused && dst !in refused;
      if ok {
        files := files - {src} + {dst};
      }
    }

    /** processFile; `ok` is false when it throws. */
    method ProcessFile(filePath: string, exif: Exif, stat: Stat) returns (ok: bool)
      modifies this
      ensures Outcome(State(), !ok) == FileStep(Settings(), old(State()), filePath, exif, stat)
    {
      ghost var w := State();
      var fileType := GetFileType(filePath);
      var fileDate := GetFileDate(filePath, exif, stat);
      var targetSubdir := TargetSubdir(fileDate);
      var categoryDir := CountCategory(fileType);
      var finalDestDir := Join(Join(destDir, categoryDir), targetSubdir);
      var fileName := Basename(filePath);
      var naming := GenerateUniqueFilename(finalDestDir, fileName, files + dirs, ids);
      if naming.Exhausted? {
        ids := [];
        return false;
      }
      ids := ids[naming.drawn..];
      if fileDate == Some(InvalidDate) {
        // the log line's toISOString() throws
        return false;
      }
      ok := MoveFile(filePath, finalDestDir, naming.path);
    }

    /** Increments the counter of the category and names its folder. */
    method CountCategory(fileType: FileType) returns (categoryDir: string)
      modifies this`images, this`videos, this`others
      ensures categoryDir == CategoryDir(fileType)
      ensures State() == old(State()).(stats := Bump(old(State()).stats, fileType))
    {
      match fileType {
        case Image =>
          categoryDir := "photos";
          images := images + 1;
        case Video =>
          categoryDir := "videos";
          videos := videos + 1;
        case Other =>
          categoryDir := "others";
          others := others + 1;
      }
    }

    method MoveFile(filePath: string, dir: string, dest: string) returns (ok: bool)
      modifies this
      ensures Outcome(State(), !ok) == MoveStep(Settings(), old(State()), filePath, dir, dest)
    {
      if debugMode {
        return true;
      }
      ok := MakeDirectory(dir);
      if !ok {
        return;
      }
      ok := Rename(filePath, dest);
    }

    /** One regular file of the walk: a throw from processFile is caught
        and counted, and the walk goes on. */
    method VisitFile(path: string, exif: Exif, stat: Stat)
      modifies this
      ensures State() == ReplayEvent(Settings(), old(State()), Visit(path, exif, stat))
    {
      var ok := ProcessFile(path, exif, stat);
      if !ok {
        errors := errors + 1;
      }
    }

    /** processRecursively: list the directory, skip excluded
        subdirectories, descend into the others, process regular files,
        and turn each throw into one error. */
    method ProcessRecursively(currentDir: string, readable: bool, entries: seq<Entry>)
      modifies this
      ensures State() == Replay(Settings(), old(State()), DirEvents(currentDir, readable, entries))
      decreases entries
    {
      if !readable {
        errors := errors + 1;
        return;
      }
      ghost var start := State();
      for i := 0 to |entries|
        invariant State() == Replay(Settings(), start, EntriesEvents(currentDir, entries[..i]))
      {
        var entry := entries[i];
        var fullPath := Join(currentDir, entry.name);
        ghost var done := EntriesEvents(currentDir, entries[..i]);
        assert entries[..i + 1][..i] == entries[..i];
        ReplayAppend(Settings(), start, done, EntryEvents(currentDir, entry));
        match entry {
          case Dir(name, children, childReadable) =>
            if Excluded(name) {
              continue;
            }
            ProcessRecursively(fullPath, childReadable, children);
          case File(_, exif, stat) =>
            VisitFile(fullPath, exif, stat);
          case Special(_) =>
        }
      }
      assert entries[..|entries|] == entries;
    }
  }

  /** processDirectory: a fresh set of counters, one walk from the source
      root, and the summary of the final counters. */
  method ProcessDirectory(sourceDir: string, readable: bool, entries: seq<Entry>, cfg: Config,
                          files: set<string>, dirs: set<string>, ids: seq<string>)
    returns (final: World)
    ensures final == Replay(cfg, World(Stats(0, 0, 0, 0), files, dirs, ids), DirEvents(sourceDir, readable, entries))
  {
    var organizer := new Organizer(cfg, files, dirs, ids);
    organizer.ProcessRecursively(sourceDir, readable, entries);
    final := organizer.State();
  }
}
