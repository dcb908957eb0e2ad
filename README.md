# Media file organizer: classification, dating, naming and the walk

This project models the core of a command-line tool that sorts the files of a
source tree into a destination tree laid out as
`<destination>/<category>/<year>/<MM>/<name>`, and proves properties of that
model. The parts it models:

- **Text** (`text.dfy`): shared string helpers used by the modelled code:
  - Case mapping, for every character whose lower case is an ASCII letter.
  - Last occurrence of a character.
  - JavaScript's `String(n)` and `padStart` on integers, with a parser that
    reads them back.
- **Utils** (`utils.dfy`), from `src/utils.js`:
  - The extension classifier `getFileType`, with its two extension tables.
  - The date resolver `getFileDate`: metadata fields first for images, then
    the earlier of birthtime and mtime.
  - The collision-free naming `generateUniqueFilename`: a recursive
    specification function, plus a loop proved equal to it.
- **FileProcessor** (`file_processor.dfy`), from `src/fileProcessor.js`:
  - `processFile`: plan the target directory, bump the category counter,
    pick a free name, then (unless in dry-run mode) create the directory and
    move the file.
  - `processRecursively` and `processDirectory`: the depth-first walk.
    Directories whose name starts with `@` are pruned. A throw is caught for
    each file and for each directory.

  The walk is specified in two layers:
  - `DirEvents` lists what the walk meets, in order: the files it hands to
    processFile, and the directories it cannot read.
  - `Replay` gives the effect of each of those events on the counters, the
    filesystem and the id supply.

  The class `Organizer` is the imperative walk over mutable counters and an
  abstract filesystem. Its `ProcessRecursively` is proved equal to `Replay`
  of `DirEvents`.
- **WalkProperties** (`walk_properties.dfy`): what the walk does overall.
  - Which files are visited, and how often.
  - What the summary counters add up to.
  - That an excluded directory is invisible, and that an unreadable one is
    one error and nothing more.
  - That a dry run leaves the disk alone, and that no file is ever lost or
    overwritten.
- **EndToEnd** (`end_to_end.dfy`): one concrete run, worked through:
  - A photo dated by its metadata.
  - A text file dated by its mtime.
  - A file inside an `@` directory.

The outside world enters as values:
- The decoder's output is an `Exif`: throws, returns nothing, or returns
  tags.
- The result of `fs.stat` is a `Stat`.
- The source tree is an `Entry`; an unreadable directory is flagged as such.
- The filesystem, source and destination alike, is two sets of paths: the
  regular files and the directories that exist.
- The paths on which mkdir or rename fail are a set `refused`.
- The random ids are a finite sequence the run consumes.

Behaviour of the code that the model keeps, as written:
- **Double counting.** The category counter is bumped before naming,
  logging, mkdir and rename (`src/fileProcessor.js:57-70` runs before
  `:76-91`). So a file that fails later is counted in its category and in
  `errors`. `FileStepCountsCategory`, `StepStats` and `ReplayStats` state
  this.
- **Year not padded.** The year is interpolated as `String(year)`, with no
  padding (`src/fileProcessor.js:52`). `TargetSubdir` does the same.
- **Unreadable root.** The source root goes through the same `catch` as
  every other directory (`src/fileProcessor.js:32-35`). An unreadable root
  becomes one error, and the run completes without reaching the
  `process.exit(1)` of `src/index.js:30-33`.
- **No return value.** `processDirectory` returns nothing; it prints the
  final counters. `ProcessDirectory` returns the final state, whose `stats`
  are those counters.

## Model

| member | source | states |
|---|---|---|
| Text.ToLower | src/utils.js:9 | lower-casing keeps the length; ToLowerLowers states what it leaves; the classifier applies it to the extension |
| Text.IntToString | src/fileProcessor.js:52 | `String(year)` is non-empty and holds no '/', so `<year>/<MM>` has exactly one separator; IntStringRoundTrip reads it back |
| Text.ToLowerLowers | src/utils.js:9 | the lower-cased string holds no ASCII capital and no Kelvin sign, and lower-casing again changes nothing |
| Text.PadStart | src/fileProcessor.js:51 | the result has the requested width (or the input's length if longer), ends with the input, and is filled with the fill character in front |
| Text.NatToString | src/fileProcessor.js:51 | `String(n)` of a natural is a non-empty digit string, one digit long exactly when n < 10, with no leading zero |
| Text.ParseNatToString | src/fileProcessor.js:51 | reading back the printed digits of n gives n |
| Text.IntStringRoundTrip | src/fileProcessor.js:52 | the printed year is an integer string that reads back as the year |
| Utils.Basename | src/fileProcessor.js:73 | the base name is a suffix of the path |
| Utils.Join | src/fileProcessor.js:14 | `path.join` of a directory and a name, as concatenation with '/' (also src/fileProcessor.js:72 and src/utils.js:61); BasenameOfJoin states that the name can be read back |
| Utils.BasenameOfJoin | src/fileProcessor.js:72-73 | the base name of `dir/name` is `name` when `name` has no '/' |
| Utils.Extname | src/utils.js:9 | the extension is a suffix of the path; when not empty it starts with a '.' and holds no '/' and no other '.', so it lies within the last segment and starts at its last dot |
| Utils.ExtnameEmpty | src/utils.js:68 | the extension is empty exactly when the last segment has no dot after its first character, or is ".." |
| Utils.TablesDisjoint | src/utils.js:5-6 | no extension is in both the image and the video table |
| Utils.GetFileType | src/utils.js:8-18 | image iff the lower-cased extension is in the image table, video iff it is in the video table, other iff it is in neither |
| Utils.ClassificationIgnoresCase | src/utils.js:9 | paths with the same lower case (ASCII letters and the Kelvin sign) have extensions with the same lower case, and so the same category |
| Utils.KelvinSignExtension | src/utils.js:9-14 | `a.M\u212AV` is a video: the Kelvin sign lower-cases to `k`, so the extension is `.mkv` |
| Utils.UpperCaseExtension | src/utils.js:9 | upper-casing a path never changes its category (`.JPG` is an image) |
| Utils.FirstDate | src/utils.js:29-34 | absent iff no field holds a date; otherwise the value of a field that holds a date and that no earlier field precedes |
| Utils.HoldsDate | src/utils.js:31 | the field is present and its value is a `Date` object; FirstDate states how the fields are searched |
| Utils.Earlier | src/utils.js:51-52 | one of the two dates; the first when it is strictly earlier; for two valid dates, neither is earlier than the result |
| Utils.Before | src/utils.js:52 | `<` on two dates: false when either is invalid, otherwise earlier by year, month, then day; Earlier states the choice it makes |
| Utils.StatDate | src/utils.js:45-57 | absent when stat throws; the earlier of birthtime and mtime when both exist; otherwise the one that exists |
| Utils.GetFileDate | src/utils.js:20-58 | a date comes from a metadata field (image, tags decoded) or from a stat timestamp; absent exactly when there is no metadata date and stat failed or gave no timestamp |
| Utils.MetadataPriority | src/utils.js:25-34 | for an image, the highest-priority field holding a date is the result, whatever the lower fields and the timestamps say |
| Utils.MetadataFallback | src/utils.js:23-44 | for a non-image, for a decoder that throws or finds nothing, or for decoded tags none of whose four fields holds a date, the result is the filesystem fallback (the earlier of the two timestamps, or the one there is) |
| Utils.RetryName | src/utils.js:68-71 | the retry candidate `<id>_<stem><ext>`; RetryPrefixes and RetryKeepsExtension state what it is |
| Utils.RetryPrefixes | src/utils.js:68-71 | the retry candidate `<id>_<stem><ext>` is the old name behind `<id>_` |
| Utils.RetryKeepsExtension | src/utils.js:68-71 | a retry keeps the extension of a name that has one |
| Utils.UniqueFilename | src/utils.js:60-79 | a returned path is `dir/<prefixes><name>` for the ids drawn, does not exist, and every earlier candidate existed; exhaustion iff every candidate exists |
| Utils.FreeNameKept | src/utils.js:61-77 | a free name is returned unchanged and draws no id |
| Utils.TakenNameReplaced | src/utils.js:65-74 | a taken name is never returned: at least one prefix is added |
| Utils.GenerateUniqueFilename | src/utils.js:60-79 | the retry loop returns what the recursive definition returns |
| FileProcessor.Excluded | src/fileProcessor.js:18 | a directory name starting with '@'; PrunedDirectoryInvisible states its effect |
| FileProcessor.MonthString | src/fileProcessor.js:51 | the padded month; MonthStringDigits states it is two digits that read back as the month |
| FileProcessor.TargetSubdir | src/fileProcessor.js:48-55 | the date subdirectory; SubdirRoundTrip and SubdirsSeparateMonths state what it separates |
| FileProcessor.MonthStringDigits | src/fileProcessor.js:51 | the month is two digits that read back as the month |
| FileProcessor.SubdirRoundTrip | src/fileProcessor.js:48-55 | year and month can be read back from the subdirectory of a valid date; nothing can be read from `undate` or from an invalid date's `NaN/NaN` |
| FileProcessor.DatedSubdirParses | src/fileProcessor.js:50-52 | `<year>/<MM>` reads back as the year and month |
| FileProcessor.ParseSubdirOf | src/fileProcessor.js:52 | an integer string, '/', and two digits read back as the two numbers |
| FileProcessor.SubdirsSeparateMonths | src/fileProcessor.js:48-55 | two files share a date subdirectory iff both are undated, both have an invalid date, or their dates are in the same month of the same year |
| FileProcessor.CategoryDir | src/fileProcessor.js:57-70 | the top-level folder of a category; CategoryDirsDistinct states it tells categories apart |
| FileProcessor.CategoryDirsDistinct | src/fileProcessor.js:57-70 | different categories go to different top-level folders |
| FileProcessor.Bump | src/fileProcessor.js:57-70 | the counter of the file's category grows by one (lines 61, 65 and 69); FileStepCountsCategory states that no other counter changes |
| FileProcessor.AddError | src/fileProcessor.js:26-35 | one more error (lines 28 and 34); StepStats and ReplayStats state when it is added |
| FileProcessor.Ancestors | src/fileProcessor.js:88 | recursive mkdir of a non-empty path creates (or finds) the path itself |
| FileProcessor.AncestorIsPrefix | src/fileProcessor.js:88 | every directory recursive mkdir creates or finds is a non-empty prefix of the path |
| FileProcessor.MkdirSucceeds | src/fileProcessor.js:88 | recursive mkdir fails when the path is refused or one of its prefixes is a regular file; Organizer.MakeDirectory is proved to succeed exactly then |
| FileProcessor.RenameSucceeds | src/fileProcessor.js:91 | rename fails when the source is gone or either path is refused; Organizer.Rename is proved to succeed exactly then |
| FileProcessor.PlannedDir | src/fileProcessor.js:72 | `destDir/category/subdir`; FileStepMoves and FileStepSucceeds state that files land there |
| FileProcessor.FileStep | src/fileProcessor.js:44-93 | the specification of processFile that Organizer.ProcessFile is proved equal to; FileStepCountsCategory, FileStepKeepsFiles, FileStepMoves, FileStepSucceeds and InvalidDateFails state its properties |
| FileProcessor.MoveStep | src/fileProcessor.js:86-92 | the specification of the mkdir-then-rename tail that Organizer.MoveFile is proved equal to |
| FileProcessor.MoveStepEffect | src/fileProcessor.js:86-92 | the mkdir-then-rename tail keeps the counters and ids, only adds directories, moves nothing when it throws or in dry-run mode, and on success has created the directory chain and moved an existing file to the destination |
| FileProcessor.FileStepCountsCategory | src/fileProcessor.js:57-70 | processing a file adds one to the counter of its category and nothing else, whether or not a later step throws |
| FileProcessor.FileStepKeepsFiles | src/fileProcessor.js:86-92 | a step that throws leaves every file in place; in dry-run mode no file or directory changes, and the step throws only on an invalid date or exhausted ids; directories are only added |
| FileProcessor.FileStepMoves | src/fileProcessor.js:72-91 | a successful non-dry-run step moved the file to `destDir/category/subdir/<prefixes><basename>`, a name that did not exist, after creating that directory chain, and consumed the ids drawn |
| FileProcessor.FileStepSucceeds | src/fileProcessor.js:72-91 | with a usable date, a free name, and mkdir and rename going through, the file is moved under its own name and counted |
| FileProcessor.InvalidDateFails | src/fileProcessor.js:79 | a file with an invalid date is counted in its category, then throws before any directory or file changes |
| FileProcessor.DirEvents | src/fileProcessor.js:9-35 | the events of walking a directory; WalkCensus, PrunedDirectoryInvisible and UnreadableDirectoryIsolated state what they are |
| FileProcessor.EntriesEvents | src/fileProcessor.js:13-31 | the events of a directory's entries in listing order; EntriesEventsAppend and EntryInContext state that entries are walked independently |
| FileProcessor.EntryEvents | src/fileProcessor.js:14-30 | the events of one entry; EntryWalkCensus states their count |
| FileProcessor.ReplayEvent | src/fileProcessor.js:24-34 | the effect of one event; StepStats and StepKeepsFileCount state it |
| FileProcessor.Replay | src/fileProcessor.js:24-34 | the effect of a sequence of events; ReplayAppend, ReplayStats, DryRunLeavesDiskUnchanged and ReplayKeepsFileCount state it |
| FileProcessor.ReplayAppend | src/fileProcessor.js:13-31 | the effect of a sequence of events is the effect of its parts in order |
| FileProcessor.Organizer.constructor | src/fileProcessor.js:7 | the run starts with all four counters at zero over the given filesystem |
| FileProcessor.Organizer.MakeDirectory | src/fileProcessor.js:88 | succeeds iff the path is not refused and no prefix is a regular file; then every prefix directory exists |
| FileProcessor.Organizer.Rename | src/fileProcessor.js:91 | succeeds iff the source exists and neither path is refused; then the file exists under the new name only |
| FileProcessor.Organizer.CountCategory | src/fileProcessor.js:57-70 | names the category's folder and bumps exactly that counter |
| FileProcessor.Organizer.ProcessFile | src/fileProcessor.js:44-93 | the new state, and whether processFile threw, are those of `FileStep` |
| FileProcessor.Organizer.MoveFile | src/fileProcessor.js:86-92 | nothing in dry-run mode; otherwise mkdir, then rename only if mkdir succeeded |
| FileProcessor.Organizer.VisitFile | src/fileProcessor.js:23-29 | a file is processed, and a throw adds exactly one error |
| FileProcessor.Organizer.ProcessRecursively | src/fileProcessor.js:9-36 | the walk's final state is the replay of the events of the directory: an unreadable directory is one error; otherwise the entries in order, pruned `@` directories and non-files contributing nothing |
| FileProcessor.ProcessDirectory | src/fileProcessor.js:6-42 | the run from zeroed counters ends in the replay of the walk of the source root |
| WalkProperties.EventCensusAppend | src/fileProcessor.js:13-31 | counting the events of two parts adds up |
| WalkProperties.EntriesEventsAppend | src/fileProcessor.js:13-31 | the entries of a directory are walked one after another, each on its own |
| WalkProperties.EntryInContext | src/fileProcessor.js:13-31 | what one entry contributes does not depend on its siblings |
| WalkProperties.WalkCensus | src/fileProcessor.js:13-35 | the walk visits exactly as many files as the tree has regular files outside pruned and unreadable directories, and reports each unreadable directory outside pruned ones once |
| WalkProperties.EntriesWalkCensus | src/fileProcessor.js:13-31 | the same count, for the entries of one readable directory |
| WalkProperties.EntryWalkCensus | src/fileProcessor.js:14-30 | the same count, for one entry |
| WalkProperties.FileCensus | src/fileProcessor.js:23-25 | one regular file is one visit |
| WalkProperties.PrunedDirectoryInvisible | src/fileProcessor.js:16-21 | an `@` directory contributes nothing, whatever it contains and whether or not it can be read |
| WalkProperties.UnreadableDirectoryIsolated | src/fileProcessor.js:10-35 | an unreadable subdirectory contributes one error event; its siblings before and after are walked as usual |
| WalkProperties.StepStats | src/fileProcessor.js:24-34 | an unreadable directory adds one error; a file adds one to its category, and one error exactly when processing it threw |
| WalkProperties.ReplayStats | src/fileProcessor.js:24-34 | each category counter grows by the visits of its files; the three together equal the visits; errors grow by the unreadable directories plus at most one per visit |
| WalkProperties.Summary | src/fileProcessor.js:38-41 | in the printed summary, images + videos + others equals the reachable regular files, and errors lies between the unreadable directories and those plus the files |
| WalkProperties.DryRunLeavesDiskUnchanged | src/fileProcessor.js:86-92 | with `--debug`, a whole run creates and moves nothing |
| WalkProperties.StepKeepsFileCount | src/fileProcessor.js:72-91 | one event never changes the number of regular files and only adds directories |
| WalkProperties.ReplayKeepsFileCount | src/fileProcessor.js:72-91 | no file is lost or overwritten in a whole run: files are moved only to names that are free |
| EndToEnd.WalkOfSource | src/fileProcessor.js:13-30 | the walk of the example tree visits `src/a.jpg` and then `src/c.txt`, and nothing inside `src/@ignore` |
| EndToEnd.Dates | src/utils.js:20-58 | the photo is dated by its metadata, the text file by its mtime |
| EndToEnd.PhotoStep | src/fileProcessor.js:44-93 | the photo is moved to `dst/photos/2021/03/a.jpg` and counted as an image |
| EndToEnd.TextStep | src/fileProcessor.js:44-93 | the text file is then moved to `dst/others/2022/07/c.txt` and counted as other |
| EndToEnd.ExampleRun | src/fileProcessor.js:6-42 | the example run ends with images=1, videos=0, others=1, errors=0, and the file under `@ignore` left where it was |

## Left out

- `src/index.js`: command-line parsing, banners and `process.exit(1)`.
  These are plumbing with no decision logic.
- Console output and colouring. They have no effect on state. One exception
  is modelled: the log line at `src/fileProcessor.js:79` throws on an
  invalid date.
- The metadata decoder and the calls `fs.readdir`, `fs.stat`, `fs.access`,
  `fs.mkdir` and `fs.rename` are not executed.
  - Their outcomes are inputs: the `Exif` and `Stat` values, the `Entry`
    tree, and the file and directory sets.
  - Every reason a mkdir or rename can fail (permissions, read-only or
    cross-device mounts) is collapsed into the set `refused`.
- FileProcessor.MkdirSucceeds: recursive mkdir is all-or-nothing in the
  model. The real call can create part of the chain before it fails.
- FileProcessor.Entry: the source tree is a fixed value.
  - Files moved into a directory that the walk has not read yet are not
    seen again.
  - The `Entry` tree and the set `files` are not linked. The walk visits a
    `File` entry whose path is missing from `files`: it is counted, and its
    rename then fails as an error. A real `readdir` never lists such a file.
  - A destination inside the source tree is not modelled.
- Utils.Join: `path.join` normalisation is not modelled (`..`, repeated or
  trailing separators). Join is concatenation with "/".
- Utils.Extname: models Node's `path.extname` on the last '/'-separated
  segment only. Windows separators are not modelled.
- Utils.GenerateUniqueFilename: `Math.random().toString(36)` becomes a
  finite, caller-supplied sequence of ids.
  - Running out of ids is `Exhausted`. The code would keep retrying.
  - `FileStep` treats exhaustion as a throw, so it is a model artefact.
  - Any failure of `fs.access` counts as "the name is free", as in the
    code. Only existence is modelled.
- Utils.Earlier: dates are calendar days (year, month, day). Two timestamps
  on the same day are not ordered. The choice between them never changes
  the year or month a file is filed under.
- Text.ToLower: `toLowerCase` is modelled for the ASCII capitals and the
  Kelvin sign, the only characters whose lower case is an ASCII letter. Other
  characters are kept. No extension in the two tables can arise from them, so
  classification is unaffected.
- Text.ToUpper: upper-casing is modelled for ASCII letters only. It serves
  only `UpperCaseExtension`.
- Utils.Date: time zones are not modelled. The code takes the month in
  local time and the log date in UTC.
- FileProcessor.ProcessDirectory: `async`/`await` scheduling is not
  modelled. The code awaits every step in turn, so the model is sequential.
