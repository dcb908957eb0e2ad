/** The per-file helpers of src/utils.js: the extension classifier
    (getFileType), the date resolver (getFileDate) and the collision-free
    naming (generateUniqueFilename).

    Paths are strings; `path.join` is concatenation with "/", `path.extname`
    is the suffix from the last dot of the last path segment. The metadata
    decoder and `fs.stat` are not called: their outcomes are inputs. The
    random identifiers are drawn from a finite supply given by the caller. */
module Utils {
  import opened Text

  datatype Option<T> = None | Some(value: T)

  datatype FileType = Image | Video | Other

  const ImageExtensions: seq<string> :=
    [".jpg", ".jpeg", ".png", ".gif", ".bmp", ".tiff", ".tif", ".webp", ".heic", ".heif"]
  const VideoExtensions: seq<string> :=
    [".mp4", ".avi", ".mov", ".mkv", ".wmv", ".flv", ".webm", ".m4v", ".3gp"]

  // ---------------------------------------------------------------------
  // Paths

  function Join(dir: string, name: string): string
  {
    dir + "/" + name
  }

  /** The last path segment (`path.basename` without a suffix argument). */
  function Basename(path: string): (r: string)
    ensures |r| <= |path| && r == path[|path| - |r|..]
  {
    path[LastIndexOf(path, '/') + 1..]
  }

  /** `path.extname`: from the last dot of the last segment to its end; empty
      when that segment has no dot, starts with its last dot, or is "..". */
  function Extname(path: string): (r: string)
    ensures |r| <= |path| && r == path[|path| - |r|..]
    ensures r != "" ==> r[0] == '.' && '/' !in r && '.' !in r[1..]
  {
    var start := LastIndexOf(path, '/') + 1;
    var dot := LastIndexOf(path, '.');
    if dot <= start || (|path| == start + 2 && path[start] == '.' && dot == start + 1) then ""
    else path[dot..]
  }

  /** Both directions of when `path.extname` is empty: the last segment has
      no dot after its first character, or it is "..". */
  lemma ExtnameEmpty(path: string)
    ensures var s := LastIndexOf(path, '/') + 1;
      Extname(path) == "" <==> (forall k :: s < k < |path| ==> path[k] != '.') || path[s..] == ".."
  {
  }

  lemma BasenameOfJoin(dir: string, name: string)
    requires '/' !in name
    ensures Basename(Join(dir, name)) == name
  {
    var p := Join(dir, name);
    LastIndexOfIs(p, '/', |dir|);
  }

  // ---------------------------------------------------------------------
  // Classifier (getFileType)

  lemma TablesDisjoint()
    ensures forall e :: e in ImageExtensions ==> e !in VideoExtensions
  {
  }

  /** The category of a file, from its lower-cased extension. */
  function GetFileType(path: string): (r: FileType)
    ensures r == Image <==> ToLower(Extname(path)) in ImageExtensions
    ensures r == Video <==> ToLower(Extname(path)) in VideoExtensions
    ensures r == Other <==> ToLower(Extname(path)) !in ImageExtensions + VideoExtensions
  {
    TablesDisjoint();
    var ext := ToLower(Extname(path));
    if ext in ImageExtensions then Image
    else if ext in VideoExtensions then Video
    else Other
  }

  /** Two paths that differ only in the case of their letters have the same
      extension up to case, hence the same category: ".JPG" is classified
      as ".jpg". */
  lemma ClassificationIgnoresCase(p: string, q: string)
    requires ToLower(p) == ToLower(q)
    ensures ToLower(Extname(p)) == ToLower(Extname(q))
    ensures GetFileType(p) == GetFileType(q)
  {
    SameSeparators(p, q);
    var dot := LastIndexOf(p, '.');
    if dot >= 0 {
      LowerSuffix(p, q, dot);
    }
  }

  /** Case mapping leaves '/' and '.' where they are. */
  lemma SameSeparators(p: string, q: string)
    requires ToLower(p) == ToLower(q)
    ensures |p| == |q|
    ensures forall i :: 0 <= i < |p| ==> (p[i] == '.' <==> q[i] == '.')
    ensures LastIndexOf(p, '/') == LastIndexOf(q, '/')
    ensures LastIndexOf(p, '.') == LastIndexOf(q, '.')
  {
    assert |p| == |ToLower(p)|;
    forall i | 0 <= i < |p|
      ensures (p[i] == '/' <==> q[i] == '/') && (p[i] == '.' <==> q[i] == '.')
    {
      assert ToLower(p)[i] == ToLower(q)[i];
    }
    LastIndexOfIs(q, '/', LastIndexOf(p, '/'));
    LastIndexOfIs(q, '.', LastIndexOf(p, '.'));
  }

  lemma LowerSuffix(p: string, q: string, k: nat)
    requires ToLower(p) == ToLower(q) && k <= |p|
    ensures |p| == |q| && ToLower(p[k..]) == ToLower(q[k..])
  {
    assert |p| == |ToLower(p)|;
    forall i | 0 <= i < |p| - k
      ensures ToLower(p[k..])[i] == ToLower(q[k..])[i]
    {
      assert ToLower(p)[k + i] == ToLower(q)[k + i];
    }
  }

  lemma UpperCaseExtension(p: string)
    ensures GetFileType(ToUpper(p)) == GetFileType(p)
  {
    assert ToLower(ToUpper(p)) == ToLower(p);
    ClassificationIgnoresCase(ToUpper(p), p);
  }

  /** The Kelvin sign lower-cases to 'k', so ".MKV" is a video. */
  lemma KelvinSignExtension()
    ensures GetFileType("a.M\U{212A}V") == Video
  {
    var p := "a.M\U{212A}V";
    LastIndexOfIs(p, '/', -1);
    LastIndexOfIs(p, '.', 1);
    assert Extname(p) == ".M\U{212A}V";
    assert ToLower(".M\U{212A}V") == ".mkv";
  }

  // ---------------------------------------------------------------------
  // Dates (getFileDate)

  type Month = m: int | 1 <= m <= 12 witness 1
  type Day = d: int | 1 <= d <= 31 witness 1

  /** A JavaScript `Date` seen as a local calendar day; `InvalidDate` is a
      `Date` object whose time value is NaN. Time of day is not kept: it
      never changes the year or month a file is filed under. */
  datatype Date = Date(year: int, month: Month, day: Day) | InvalidDate

  /** JavaScript's `a < b` on two `Date` objects: false when either is
      invalid (NaN compares false). */
  predicate Before(a: Date, b: Date)
  {
    a.Date? && b.Date? &&
    (a.year < b.year ||
     (a.year == b.year && (a.month < b.month || (a.month == b.month && a.day < b.day))))
  }

  /** The tag map the metadata decoder returns: for each tag present, `Some`
      when its value is a `Date` object and `None` otherwise. */
  type Tags = map<string, Option<Date>>

  /** Outcome of `exifr.parse`: it throws, returns nothing, or returns tags. */
  datatype Exif = DecodeFailed | NoMetadata | Decoded(tags: Tags)

  /** Outcome of `fs.stat`: it throws, or gives the two timestamps, each of
      which may be missing. */
  datatype Stat = StatFailed | Stat(birthtime: Option<Date>, mtime: Option<Date>)

  const DateFields: seq<string> := ["DateTimeOriginal", "DateTime", "CreateDate", "ModifyDate"]

  predicate HoldsDate(tags: Tags, field: string)
  {
    field in tags && tags[field].Some?
  }

  /** The value of the first field, in the given order, that holds a date. */
  function FirstDate(fields: seq<string>, tags: Tags): (r: Option<Date>)
    ensures r.None? <==> forall i :: 0 <= i < |fields| ==> !HoldsDate(tags, fields[i])
    ensures r.Some? ==>
      exists i :: 0 <= i < |fields| && HoldsDate(tags, fields[i]) && tags[fields[i]] == r &&
        forall j :: 0 <= j < i ==> !HoldsDate(tags, fields[j])
  {
    if fields == [] then None
    else if HoldsDate(tags, fields[0]) then tags[fields[0]]
    else
      var r := FirstDate(fields[1..], tags);
      assert r.Some? ==>
        exists i :: 1 <= i < |fields| && HoldsDate(tags, fields[i]) && tags[fields[i]] == r &&
          forall j :: 0 <= j < i ==> !HoldsDate(tags, fields[j])
      by {
        if r.Some? {
          var i :| 0 <= i < |fields[1..]| && HoldsDate(tags, fields[1..][i]) && tags[fields[1..][i]] == r &&
            forall j :: 0 <= j < i ==> !HoldsDate(tags, fields[1..][j]);
          assert fields[1..][i] == fields[i + 1];
          forall j | 0 <= j < i + 1 ensures !HoldsDate(tags, fields[j]) {
            if j > 0 { assert fields[1..][j - 1] == fields[j]; }
          }
        }
      }
      r
  }

  /** The first date when it is strictly earlier than the second, else the
      second. */
  function Earlier(a: Date, b: Date): (r: Date)
    ensures r == a || r == b
    ensures a.Date? && b.Date? ==> !Before(a, r) && !Before(b, r)
    ensures Before(a, b) ==> r == a
  {
    if Before(a, b) then a else b
  }

  /** The filesystem fallback: the earlier of birthtime and mtime when both
      exist, else whichever exists; absent when `stat` fails. */
  function StatDate(s: Stat): (r: Option<Date>)
    ensures s.StatFailed? ==> r.None?
    ensures s.Stat? && s.birthtime.Some? && s.mtime.Some? ==>
      r == Some(Earlier(s.birthtime.value, s.mtime.value))
    ensures s.Stat? && s.birthtime.Some? && s.mtime.None? ==> r == s.birthtime
    ensures s.Stat? && s.birthtime.None? ==> r == s.mtime
  {
    match s
    case StatFailed => None
    case Stat(birth, m) =>
      if birth.Some? && m.Some? then Some(Earlier(birth.value, m.value))
      else if birth.Some? then birth
      else m
  }

  /** The date used to file `path`: for an image whose metadata decodes, the
      first of DateFields that holds a date; otherwise the filesystem
      fallback. Total: decoder and stat failures become "no signal". */
  function GetFileDate(path: string, exif: Exif, stat: Stat): (r: Option<Date>)
    ensures r.Some? ==>
      (GetFileType(path) == Image && exif.Decoded? &&
       exists f :: f in DateFields && HoldsDate(exif.tags, f) && exif.tags[f] == r) ||
      (stat.Stat? && (r == stat.birthtime || r == stat.mtime))
    ensures r.None? <==>
      (GetFileType(path) != Image || !exif.Decoded? ||
       forall i :: 0 <= i < |DateFields| ==> !HoldsDate(exif.tags, DateFields[i])) &&
      (stat.StatFailed? || (stat.birthtime.None? && stat.mtime.None?))
  {
    var fromMetadata :=
      if GetFileType(path) == Image && exif.Decoded? then FirstDate(DateFields, exif.tags) else None;
    if fromMetadata.Some? then fromMetadata else StatDate(stat)
  }

  /** For an image with decoded tags, a field that holds a date wins over
      every lower-priority field and over the filesystem timestamps. */
  lemma MetadataPriority(path: string, tags: Tags, stat: Stat, i: nat)
    requires GetFileType(path) == Image
    requires i < |DateFields| && HoldsDate(tags, DateFields[i])
    requires forall j :: 0 <= j < i ==> !HoldsDate(tags, DateFields[j])
    ensures GetFileDate(path, Decoded(tags), stat) == tags[DateFields[i]]
  {
    var r := FirstDate(DateFields, tags);
    var k :| 0 <= k < |DateFields| && HoldsDate(tags, DateFields[k]) && tags[DateFields[k]] == r &&
      forall j :: 0 <= j < k ==> !HoldsDate(tags, DateFields[j]);
    assert k == i;
  }

  /** Metadata is consulted only for images, and a decoder that throws,
      finds nothing, or finds tags none of which holds a date is the same as
      no metadata: the filesystem fallback. */
  lemma MetadataFallback(path: string, exif: Exif, stat: Stat)
    requires GetFileType(path) != Image || exif.DecodeFailed? || exif.NoMetadata? ||
      forall i :: 0 <= i < |DateFields| ==> !HoldsDate(exif.tags, DateFields[i])
    ensures GetFileDate(path, exif, stat) == StatDate(stat)
  {
  }

  // ---------------------------------------------------------------------
  // Collision-free naming (generateUniqueFilename)

  /** The retry candidate `${id}_${nameWithoutExt}${ext}`. */
  function RetryName(id: string, name: string): (r: string)
  {
    var ext := Extname(name);
    var stem := name[..|name| - |ext|];
    id + "_" + stem + ext
  }

  /** Splitting off the extension and putting it back is the identity, so a
      retry only prefixes the old name. */
  lemma RetryPrefixes(id: string, name: string)
    ensures RetryName(id, name) == id + "_" + name
  {
    var ext := Extname(name);
    assert name[..|name| - |ext|] + ext == name;
  }

  /** A retry keeps the extension (and hence the classification). */
  lemma RetryKeepsExtension(id: string, name: string)
    requires '/' !in id && '/' !in name && Extname(name) != ""
    ensures Extname(RetryName(id, name)) == Extname(name)
  {
    RetryPrefixes(id, name);
    var pre := id + "_";
    var n := pre + name;
    LastIndexOfIs(name, '/', -1);
    assert '/' !in n;
    LastIndexOfIs(n, '/', -1);
    LastIndexAfterPrefix(pre, name, '.');
    assert n[|pre| + LastIndexOf(name, '.')..] == name[LastIndexOf(name, '.')..];
  }

  /** A prefix does not move the last occurrence of a character the rest
      already holds. */
  lemma LastIndexAfterPrefix(pre: string, s: string, c: char)
    requires LastIndexOf(s, c) >= 0
    ensures LastIndexOf(pre + s, c) == |pre| + LastIndexOf(s, c)
  {
    var n := pre + s;
    var k := LastIndexOf(s, c);
    assert n[|pre| + k] == c;
    forall j | |pre| + k < j < |n| ensures n[j] != c {
      assert n[j] == s[j - |pre|];
    }
    LastIndexOfIs(n, c, |pre| + k);
  }

  /** What `k` retries put in front of a name: the newest id first, each
      followed by an underscore. */
  function RetryPrefix(ids: seq<string>, k: nat): string
    requires k <= |ids|
    decreases k
  {
    if k == 0 then "" else RetryPrefix(ids[1..], k - 1) + ids[0] + "_"
  }

  /** What generateUniqueFilename returns: a path and how many ids it drew,
      or `Exhausted` when the finite id supply ran out first. */
  datatype Naming = Named(path: string, drawn: nat) | Exhausted

  /** The recursion of generateUniqueFilename over a snapshot `existing` of
      the paths that exist, with each retry written as the prefixing that
      RetryPrefixes shows it to be. The j-th name tried is the original name
      behind the first j ids; the result is the first of them that is free. */
  function UniqueFilename(dir: string, name: string, existing: set<string>, ids: seq<string>): (r: Naming)
    ensures r.Named? ==>
      r.drawn <= |ids| && r.path == Join(dir, RetryPrefix(ids, r.drawn) + name) &&
      r.path !in existing &&
      forall j :: 0 <= j < r.drawn ==> Join(dir, RetryPrefix(ids, j) + name) in existing
    ensures r.Exhausted? <==>
      forall j :: 0 <= j <= |ids| ==> Join(dir, RetryPrefix(ids, j) + name) in existing
    decreases |ids|
  {
    if Join(dir, name) !in existing then
      assert RetryPrefix(ids, 0) + name == name;
      Named(Join(dir, name), 0)
    else if ids == [] then
      assert RetryPrefix(ids, 0) + name == name;
      Exhausted
    else
      var next := ids[0] + "_" + name;
      var r := UniqueFilename(dir, next, existing, ids[1..]);
      assert forall j :: 0 <= j < |ids| ==>
        RetryPrefix(ids[1..], j) + next == RetryPrefix(ids, j + 1) + name;
      assert RetryPrefix(ids, 0) + name == name;
      match r
      case Named(p, k) => Named(p, k + 1)
      case Exhausted => Exhausted
  }

  /** A name that is free is kept as it is, and no id is drawn. */
  lemma FreeNameKept(dir: string, name: string, existing: set<string>, ids: seq<string>)
    requires Join(dir, name) !in existing
    ensures UniqueFilename(dir, name, existing, ids) == Named(Join(dir, name), 0)
  {
  }

  /** A name that is taken is never returned: the result is the original
      name behind at least one `<id>_` prefix. */
  lemma TakenNameReplaced(dir: string, name: string, existing: set<string>, ids: seq<string>)
    requires Join(dir, name) in existing
    requires UniqueFilename(dir, name, existing, ids).Named?
    ensures var r := UniqueFilename(dir, name, existing, ids);
      r.path != Join(dir, name) && r.drawn >= 1 && |RetryPrefix(ids, r.drawn)| > 0
  {
    var r := UniqueFilename(dir, name, existing, ids);
    assert RetryPrefix(ids, 0) + name == name;
  }

  /** generateUniqueFilename as a loop: check the candidate, draw an id and
      retry while it exists. */
  method GenerateUniqueFilename(dir: string, name: string, existing: set<string>, ids: seq<string>)
    returns (r: Naming)
    ensures r == UniqueFilename(dir, name, existing, ids)
  {
    var candidate := name;
    var drawn := 0;
    while Join(dir, candidate) in existing
      invariant 0 <= drawn <= |ids|
      invariant UniqueFilename(dir, name, existing, ids) ==
        match UniqueFilename(dir, candidate, existing, ids[drawn..])
        case Named(p, k) => Named(p, k + drawn)
        case Exhausted => Exhausted
      decreases |ids| - drawn
    {
      if drawn == |ids| {
        return Exhausted;
      }
      assert ids[drawn..][1..] == ids[drawn + 1..];
      RetryPrefixes(ids[drawn], candidate);
      candidate := RetryName(ids[drawn], candidate);
      drawn := drawn + 1;
    }
    r := Named(Join(dir, candidate), drawn);
  }
}
