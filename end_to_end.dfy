/** A worked run: `src/a.jpg` with a capture date in its metadata, `b.jpg`
    inside the excluded `src/@ignore`, and `src/c.txt` with only a
    modification time, organised into an empty `dst`. */
module EndToEnd {
  import Text
  import opened Utils
  import opened FileProcessor

  const Shot: Date := Date(2021, 3, 5)
  const Edited: Date := Date(2022, 7, 1)

  const PhotoExif: Exif := Decoded(map["DateTimeOriginal" := Some(Shot)])
  const PhotoStat: Stat := Stat(None, None)
  const TextExif: Exif := NoMetadata
  const TextStat: Stat := Stat(None, Some(Edited))

  const Source: seq<Entry> := [
    File("a.jpg", PhotoExif, PhotoStat),
    Dir("@ignore", [File("b.jpg", NoMetadata, Stat(None, Some(Edited)))], true),
    File("c.txt", TextExif, TextStat)
  ]

  const PhotoPath: string := Join("src", "a.jpg")
  const TextPath: string := Join("src", "c.txt")
  const IgnoredPath: string := Join(Join("src", "@ignore"), "b.jpg")

  const PhotoDir: string := Join(Join("dst", "photos"), "2021/03")
  const TextDir: string := Join(Join("dst", "others"), "2022/07")
  const PhotoDest: string := Join(PhotoDir, "a.jpg")
  const TextDest: string := Join(TextDir, "c.txt")

  const Run: Config := Config("dst", false, {})

  const Start: World := World(Stats(0, 0, 0, 0), {PhotoPath, IgnoredPath, TextPath}, {}, [])
  const Middle: World := World(Stats(1, 0, 0, 0), {IgnoredPath, TextPath, PhotoDest}, Ancestors(PhotoDir), [])
  const End: World :=
    World(Stats(1, 0, 1, 0), {IgnoredPath, PhotoDest, TextDest}, Ancestors(PhotoDir) + Ancestors(TextDir), [])

  lemma Spelling()
    ensures PhotoPath == "src/a.jpg" && TextPath == "src/c.txt" && IgnoredPath == "src/@ignore/b.jpg"
    ensures PhotoDir == "dst/photos/2021/03" && TextDir == "dst/others/2022/07"
    ensures PhotoDest == "dst/photos/2021/03/a.jpg" && TextDest == "dst/others/2022/07/c.txt"
  {
  }

  lemma Distinct()
    ensures PhotoPath != TextPath && PhotoPath != IgnoredPath && TextPath != IgnoredPath
    ensures PhotoDest !in {PhotoPath, IgnoredPath, TextPath} && TextDest !in {PhotoPath, IgnoredPath, TextPath, PhotoDest}
  {
    Spelling();
    assert PhotoPath[4] != TextPath[4];
    assert |PhotoPath| != |IgnoredPath| && |TextPath| != |IgnoredPath|;
    assert PhotoDest[4] != TextDest[4];
    assert |PhotoDest| != |PhotoPath| && |PhotoDest| != |IgnoredPath| && |PhotoDest| != |TextPath|;
    assert |TextDest| != |PhotoPath| && |TextDest| != |IgnoredPath| && |TextDest| != |TextPath|;
  }

  /** The walk hands over the two files outside `@ignore`, in order. */
  lemma WalkOfSource()
    ensures DirEvents("src", true, Source) == [Visit(PhotoPath, PhotoExif, PhotoStat), Visit(TextPath, TextExif, TextStat)]
  {
    var e0 := EntryEvents("src", Source[0]);
    var e1 := EntryEvents("src", Source[1]);
    var e2 := EntryEvents("src", Source[2]);
    assert e1 == [];
    assert Source[..2][..1] == Source[..1];
    assert Source[..3] == Source;
    assert Source[..1][..0] == [];
    assert EntriesEvents("src", Source[..1]) == e0;
    assert EntriesEvents("src", Source[..2]) == e0 + e1;
    assert EntriesEvents("src", Source) == e0 + e1 + e2;
  }

  lemma PhotoIsImage()
    ensures GetFileType(PhotoPath) == Image && Basename(PhotoPath) == "a.jpg"
  {
    var p := PhotoPath;
    Spelling();
    Text.LastIndexOfIs(p, '/', 3);
    Text.LastIndexOfIs(p, '.', 5);
    assert Extname(p) == ".jpg";
    assert Text.ToLower(".jpg") == ".jpg";
  }

  lemma TextIsOther()
    ensures GetFileType(TextPath) == Other && Basename(TextPath) == "c.txt"
  {
    var p := TextPath;
    Spelling();
    Text.LastIndexOfIs(p, '/', 3);
    Text.LastIndexOfIs(p, '.', 5);
    assert Extname(p) == ".txt";
    assert Text.ToLower(".txt") == ".txt";
  }

  lemma YearStrings()
    ensures Text.IntToString(2021) == "2021" && Text.IntToString(2022) == "2022"
  {
    assert Text.NatToString(20) == "20";
    assert Text.NatToString(202) == "202";
  }

  lemma MonthStrings()
    ensures MonthString(3) == "03" && MonthString(7) == "07"
  {
    assert MonthString(3) == "0" + Text.NatToString(3);
    assert MonthString(7) == "0" + Text.NatToString(7);
  }

  lemma MonthSubdirs()
    ensures TargetSubdir(Some(Shot)) == "2021/03"
    ensures TargetSubdir(Some(Edited)) == "2022/07"
  {
    YearStrings();
    MonthStrings();
  }

  lemma EmptyUnionLeft<T>(a: set<T>)
    ensures {} + a == a
  {
  }

  /** The photo is dated by its metadata, the text file by its mtime. */
  lemma Dates()
    ensures GetFileDate(PhotoPath, PhotoExif, PhotoStat) == Some(Shot)
    ensures GetFileDate(TextPath, TextExif, TextStat) == Some(Edited)
  {
    PhotoIsImage();
    TextIsOther();
    assert HoldsDate(PhotoExif.tags, DateFields[0]);
  }

  lemma Placed()
    ensures PlannedDir(Run, PhotoPath, PhotoExif, PhotoStat) == PhotoDir
    ensures PlannedDir(Run, TextPath, TextExif, TextStat) == TextDir
  {
    PhotoIsImage();
    TextIsOther();
    Dates();
    MonthSubdirs();
  }

  /** mkdir -p of the two planned directories meets no regular file. */
  lemma DirectoriesFree()
    ensures MkdirSucceeds(Run, Start.files, PhotoDir)
    ensures MkdirSucceeds(Run, Middle.files, TextDir)
  {
    Spelling();
    forall x | x in Ancestors(PhotoDir) ensures x !in Start.files {
      AncestorIsPrefix(PhotoDir, x);
      assert x[0] == 'd';
    }
    forall x | x in Ancestors(TextDir) ensures x !in Middle.files {
      AncestorIsPrefix(TextDir, x);
      assert x[0] == 'd' && |x| <= 18;
    }
  }

  /** Neither destination name is taken when it is checked. */
  lemma NamesFree()
    ensures PhotoDest !in Start.files + Start.dirs
    ensures TextDest !in Middle.files + Middle.dirs
  {
    Spelling();
    if TextDest in Middle.dirs {
      AncestorIsPrefix(PhotoDir, TextDest);
    }
  }

  lemma MovesReplaceNames()
    ensures Start.files - {PhotoPath} + {PhotoDest} == Middle.files
    ensures Middle.files - {TextPath} + {TextDest} == End.files
  {
    Distinct();
  }

  /** Filing the photo, whose metadata dates it to `Shot`, moves it to
      `dst/photos/2021/03/a.jpg`. */
  lemma PhotoStep(w: World, exif: Exif)
    requires w.stats == Start.stats && w.files == Start.files && w.dirs == Start.dirs && w.ids == []
    requires GetFileDate(PhotoPath, exif, PhotoStat) == Some(Shot)
    ensures var o := FileStep(Run, w, PhotoPath, exif, PhotoStat);
      !o.threw && o.world.stats == Middle.stats && o.world.files == Middle.files &&
      o.world.dirs == Middle.dirs && o.world.ids == []
  {
    PhotoIsImage();
    MonthSubdirs();
    assert PlannedDir(Run, PhotoPath, exif, PhotoStat) == PhotoDir;
    NamesFree();
    DirectoriesFree();
    FileStepSucceeds(Run, w, PhotoPath, exif, PhotoStat);
    MovesReplaceNames();
    EmptyUnionLeft(Ancestors(PhotoDir));
  }

  /** Then filing the text file moves it to `dst/others/2022/07/c.txt`. */
  lemma TextStep(w: World)
    requires w.stats == Middle.stats && w.files == Middle.files && w.dirs == Middle.dirs && w.ids == []
    ensures var o := FileStep(Run, w, TextPath, TextExif, TextStat);
      !o.threw && o.world.stats == End.stats && o.world.files == End.files
  {
    Placed();
    TextIsOther();
    Dates();
    NamesFree();
    DirectoriesFree();
    FileStepSucceeds(Run, w, TextPath, TextExif, TextStat);
    MovesReplaceNames();
  }

  /** The two steps of the run, for any metadata that dates the photo to
      `Shot`. */
  lemma TwoSteps(exif: Exif)
    requires GetFileDate(PhotoPath, exif, PhotoStat) == Some(Shot)
    ensures var w := Replay(Run, Start, [Visit(PhotoPath, exif, PhotoStat), Visit(TextPath, TextExif, TextStat)]);
      w.stats == End.stats && w.files == End.files
  {
    var v1 := Visit(PhotoPath, exif, PhotoStat);
    var v2 := Visit(TextPath, TextExif, TextStat);
    PhotoStep(Start, exif);
    var w1 := ReplayEvent(Run, Start, v1);
    TextStep(w1);
    var w2 := ReplayEvent(Run, w1, v2);
    assert [v1, v2][1..] == [v2];
    assert Replay(Run, Start, [v1, v2]) == Replay(Run, w1, [v2]);
    assert Replay(Run, w1, [v2]) == w2;
  }

  /** The outcome of the run: the photo is under its capture month, the
      text file under its modification month, the file in the excluded
      directory stays where it was, and the summary reads images=1,
      videos=0, others=1, errors=0. */
  lemma ExampleRun()
    ensures var w := Replay(Run, Start, DirEvents("src", true, Source));
      w.stats == Stats(1, 0, 1, 0) &&
      w.files == {"src/@ignore/b.jpg", "dst/photos/2021/03/a.jpg", "dst/others/2022/07/c.txt"}
  {
    WalkOfSource();
    Dates();
    TwoSteps(PhotoExif);
    Spelling();
  }
}
