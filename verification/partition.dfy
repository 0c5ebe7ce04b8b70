/** `create_backup_directory`: the date-partitioned directory
    `base/YYYY/MM/DD` and the loop that creates its missing levels. */
module Partition {
  import opened Results
  import opened Text
  import opened Calendar
  import opened Paths
  import opened FileSystems

  /** `os.path.join(base, str(year))` */
  function YearDir(base: Path, d: Date): Path
  {
    Join(base, DecimalString(d.year))
  }

  /** The year directory joined with `str(month).zfill(2)`. */
  function MonthDir(base: Path, d: Date): Path
  {
    Join(YearDir(base, d), ZeroPad(d.month, 2))
  }

  /** The month directory joined with `str(day).zfill(2)`: the directory the
      backup is written to. */
  function DayDir(base: Path, d: Date): Path
  {
    Join(MonthDir(base, d), ZeroPad(d.day, 2))
  }

  /** The list the creation loop walks, outermost first. */
  function Levels(base: Path, d: Date): seq<Path>
  {
    [YearDir(base, d), MonthDir(base, d), DayDir(base, d)]
  }

  /** What `create_backup_directory` returns or raises after a walk. */
  function PrepareResult(w: Walked, day: Path): Result<Path>
  {
    if w.failure.Raised? then Err(w.failure.error) else Ok(day)
  }

  /** `create_backup_directory(base)` on the date `today`. Besides the
      result it returns the paths it called `os.makedirs` on, in order. */
  method CreateBackupDirectory(fs: FileSystem, base: Path, today: Date) returns (r: Result<Path>, calls: seq<Path>)
    modifies fs
    ensures var w := Walk(old(fs.dirs), fs.refused, Levels(base, today));
      && fs.dirs == w.dirs
      && calls == w.calls
      && r == PrepareResult(w, DayDir(base, today))
  {
    var yearDir := YearDir(base, today);
    var monthDir := MonthDir(base, today);
    var dayDir := DayDir(base, today);
    var failure;
    failure, calls := CreateEach(fs, [yearDir, monthDir, dayDir]);
    r := if failure.Raised? then Err(failure.error) else Ok(dayDir);
  }

  /** The loop `for directory in levels: if not os.path.exists(directory):
      os.makedirs(directory)`, stopping at the first call that raises. */
  method CreateEach(fs: FileSystem, levels: seq<Path>) returns (failure: Status, calls: seq<Path>)
    modifies fs
    ensures var w := Walk(old(fs.dirs), fs.refused, levels);
      fs.dirs == w.dirs && calls == w.calls && failure == w.failure
  {
    calls := [];
    var i := 0;
    while i < |levels|
      invariant 0 <= i <= |levels|
      invariant var w := Walk(fs.dirs, fs.refused, levels[i..]);
        Walk(old(fs.dirs), fs.refused, levels) == Walked(w.dirs, calls + w.calls, w.failure)
    {
      var directory := levels[i];
      assert levels[i..][0] == directory && levels[i..][1..] == levels[i + 1..];
      WalkStep(fs.dirs, fs.refused, levels[i..]);
      if !fs.Exists(directory) {
        var s := fs.MakeDirs(directory);
        calls := calls + [directory];
        if s.Raised? {
          return s, calls;
        }
      }
      i := i + 1;
    }
    failure := Done;
  }

  /** The date a `.../YYYY/MM/DD` directory stands for: the last three
      components read as numbers. */
  function DateOfDir(p: Path): Option<Date>
  {
    if |p| < 6 || p[|p| - 3] != '/' || p[|p| - 6] != '/' then None
    else DateOfFields(BaseName(p[..|p| - 6]), p[|p| - 5..|p| - 3], p[|p| - 2..])
  }

  function DateOfFields(yy: string, mm: string, dd: string): Option<Date>
  {
    if yy != [] && AllDigits(yy) && AllDigits(mm) && AllDigits(dd)
    then Some(Date(ParseDigits(yy), ParseDigits(mm), ParseDigits(dd)))
    else None
  }

  lemma DigitsHaveNoSeparator(s: string)
    requires AllDigits(s)
    ensures '/' !in s
  {
  }

  /** Joining a run of digits onto a path ends the path with those digits,
      and adds one separator after a path that ended with a digit. */
  lemma JoinDigits(a: Path, s: string)
    requires s != [] && AllDigits(s)
    ensures var r := Join(a, s);
      && r != [] && IsDigit(r[|r| - 1]) && BaseName(r) == s && IsPrefix(a, r)
      && RStripSlashes(Head(r)) == RStripSlashes(a)
      && (a != [] && IsDigit(a[|a| - 1]) ==> r == a + "/" + s)
  {
    DigitsHaveNoSeparator(s);
    JoinPlacesInside(a, s);
    var r := Join(a, s);
    assert r[|r| - 1] == s[|s| - 1];
  }

  /** The year directory is the base joined with `str(year)`: its parent
      is the base up to trailing separators. The month and day levels follow
      after single separators with two digits each. */
  lemma DayDirLayout(base: Path, d: Date)
    requires ValidDate(d)
    ensures var y, m := YearDir(base, d), MonthDir(base, d);
      && |ZeroPad(d.month, 2)| == 2 && |ZeroPad(d.day, 2)| == 2
      && m == y + "/" + ZeroPad(d.month, 2)
      && DayDir(base, d) == m + "/" + ZeroPad(d.day, 2)
      && y != [] && BaseName(y) == DecimalString(d.year)
      && IsPrefix(base, y) && RStripSlashes(Head(y)) == RStripSlashes(base)
  {
    ZeroPadField(d.month, 2);
    ZeroPadField(d.day, 2);
    JoinDigits(base, DecimalString(d.year));
    JoinDigits(YearDir(base, d), ZeroPad(d.month, 2));
    JoinDigits(MonthDir(base, d), ZeroPad(d.day, 2));
  }

  lemma SplitDayDir(y: Path, mm: string, dd: string)
    requires |mm| == 2 && |dd| == 2
    ensures var p := y + "/" + mm + "/" + dd;
      && |p| == |y| + 6 && p[|p| - 3] == '/' && p[|p| - 6] == '/'
      && p[..|p| - 6] == y && p[|p| - 5..|p| - 3] == mm && p[|p| - 2..] == dd
  {
  }

  lemma DateOfDirParts(y: Path, mm: string, dd: string)
    requires |mm| == 2 && |dd| == 2
    ensures DateOfDir(y + "/" + mm + "/" + dd) == DateOfFields(BaseName(y), mm, dd)
  {
    SplitDayDir(y, mm, dd);
  }

  /** A year directory named by the year, followed by the two-digit month and
      day, reads back as the date. */
  lemma FieldsNameDate(y: Path, mm: string, dd: string, d: Date)
    requires BaseName(y) == DecimalString(d.year)
    requires |mm| == 2 && |dd| == 2 && AllDigits(mm) && AllDigits(dd)
    requires ParseDigits(mm) == d.month && ParseDigits(dd) == d.day
    ensures DateOfDir(y + "/" + mm + "/" + dd) == Some(d)
  {
    DateOfDirParts(y, mm, dd);
    DecimalRoundTrip(d.year);
  }

  lemma PaddedFieldsNameDate(y: Path, d: Date)
    requires ValidDate(d) && BaseName(y) == DecimalString(d.year)
    ensures DateOfDir(y + "/" + ZeroPad(d.month, 2) + "/" + ZeroPad(d.day, 2)) == Some(d)
  {
    ZeroPadField(d.month, 2);
    ZeroPadField(d.day, 2);
    FieldsNameDate(y, ZeroPad(d.month, 2), ZeroPad(d.day, 2), d);
  }

  lemma PrefixOfDayDir(a: Path, y: Path, mm: string, dd: string)
    requires IsPrefix(a, y)
    ensures IsPrefix(a, y + "/" + mm + "/" + dd)
  {
    var p := y + "/" + mm + "/" + dd;
    assert p[..|y|] == y;
    assert p[..|a|] == y[..|a|];
  }

  /** The returned directory is `base/str(year)/MM/DD`: it starts with the
      base directory and its last three components read back as the date. */
  lemma DayDirNamesDate(base: Path, d: Date)
    requires ValidDate(d)
    ensures IsPrefix(base, DayDir(base, d))
    ensures DateOfDir(DayDir(base, d)) == Some(d)
  {
    DayDirLayout(base, d);
    PaddedFieldsNameDate(YearDir(base, d), d);
    PrefixOfDayDir(base, YearDir(base, d), ZeroPad(d.month, 2), ZeroPad(d.day, 2));
  }

  /** Appending a separator and a component makes a strictly longer path of
      which the original is an ancestor. */
  lemma SlashExtension(p: Path, s: string)
    requires p != []
    ensures var q := p + "/" + s;
      && |p| < |q| && p in Ancestors(q) && Ancestors(p) <= Ancestors(q)
  {
    var q := p + "/" + s;
    assert q[..|p|] == p && q[|p|] == '/';
    AncestorOfExtension(p, q);
  }

  lemma ChainOfThree(y: Path, mm: string, dd: string)
    requires y != []
    ensures var m := y + "/" + mm; var day := m + "/" + dd;
      && Lengthening([y, m, day])
      && Spread([y, m, day]) <= {day} + Ancestors(day)
  {
    var m := y + "/" + mm;
    var day := m + "/" + dd;
    SlashExtension(y, mm);
    SlashExtension(m, dd);
    SpreadOfThree(y, m, day);
  }

  /** The levels grow strictly, and every level and ancestor of a level is
      the day directory or one of its ancestors. */
  lemma LevelsChain(base: Path, d: Date)
    requires ValidDate(d)
    ensures Lengthening(Levels(base, d))
    ensures Spread(Levels(base, d)) <= {DayDir(base, d)} + Ancestors(DayDir(base, d))
  {
    DayDirLayout(base, d);
    ChainOfThree(YearDir(base, d), ZeroPad(d.month, 2), ZeroPad(d.day, 2));
  }

  lemma SpreadOfThree(a: Path, b: Path, c: Path)
    ensures Spread([a, b, c]) == {a} + Ancestors(a) + {b} + Ancestors(b) + {c} + Ancestors(c)
  {
    assert [a, b, c][1..] == [b, c] && [b, c][1..] == [c] && [c][1..] == [];
    assert Spread([c]) == {c} + Ancestors(c) + Spread([]);
    assert Spread([b, c]) == {b} + Ancestors(b) + Spread([c]);
  }

  /** The effect of `create_backup_directory` on the filesystem: existing
      directories stay, only the day directory and its ancestors are added,
      `os.makedirs` is called exactly on the missing levels year, month, day
      in that order, and on success all three exist. */
  lemma PrepareEffect(dirs: set<Path>, refused: map<Path, string>, base: Path, d: Date)
    requires ValidDate(d)
    ensures var w := Walk(dirs, refused, Levels(base, d));
      && dirs <= w.dirs
      && w.dirs - dirs <= {DayDir(base, d)} + Ancestors(DayDir(base, d))
      && (w.failure.Done? ==>
            && YearDir(base, d) in w.dirs && MonthDir(base, d) in w.dirs && DayDir(base, d) in w.dirs
            && w.calls == Missing(Levels(base, d), dirs))
      && (w.failure.Raised? ==> w.calls != [] && w.calls <= Missing(Levels(base, d), dirs))
  {
    var levels := Levels(base, d);
    LevelsChain(base, d);
    WalkBounds(dirs, refused, levels);
    WalkCompletes(dirs, refused, levels);
    WalkCalls(dirs, refused, levels);
    assert levels[0] == YearDir(base, d) && levels[1] == MonthDir(base, d) && levels[2] == DayDir(base, d);
  }

  /** Calling `create_backup_directory` a second time for the same base and
      date after a successful call returns the same path, calls
      `os.makedirs` on nothing and leaves the filesystem as it was. */
  lemma PrepareIdempotent(dirs: set<Path>, refused: map<Path, string>, base: Path, d: Date)
    ensures var w := Walk(dirs, refused, Levels(base, d));
      var w2 := Walk(w.dirs, refused, Levels(base, d));
      w.failure.Done? ==>
        && w2 == Walked(w.dirs, [], Done)
        && PrepareResult(w2, DayDir(base, d)) == PrepareResult(w, DayDir(base, d))
  {
    WalkIdempotent(dirs, refused, Levels(base, d));
  }
}
