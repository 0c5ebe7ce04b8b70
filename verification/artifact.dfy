/** `backup_database`: the timestamped artifact name, its path inside the
    day directory and the T-SQL `BACKUP DATABASE` statement that targets it. */
module Artifact {
  import opened Results
  import opened Text
  import opened Calendar
  import opened Paths

  /** `now.strftime('%Y%m%d_%H%M%S')` */
  function Timestamp(t: DateTime): string
  {
    ZeroPad(t.year, 4) + ZeroPad(t.month, 2) + ZeroPad(t.day, 2) + "_"
      + ZeroPad(t.hour, 2) + ZeroPad(t.minute, 2) + ZeroPad(t.second, 2)
  }

  /** Reads a `YYYYMMDD_HHMMSS` stamp back into its six fields. */
  function ParseTimestamp(s: string): Option<DateTime>
  {
    if |s| != 15 || s[8] != '_' then None
    else
      var yyyy, mo, dd, hh, mi, ss := s[..4], s[4..6], s[6..8], s[9..11], s[11..13], s[13..];
      if AllDigits(yyyy) && AllDigits(mo) && AllDigits(dd) && AllDigits(hh) && AllDigits(mi) && AllDigits(ss)
      then Some(DateTime(ParseDigits(yyyy), ParseDigits(mo), ParseDigits(dd),
                         ParseDigits(hh), ParseDigits(mi), ParseDigits(ss)))
      else None
  }

  /** `f'{database_name}_backup_{timestamp}.bak'` */
  function ArtifactName(database: string, t: DateTime): string
  {
    database + "_backup_" + Timestamp(t) + ".bak"
  }

  /** Splits an artifact name into database and time, reading the
      fixed-width tail from the right so that any database name is allowed. */
  function ParseArtifactName(name: string): Option<(string, DateTime)>
  {
    var n := |name|;
    if n < 27 || name[n - 4..] != ".bak" || name[n - 27..n - 19] != "_backup_" then None
    else match ParseTimestamp(name[n - 19..n - 4])
      case None => None
      case Some(t) => Some((name[..n - 27], t))
  }

  /** `os.path.join(backup_dir, backup_filename)` */
  function BackupPath(dir: Path, database: string, t: DateTime): Path
  {
    Join(dir, ArtifactName(database, t))
  }

  /** Unless the database name starts with a separator, the backup path
      starts with the directory and goes on past it. */
  lemma BackupPathExtendsDir(dir: Path, database: string, t: DateTime)
    requires database == [] || database[0] != '/'
    ensures var p := BackupPath(dir, database, t);
      |p| > |dir| && p[..|dir|] == dir
  {
    var name := ArtifactName(database, t);
    assert name[0] != '/' by {
      if database == [] { assert name[0] == '_'; } else { assert name[0] == database[0]; }
    }
    var p := BackupPath(dir, database, t);
    if dir == [] || dir[|dir| - 1] == '/' {
      assert p == dir + name;
    } else {
      assert p == dir + "/" + name;
    }
  }

  lemma SplitTimestamp(y: string, mo: string, d: string, h: string, mi: string, se: string)
    requires |y| == 4 && |mo| == 2 && |d| == 2 && |h| == 2 && |mi| == 2 && |se| == 2
    ensures var s := y + mo + d + "_" + h + mi + se;
      && |s| == 15 && s[8] == '_'
      && s[..8] == y + mo + d && s[9..] == h + mi + se
      && s[..4] == y && s[4..6] == mo && s[6..8] == d
      && s[9..11] == h && s[11..13] == mi && s[13..] == se
  {
  }

  lemma AllDigitsConcat(a: string, b: string)
    requires AllDigits(a) && AllDigits(b)
    ensures AllDigits(a + b)
  {
    forall i | 0 <= i < |a + b| ensures IsDigit((a + b)[i]) {
      if i >= |a| { assert (a + b)[i] == b[i - |a|]; }
    }
  }

  /** The timestamp is 8 digits, an underscore and 6 digits, each field
      zero-padded to its width, and it reads back as the same time. */
  lemma TimestampRoundTrip(t: DateTime)
    requires ValidDateTime(t)
    ensures var s := Timestamp(t);
      && |s| == 15 && s[8] == '_' && AllDigits(s[..8]) && AllDigits(s[9..])
      && ParseTimestamp(s) == Some(t)
  {
    assert Pow10(2) == 100 && Pow10(4) == 10000;
    ZeroPadField(t.year, 4);
    ZeroPadField(t.month, 2);
    ZeroPadField(t.day, 2);
    ZeroPadField(t.hour, 2);
    ZeroPadField(t.minute, 2);
    ZeroPadField(t.second, 2);
    var y, mo, d := ZeroPad(t.year, 4), ZeroPad(t.month, 2), ZeroPad(t.day, 2);
    var h, mi, se := ZeroPad(t.hour, 2), ZeroPad(t.minute, 2), ZeroPad(t.second, 2);
    SplitTimestamp(y, mo, d, h, mi, se);
    AllDigitsConcat(y, mo);
    AllDigitsConcat(y + mo, d);
    AllDigitsConcat(h, mi);
    AllDigitsConcat(h + mi, se);
  }

  /** The file name reads back as the database name and the time of the run. */
  lemma ArtifactNameRoundTrip(database: string, t: DateTime)
    requires ValidDateTime(t)
    ensures ParseArtifactName(ArtifactName(database, t)) == Some((database, t))
  {
    TimestampRoundTrip(t);
    var ts := Timestamp(t);
    var name := ArtifactName(database, t);
    var n := |name|;
    assert n == |database| + 27;
    assert name[n - 4..] == ".bak";
    assert name[n - 27..n - 19] == "_backup_";
    assert name[n - 19..n - 4] == ts;
    assert name[..n - 27] == database;
  }

  /** The timestamp holds only digits and one underscore, so neither a
      separator nor a quote character. */
  lemma TimestampHasNoSeparator(t: DateTime)
    requires ValidDateTime(t)
    ensures '/' !in Timestamp(t) && '\'' !in Timestamp(t)
  {
    TimestampRoundTrip(t);
    var s := Timestamp(t);
    forall i | 0 <= i < |s| ensures s[i] != '/' && s[i] != '\'' {
      if i < 8 { assert s[i] == s[..8][i]; }
      else if i > 8 { assert s[i] == s[9..][i - 9]; }
    }
  }

  /** A directory and a database name without `'` give a backup path
      without `'`. */
  lemma BackupPathHasNoQuote(dir: Path, database: string, t: DateTime)
    requires ValidDateTime(t) && '\'' !in dir && '\'' !in database
    ensures '\'' !in BackupPath(dir, database, t)
  {
    TimestampHasNoSeparator(t);
    var name := ArtifactName(database, t);
    assert '\'' !in name by {
      forall i | 0 <= i < |name| ensures name[i] != '\'' {
        var ts := Timestamp(t);
        if i < |database| { assert name[i] == database[i]; }
        else if |database| + 8 <= i < |database| + 23 { assert name[i] == ts[i - |database| - 8]; }
      }
    }
  }

  /** For a database name without a separator the backup file lies directly
      inside the backup directory, under the artifact name. */
  lemma BackupPathInsideDir(dir: Path, database: string, t: DateTime)
    requires ValidDateTime(t) && '/' !in database
    ensures var p := BackupPath(dir, database, t);
      && BaseName(p) == ArtifactName(database, t)
      && RStripSlashes(Head(p)) == RStripSlashes(dir)
      && ParseArtifactName(BaseName(p)) == Some((database, t))
  {
    TimestampHasNoSeparator(t);
    var name := ArtifactName(database, t);
    assert '/' !in name by {
      forall i | 0 <= i < |name| ensures name[i] != '/' {
        var ts := Timestamp(t);
        if i < |database| { assert name[i] == database[i]; }
        else if |database| + 8 <= i < |database| + 23 { assert name[i] == ts[i - |database| - 8]; }
      }
    }
    JoinPlacesInside(dir, name);
    ArtifactNameRoundTrip(database, t);
  }

  // ---- T-SQL quoting ----

  /** Doubles every occurrence of the closing quote character `q`, the way
      T-SQL escapes `]` inside `[...]` and `'` inside `N'...'`. */
  function Escape(s: string, q: char): string
  {
    if s == [] then [] else (if s[0] == q then [q, q] else [s[0]]) + Escape(s[1..], q)
  }

  /** How SQL Server reads a quoted token whose opening quote has been
      consumed: up to the first `q` not doubled, undoubling doubled ones.
      Returns the token's text and what follows the closing quote. */
  function Unquote(s: string, q: char): Option<(string, string)>
    decreases |s|
  {
    if s == [] then None
    else if s[0] == q then
      if |s| >= 2 && s[1] == q then
        match Unquote(s[2..], q)
        case None => None
        case Some(r) => Some(([q] + r.0, r.1))
      else Some(([], s[1..]))
    else
      match Unquote(s[1..], q)
      case None => None
      case Some(r) => Some(([s[0]] + r.0, r.1))
  }

  /** Reading back an escaped token recovers it exactly, whatever follows
      the closing quote (unless it is another quote). */
  lemma {:induction false} UnquoteEscape(s: string, q: char, rest: string)
    requires rest == [] || rest[0] != q
    ensures Unquote(Escape(s, q) + [q] + rest, q) == Some((s, rest))
    decreases |s|
  {
    if s == [] {
      assert Escape(s, q) + [q] + rest == [q] + rest;
    } else {
      UnquoteEscape(s[1..], q, rest);
      var tail := Escape(s[1..], q) + [q] + rest;
      assert s == [s[0]] + s[1..];
      if s[0] == q {
        assert Escape(s, q) + [q] + rest == [q, q] + tail;
        assert ([q, q] + tail)[2..] == tail;
      } else {
        assert Escape(s, q) + [q] + rest == [s[0]] + tail;
        assert ([s[0]] + tail)[1..] == tail;
      }
    }
  }

  /** Escaping changes nothing in a string without the quote character. */
  lemma {:induction false} EscapePlain(s: string, q: char)
    requires q !in s
    ensures Escape(s, q) == s
    decreases |s|
  {
    if s != [] {
      EscapePlain(s[1..], q);
      assert s == [s[0]] + s[1..];
    }
  }

  /** What `Unquote` reads is exactly an escaped token, its closing quote
      and the rest. */
  lemma {:induction false} UnquoteSound(s: string, q: char)
    ensures Unquote(s, q).Some? ==>
      s == Escape(Unquote(s, q).value.0, q) + [q] + Unquote(s, q).value.1
    decreases |s|
  {
    if s != [] {
      if s[0] == q && |s| >= 2 && s[1] == q {
        UnquoteSound(s[2..], q);
        match Unquote(s[2..], q)
        case None =>
        case Some(r) =>
          var t := [q] + r.0;
          assert t[0] == q && t[1..] == r.0;
          assert s == [q, q] + s[2..];
      } else if s[0] == q {
        assert s == [q] + s[1..];
      } else {
        UnquoteSound(s[1..], q);
        match Unquote(s[1..], q)
        case None =>
        case Some(r) =>
          var t := [s[0]] + r.0;
          assert t[0] == s[0] && t[1..] == r.0;
          assert s == [s[0]] + s[1..];
      }
    }
  }

  /** A text followed by an undoubled quote never reads as an escaped token
      that equals it once `k` extra quotes precede that token, or once the
      text holds a quote itself. */
  lemma {:induction false} EscapeGap(p: string, k: nat, q: char, rest: string, r: string)
    requires k >= 1 || q in p
    requires rest == [] || rest[0] != q
    ensures p + [q] + rest != seq(k, _ => q) + Escape(p, q) + [q] + r
    decreases |p|
  {
    var lhs := p + [q] + rest;
    var rhs := seq(k, _ => q) + Escape(p, q) + [q] + r;
    if p == [] {
      assert rhs[0] == q && rhs[1] == q;
      if rest != [] { assert lhs[1] == rest[0]; } else { assert |lhs| < |rhs|; }
    } else if k >= 1 && p[0] != q {
      assert lhs[0] == p[0] && rhs[0] == q;
    } else {
      var c, tail := p[0], p[1..];
      var e := Escape(tail, q);
      assert p == [c] + tail;
      if c != q {
        assert q in tail;
        assert Escape(p, q) == [c] + e;
        EscapeGap(tail, 0, q, rest, r);
        PlainStepShape(c, q, tail, e, rest, r);
        ConsDiffers(c, tail + [q] + rest, e + [q] + r);
      } else {
        assert Escape(p, q) == [q, q] + e;
        EscapeGap(tail, k + 1, q, rest, r);
        QuoteStepShape(k, q, tail, e, rest, r);
        ConsDiffers(q, tail + [q] + rest, seq(k + 1, _ => q) + e + [q] + r);
      }
    }
  }

  lemma PlainStepShape(c: char, q: char, tail: string, e: string, rest: string, r: string)
    ensures ([c] + tail) + [q] + rest == [c] + (tail + [q] + rest)
    ensures seq(0, _ => q) + ([c] + e) + [q] + r == [c] + (e + [q] + r)
  {
    assert seq(0, _ => q) == [];
  }

  lemma QuoteStepShape(k: nat, q: char, tail: string, e: string, rest: string, r: string)
    ensures ([q] + tail) + [q] + rest == [q] + (tail + [q] + rest)
    ensures seq(k, _ => q) + ([q, q] + e) + [q] + r == [q] + (seq(k + 1, _ => q) + e + [q] + r)
  {
    assert seq(k, _ => q) + [q, q] == [q] + seq(k + 1, _ => q);
  }

  lemma ConsDiffers(c: char, x: string, y: string)
    requires x != y
    ensures [c] + x != [c] + y
  {
    assert ([c] + x)[1..] == x && ([c] + y)[1..] == y;
  }

  /** Escaping a string that holds the quote makes it longer. */
  lemma {:induction false} EscapeLonger(s: string, q: char)
    ensures |Escape(s, q)| >= |s|
    ensures q in s ==> |Escape(s, q)| > |s|
    decreases |s|
  {
    if s != [] {
      EscapeLonger(s[1..], q);
      assert s == [s[0]] + s[1..];
    }
  }

  /** `N'text'` with `'` doubled. */
  function QuoteLiteral(s: string): string { "N'" + Escape(s, '\'') + "'" }

  const CommandHead: string := "BACKUP DATABASE ["
  const DiskClause: string := " TO DISK = N'"
  const OptionsClause: string := " WITH NOFORMAT, NOINIT, NAME = "
  const NameSuffix: string := "-Full Database Backup"
  const OptionsTail: string := ", SKIP, NOREWIND, NOUNLOAD, STATS = 10"

  /** The statement of line 88 exactly as the script interpolates it, with
      no escaping of the database name or the path. */
  function BackupSqlAsWritten(database: string, path: Path): string
  {
    CommandHead + database + "]" + DiskClause + path + "'" + OptionsClause
      + "N'" + database + NameSuffix + "'" + OptionsTail
  }

  /** The same statement with `]` doubled inside the bracketed database name
      and `'` doubled inside both string literals. */
  function BackupSql(database: string, path: Path): string
  {
    CommandHead + Escape(database, ']') + "]" + DiskClause + Escape(path, '\'') + "'" + OptionsClause
      + QuoteLiteral(database + NameSuffix) + OptionsTail
  }

  /** The database and the disk target SQL Server reads from a backup
      statement. */
  datatype BackupTarget = BackupTarget(database: string, disk: Path)

  function ParseBackupTarget(sql: string): Option<BackupTarget>
  {
    if IsPrefix(CommandHead, sql) then ParseDatabase(sql[|CommandHead|..]) else None
  }

  /** Reads the bracketed database name, then the disk clause. */
  function ParseDatabase(s: string): Option<BackupTarget>
  {
    match Unquote(s, ']')
    case None => None
    case Some(r) => ParseDisk(r.0, r.1)
  }

  /** The statement is well formed only if the `WITH` options or nothing
      follow the disk literal. Only the opening of the options clause is
      checked: the `NAME = N'...'` literal is not read, so a `'` in the
      database name that breaks that literal goes undetected here. */
  predicate ClauseEnd(s: string)
  {
    s == [] || IsPrefix(OptionsClause, s)
  }

  /** Reads ` TO DISK = N'...'` after the database name; text that is not
      the options clause after the closing quote makes the statement a
      syntax error. */
  function ParseDisk(database: string, s: string): Option<BackupTarget>
  {
    if !IsPrefix(DiskClause, s) then None
    else match Unquote(s[|DiskClause|..], '\'')
      case None => None
      case Some(t) => if ClauseEnd(t.1) then Some(BackupTarget(database, t.0)) else None
  }

  lemma ParseDiskEscaped(database: string, b: string, tail: string)
    requires tail == [] || tail[0] != '\''
    ensures ParseDisk(database, DiskClause + Escape(b, '\'') + "'" + tail)
      == if ClauseEnd(tail) then Some(BackupTarget(database, b)) else None
  {
    var s := DiskClause + Escape(b, '\'') + "'" + tail;
    assert s[..|DiskClause|] == DiskClause;
    assert s[|DiskClause|..] == Escape(b, '\'') + ['\''] + tail;
    UnquoteEscape(b, '\'', tail);
  }

  lemma ParseDatabaseEscaped(a: string, rest: string)
    requires rest == [] || rest[0] != ']'
    ensures ParseDatabase(Escape(a, ']') + "]" + rest) == ParseDisk(a, rest)
  {
    UnquoteEscape(a, ']', rest);
  }

  /** A statement of the backup shape whose two quoted parts are the escaped
      `a` and `b` is read as naming `a` and `b` when the options follow, and
      is rejected otherwise. */
  lemma ParseComposed(a: string, b: string, tail: string)
    requires tail == [] || tail[0] != '\''
    ensures ParseBackupTarget(CommandHead + Escape(a, ']') + "]" + DiskClause + Escape(b, '\'') + "'" + tail)
      == if ClauseEnd(tail) then Some(BackupTarget(a, b)) else None
  {
    var ea, eb := Escape(a, ']'), Escape(b, '\'');
    var afterDb := DiskClause + eb + "'" + tail;
    Regroup5(CommandHead, ea, "]", DiskClause, eb, "'", tail);
    ParseAfterHead(ea + "]" + afterDb);
    assert afterDb[0] == ' ';
    ParseDatabaseEscaped(a, afterDb);
    ParseDiskEscaped(a, b, tail);
  }

  lemma ParseAfterHead(x: string)
    ensures ParseBackupTarget(CommandHead + x) == ParseDatabase(x)
  {
    assert (CommandHead + x)[..|CommandHead|] == CommandHead;
    assert (CommandHead + x)[|CommandHead|..] == x;
  }

  lemma Regroup5(h: string, e: string, r: string, k: string, f: string, q: string, t: string)
    ensures h + e + r + k + f + q + t == h + (e + r + (k + f + q + t))
  {
  }

  /** The escaped statement backs up exactly the named database to exactly
      the given path, whatever characters the two contain. */
  lemma BackupSqlTargets(database: string, path: Path)
    ensures ParseBackupTarget(BackupSql(database, path)) == Some(BackupTarget(database, path))
  {
    var tail := OptionsClause + QuoteLiteral(database + NameSuffix) + OptionsTail;
    assert BackupSql(database, path)
      == CommandHead + Escape(database, ']') + "]" + DiskClause + Escape(path, '\'') + "'" + tail;
    assert tail[..|OptionsClause|] == OptionsClause;
    ParseComposed(database, path, tail);
  }

  /** On names and paths without quote characters the statement as written
      is the escaped one. */
  lemma AsWrittenAgrees(database: string, path: Path)
    requires ']' !in database && '\'' !in database && '\'' !in path
    ensures BackupSqlAsWritten(database, path) == BackupSql(database, path)
  {
    EscapePlain(database, ']');
    EscapePlain(path, '\'');
    var full := database + NameSuffix;
    assert '\'' !in full by {
      forall i | 0 <= i < |full| ensures full[i] != '\'' {
        if i < |database| { assert full[i] == database[i]; }
      }
    }
    EscapePlain(full, '\'');
  }

  /** A path with an undoubled apostrophe in it: the statement as written
      ends the disk literal there, and unless the rest of the path happens
      to start with a space, what follows is not the options clause and SQL
      Server rejects the statement. */
  lemma AsWrittenRejectsQuotedPath(database: string, front: string, back: string)
    requires ']' !in database && '\'' !in front
    requires back != [] && back[0] != '\'' && back[0] != ' '
    ensures ParseBackupTarget(BackupSqlAsWritten(database, front + "'" + back)) == None
  {
    var tail := back + "'" + OptionsClause + "N'" + database + NameSuffix + "'" + OptionsTail;
    EscapePlain(database, ']');
    EscapePlain(front, '\'');
    Regroup(CommandHead, database, "]", DiskClause, front, "'", back, OptionsClause, "N'", NameSuffix, OptionsTail);
    ParseComposed(database, front, tail);
    assert |tail| >= |OptionsClause| && tail[..|OptionsClause|][0] == back[0];
    assert OptionsClause[0] == ' ';
  }

  /** A path whose apostrophes all come doubled: the statement as written is
      well formed, but SQL Server undoubles them and backs up to another
      file than the one returned to the caller. */
  lemma AsWrittenRetargetsDoubledQuotes(database: string, path: Path)
    requires ']' !in database && '\'' in path
    ensures ParseBackupTarget(BackupSqlAsWritten(database, Escape(path, '\'')))
      == Some(BackupTarget(database, path))
    ensures Escape(path, '\'') != path
  {
    var tail := OptionsClause + "N'" + database + NameSuffix + "'" + OptionsTail;
    EscapePlain(database, ']');
    RegroupTail(CommandHead, database, "]", DiskClause, Escape(path, '\''), "'", OptionsClause, "N'", NameSuffix, OptionsTail);
    assert tail[..|OptionsClause|] == OptionsClause;
    ParseComposed(database, path, tail);
    EscapeLonger(path, '\'');
  }

  /** With a `]` in the database name or a `'` in the path, the statement as
      written never backs up exactly that database to exactly that path:
      SQL Server either rejects it or reads another name or file. */
  lemma AsWrittenMissesQuotedPath(database: string, path: Path)
    requires ']' in database || '\'' in path
    ensures ParseBackupTarget(BackupSqlAsWritten(database, path)) != Some(BackupTarget(database, path))
  {
    var tail := OptionsClause + "N'" + database + NameSuffix + "'" + OptionsTail;
    var afterDb := DiskClause + path + "'" + tail;
    Regroup6(CommandHead, database, "]", DiskClause, path, "'", OptionsClause, "N'", NameSuffix, OptionsTail);
    ParseAfterHead(database + "]" + afterDb);
    assert afterDb[0] == ' ' && tail[0] == ' ';
    if ']' in database {
      DatabaseMisread(database, afterDb);
    } else {
      EscapePlain(database, ']');
      ParseDatabaseEscaped(database, afterDb);
      DiskMisread(database, path, tail);
    }
  }

  lemma DatabaseMisread(database: string, afterDb: string)
    requires ']' in database && afterDb != [] && afterDb[0] != ']'
    ensures var r := ParseDatabase(database + "]" + afterDb);
      r.None? || r.value.database != database
  {
    var x := database + "]" + afterDb;
    if Unquote(x, ']').Some? {
      UnquoteSound(x, ']');
      EscapeGap(database, 0, ']', afterDb, Unquote(x, ']').value.1);
    }
  }

  lemma DiskMisread(database: string, path: Path, tail: string)
    requires '\'' in path && tail != [] && tail[0] != '\''
    ensures var r := ParseDisk(database, DiskClause + path + "'" + tail);
      r.None? || r.value.disk != path
  {
    var s := DiskClause + path + "'" + tail;
    assert s[..|DiskClause|] == DiskClause;
    var x := s[|DiskClause|..];
    assert x == path + "'" + tail;
    if Unquote(x, '\'').Some? {
      UnquoteSound(x, '\'');
      EscapeGap(path, 0, '\'', tail, Unquote(x, '\'').value.1);
    }
  }

  lemma RegroupTail(h: string, d: string, r: string, k: string, f: string, a: string,
                    o: string, n: string, x: string, t: string)
    ensures h + d + r + k + f + a + o + n + d + x + a + t
         == h + d + r + k + f + a + (o + n + d + x + a + t)
  {
  }

  lemma Regroup6(h: string, d: string, r: string, k: string, f: string, a: string,
                 o: string, n: string, x: string, t: string)
    ensures h + d + r + k + f + a + o + n + d + x + a + t
         == h + (d + r + (k + f + a + (o + n + d + x + a + t)))
  {
  }

  lemma Regroup(h: string, d: string, r: string, k: string, f: string, a: string, b: string,
                o: string, n: string, x: string, t: string)
    ensures h + d + r + k + (f + a + b) + a + o + n + d + x + a + t
         == h + d + r + k + f + a + (b + a + o + n + d + x + a + t)
  {
  }
}
