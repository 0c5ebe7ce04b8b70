/** `perform_backup`: prepare the directory, connect, back up, close and
    notify, with every raised error funnelled into one failure message, and
    `send_email_notification`, which never lets a transport error escape. */
module Orchestration {
  import opened Results
  import opened Text
  import opened Calendar
  import opened Paths
  import opened FileSystems
  import opened Partition
  import opened Artifact
  import opened Notification

  /** The settings `perform_backup` binds before its first step. */
  datatype Config = Config(
    server: string, database: string, username: string, password: string,
    backupDir: Path, notifyEmail: string,
    smtpServer: string, smtpPort: nat, smtpUser: string, smtpPassword: string)

  /** How each external call behaves when the run reaches it: the ODBC
      connect, the execution of the backup statement, `connection.close()`
      and the SMTP transport. */
  datatype Services = Services(connect: Status, execute: Status, close: Status, transport: Status)

  /** An external call made by a run, with the arguments it was given. */
  datatype Event =
    | MakeDirs(path: Path)
    | Connect(server: string, database: string, username: string, password: string)
    | Execute(sql: string)
    | Close
    | Send(notice: Notice, sender: string, recipient: string)

  datatype Kind = MakeDirsKind | ConnectKind | ExecuteKind | CloseKind | SendKind

  function KindOf(e: Event): Kind
  {
    match e
    case MakeDirs(_) => MakeDirsKind
    case Connect(_, _, _, _) => ConnectKind
    case Execute(_) => ExecuteKind
    case Close => CloseKind
    case Send(_, _, _) => SendKind
  }

  /** The position of each kind of call in the sequence the script runs. */
  function Rank(k: Kind): nat
  {
    match k
    case MakeDirsKind => 0
    case ConnectKind => 1
    case ExecuteKind => 2
    case CloseKind => 3
    case SendKind => 4
  }

  /** How many calls of kind `k` a trace holds. */
  function Count(t: seq<Event>, k: Kind): nat
  {
    if t == [] then 0 else Count(t[..|t| - 1], k) + (if KindOf(t[|t| - 1]) == k then 1 else 0)
  }

  /** No call comes after a call that the script makes later. */
  predicate InOrder(t: seq<Event>)
  {
    forall i, j :: 0 <= i < j < |t| ==> Rank(KindOf(t[i])) <= Rank(KindOf(t[j]))
  }

  function MakeDirsEvents(calls: seq<Path>): seq<Event>
  {
    if calls == [] then [] else MakeDirsEvents(calls[..|calls| - 1]) + [MakeDirs(calls[|calls| - 1])]
  }

  /** The result of a run: the path of the artifact, or the text of the
      first error raised. */
  datatype RunOutcome = Succeeded(backupPath: Path) | Failed(error: string)

  /** The job as a state machine: directory, connect, backup, close; the
      first step that raises decides the failure and no later step runs. */
  function Outcome(prep: Result<Path>, svc: Services, database: string, now: DateTime): RunOutcome
  {
    if prep.Err? then Failed(prep.error)
    else if svc.connect.Raised? then Failed(svc.connect.error)
    else if svc.execute.Raised? then Failed(svc.execute.error)
    else if svc.close.Raised? then Failed(svc.close.error)
    else Succeeded(BackupPath(prep.value, database, now))
  }

  function NoticeFor(database: string, o: RunOutcome): Notice
  {
    match o
    case Succeeded(p) => SuccessNotice(database, p)
    case Failed(e) => FailureNotice(database, e)
  }

  /** `if notify_email: send_email_notification(...)`, with the SMTP user as
      sender as in the script. */
  function Notify(cfg: Config, n: Notice): seq<Event>
  {
    if cfg.notifyEmail == "" then [] else [Send(n, cfg.smtpUser, cfg.notifyEmail)]
  }

  /** The calls `perform_backup` makes after the directory step, read off
      its try block and its except branch: a raised directory step goes
      straight to the failure message. */
  function StepsTrace(cfg: Config, prep: Result<Path>, svc: Services, now: DateTime): seq<Event>
  {
    match prep
    case Err(e) => Notify(cfg, FailureNotice(cfg.database, e))
    case Ok(dir) => [Connect(cfg.server, cfg.database, cfg.username, cfg.password)] + AfterConnect(cfg, dir, svc, now)
  }

  /** After the connect call: a refused connection goes to the failure
      message, otherwise the backup statement for the timestamped path runs. */
  function AfterConnect(cfg: Config, dir: Path, svc: Services, now: DateTime): seq<Event>
  {
    if svc.connect.Raised? then Notify(cfg, FailureNotice(cfg.database, svc.connect.error))
    else
      var backupPath := BackupPath(dir, cfg.database, now);
      [Execute(BackupSqlAsWritten(cfg.database, backupPath))] + AfterExecute(cfg, backupPath, svc)
  }

  /** After the backup statement: if it raised, the failure message goes out
      with the connection still open; otherwise the connection is closed. */
  function AfterExecute(cfg: Config, backupPath: Path, svc: Services): seq<Event>
  {
    if svc.execute.Raised? then Notify(cfg, FailureNotice(cfg.database, svc.execute.error))
    else [Close] + AfterClose(cfg, backupPath, svc)
  }

  /** After `connection.close()`: the success message, or the failure message
      if the close itself raised. */
  function AfterClose(cfg: Config, backupPath: Path, svc: Services): seq<Event>
  {
    if svc.close.Raised? then Notify(cfg, FailureNotice(cfg.database, svc.close.error))
    else Notify(cfg, SuccessNotice(cfg.database, backupPath))
  }

  /** Every call of one run: the `os.makedirs` calls, then the rest. */
  function RunTrace(cfg: Config, calls: seq<Path>, prep: Result<Path>, svc: Services, now: DateTime): seq<Event>
  {
    MakeDirsEvents(calls) + StepsTrace(cfg, prep, svc, now)
  }

  function SendFailureLog(error: string): string
  {
    "Failed to send email notification: " + error
  }

  /** `send_email_notification`: it returns normally whatever the transport
      does, and reports a transport error only as a log line. The blanket
      `except` is modelled by the signature: the method has no error result,
      so a raised transport status can only become the returned log text. */
  method SendEmailNotification(n: Notice, fromEmail: string, toEmail: string, smtpServer: string,
                               smtpPort: nat, smtpUser: string, smtpPassword: string, transport: Status)
    returns (logged: Option<string>)
    ensures logged.Some? <==> transport.Raised?
    ensures transport.Raised? ==> logged == Some(SendFailureLog(transport.error))
  {
    match transport
    case Done => logged := None;
    case Raised(e) => logged := Some(SendFailureLog(e));
  }

  /** The try block and except branch of `perform_backup` once the
      directory step has returned or raised. */
  method RunSteps(cfg: Config, prep: Result<Path>, svc: Services, now: DateTime)
    returns (steps: seq<Event>, logged: Option<string>)
    ensures steps == StepsTrace(cfg, prep, svc, now)
    ensures logged == if cfg.notifyEmail != "" && svc.transport.Raised?
                      then Some(SendFailureLog(svc.transport.error)) else None
  {
    logged := None;
    steps := [];
    var error: Option<string> := None;
    if prep.Err? {
      error := Some(prep.error);
    } else {
      steps := steps + [Connect(cfg.server, cfg.database, cfg.username, cfg.password)];
      if svc.connect.Raised? {
        error := Some(svc.connect.error);
      } else {
        var backupPath := BackupPath(prep.value, cfg.database, now);
        steps := steps + [Execute(BackupSqlAsWritten(cfg.database, backupPath))];
        if svc.execute.Raised? {
          error := Some(svc.execute.error);
        } else {
          steps := steps + [Close];
          if svc.close.Raised? {
            error := Some(svc.close.error);
          } else if cfg.notifyEmail != "" {
            var notice := SuccessNotice(cfg.database, backupPath);
            steps := steps + [Send(notice, cfg.smtpUser, cfg.notifyEmail)];
            logged := SendEmailNotification(notice, cfg.smtpUser, cfg.notifyEmail, cfg.smtpServer,
                                            cfg.smtpPort, cfg.smtpUser, cfg.smtpPassword, svc.transport);
          }
        }
      }
    }
    assert StepsTrace(cfg, prep, svc, now)
      == steps + if error.Some? then Notify(cfg, FailureNotice(cfg.database, error.value)) else [];
    assert error.Some? ==> logged.None?;
    if error.Some? && cfg.notifyEmail != "" {
      var notice := FailureNotice(cfg.database, error.value);
      steps := steps + [Send(notice, cfg.smtpUser, cfg.notifyEmail)];
      logged := SendEmailNotification(notice, cfg.smtpUser, cfg.notifyEmail, cfg.smtpServer,
                                      cfg.smtpPort, cfg.smtpUser, cfg.smtpPassword, svc.transport);
    }
  }

  /** `perform_backup` on the date `today` with the clock reading `now` when
      the file name is made. It returns the calls it made and the error it
      logged for the notification, if any; it has no error result, because
      nothing it calls can raise past its except branch. */
  method PerformBackup(fs: FileSystem, cfg: Config, svc: Services, today: Date, now: DateTime)
    returns (trace: seq<Event>, logged: Option<string>)
    modifies fs
    ensures var w := Walk(old(fs.dirs), fs.refused, Levels(cfg.backupDir, today));
      && fs.dirs == w.dirs
      && trace == RunTrace(cfg, w.calls, PrepareResult(w, DayDir(cfg.backupDir, today)), svc, now)
    ensures logged == if cfg.notifyEmail != "" && svc.transport.Raised?
                      then Some(SendFailureLog(svc.transport.error)) else None
  {
    var prep, calls := CreateBackupDirectory(fs, cfg.backupDir, today);
    var steps;
    steps, logged := RunSteps(cfg, prep, svc, now);
    trace := MakeDirsEvents(calls) + steps;
  }

  // ---- Properties of a run ----

  lemma {:induction false} CountAppend(a: seq<Event>, b: seq<Event>, k: Kind)
    ensures Count(a + b, k) == Count(a, k) + Count(b, k)
    decreases |b|
  {
    if b == [] {
      assert a + b == a;
    } else {
      assert (a + b)[..|a + b| - 1] == a + b[..|b| - 1];
      CountAppend(a, b[..|b| - 1], k);
    }
  }

  lemma CountOne(e: Event, k: Kind)
    ensures Count([e], k) == if KindOf(e) == k then 1 else 0
  {
    assert [e][..0] == [];
  }

  lemma {:induction false} MakeDirsEventsCount(calls: seq<Path>, k: Kind)
    ensures Count(MakeDirsEvents(calls), k) == if k == MakeDirsKind then |calls| else 0
    ensures forall i :: 0 <= i < |MakeDirsEvents(calls)| ==> KindOf(MakeDirsEvents(calls)[i]) == MakeDirsKind
    ensures |MakeDirsEvents(calls)| == |calls|
    decreases |calls|
  {
    if calls != [] {
      var init := calls[..|calls| - 1];
      MakeDirsEventsCount(init, k);
      CountAppend(MakeDirsEvents(init), [MakeDirs(calls[|calls| - 1])], k);
      CountOne(MakeDirs(calls[|calls| - 1]), k);
    }
  }

  lemma NotifyCount(cfg: Config, n: Notice, k: Kind)
    ensures Count(Notify(cfg, n), k) == if k == SendKind && cfg.notifyEmail != "" then 1 else 0
  {
    if cfg.notifyEmail != "" {
      CountOne(Send(n, cfg.smtpUser, cfg.notifyEmail), k);
    }
  }

  /** How many calls of each kind follow the directory step: a connect
      only after the directory was prepared, a backup statement only after
      a connection was made, a close only after the statement completed,
      and exactly one notification whenever a recipient is configured. */
  function ExpectedCount(cfg: Config, prep: Result<Path>, svc: Services, k: Kind): nat
  {
    match k
    case MakeDirsKind => 0
    case ConnectKind => if prep.Ok? then 1 else 0
    case ExecuteKind => if prep.Ok? && svc.connect.Done? then 1 else 0
    case CloseKind => if prep.Ok? && svc.connect.Done? && svc.execute.Done? then 1 else 0
    case SendKind => if cfg.notifyEmail != "" then 1 else 0
  }

  lemma AfterCloseCount(cfg: Config, backupPath: Path, svc: Services, k: Kind)
    ensures Count(AfterClose(cfg, backupPath, svc), k) == if k == SendKind && cfg.notifyEmail != "" then 1 else 0
  {
    if svc.close.Raised? {
      NotifyCount(cfg, FailureNotice(cfg.database, svc.close.error), k);
    } else {
      NotifyCount(cfg, SuccessNotice(cfg.database, backupPath), k);
    }
  }

  lemma AfterExecuteCount(cfg: Config, backupPath: Path, svc: Services, k: Kind)
    ensures Count(AfterExecute(cfg, backupPath, svc), k)
      == (if k == CloseKind && svc.execute.Done? then 1 else 0)
       + (if k == SendKind && cfg.notifyEmail != "" then 1 else 0)
  {
    if svc.execute.Raised? {
      NotifyCount(cfg, FailureNotice(cfg.database, svc.execute.error), k);
    } else {
      AfterCloseCount(cfg, backupPath, svc, k);
      CountOne(Close, k);
      CountAppend([Close], AfterClose(cfg, backupPath, svc), k);
    }
  }

  lemma AfterConnectCount(cfg: Config, dir: Path, svc: Services, now: DateTime, k: Kind)
    ensures Count(AfterConnect(cfg, dir, svc, now), k)
      == (if k == ExecuteKind && svc.connect.Done? then 1 else 0)
       + (if k == CloseKind && svc.connect.Done? && svc.execute.Done? then 1 else 0)
       + (if k == SendKind && cfg.notifyEmail != "" then 1 else 0)
  {
    if svc.connect.Raised? {
      NotifyCount(cfg, FailureNotice(cfg.database, svc.connect.error), k);
    } else {
      var backupPath := BackupPath(dir, cfg.database, now);
      var x := Execute(BackupSqlAsWritten(cfg.database, backupPath));
      AfterExecuteCount(cfg, backupPath, svc, k);
      CountOne(x, k);
      CountAppend([x], AfterExecute(cfg, backupPath, svc), k);
    }
  }

  lemma StepsCount(cfg: Config, prep: Result<Path>, svc: Services, now: DateTime, k: Kind)
    ensures Count(StepsTrace(cfg, prep, svc, now), k) == ExpectedCount(cfg, prep, svc, k)
  {
    match prep
    case Err(e) =>
      NotifyCount(cfg, FailureNotice(cfg.database, e), k);
    case Ok(dir) =>
      var c := Connect(cfg.server, cfg.database, cfg.username, cfg.password);
      AfterConnectCount(cfg, dir, svc, now, k);
      CountOne(c, k);
      CountAppend([c], AfterConnect(cfg, dir, svc, now), k);
  }

  /** Fail-fast and exactly-one notification: the run calls `os.makedirs`
      once per missing level it reached, connects only if the directory was
      prepared, runs the backup statement only if the connection was made,
      closes only if the statement completed, and sends exactly one message
      when a recipient is configured and none otherwise. */
  lemma RunCounts(cfg: Config, calls: seq<Path>, prep: Result<Path>, svc: Services, now: DateTime, k: Kind)
    ensures Count(RunTrace(cfg, calls, prep, svc, now), k)
      == (if k == MakeDirsKind then |calls| else ExpectedCount(cfg, prep, svc, k))
  {
    CountAppend(MakeDirsEvents(calls), StepsTrace(cfg, prep, svc, now), k);
    MakeDirsEventsCount(calls, k);
    StepsCount(cfg, prep, svc, now, k);
  }

  predicate RanksAtLeast(t: seq<Event>, r: nat)
  {
    forall i :: 0 <= i < |t| ==> r <= Rank(KindOf(t[i]))
  }

  lemma InOrderCons(e: Event, t: seq<Event>)
    requires InOrder(t) && RanksAtLeast(t, Rank(KindOf(e)))
    ensures InOrder([e] + t) && RanksAtLeast([e] + t, Rank(KindOf(e)))
  {
    var s := [e] + t;
    forall i, j | 0 <= i < j < |s| ensures Rank(KindOf(s[i])) <= Rank(KindOf(s[j])) {
      assert s[j] == t[j - 1];
      if i > 0 { assert s[i] == t[i - 1]; }
    }
  }

  lemma NotifyInOrder(cfg: Config, n: Notice)
    ensures InOrder(Notify(cfg, n)) && RanksAtLeast(Notify(cfg, n), 4)
  {
  }

  lemma AfterExecuteInOrder(cfg: Config, backupPath: Path, svc: Services)
    ensures InOrder(AfterExecute(cfg, backupPath, svc)) && RanksAtLeast(AfterExecute(cfg, backupPath, svc), 3)
  {
    var db := cfg.database;
    if svc.execute.Raised? {
      NotifyInOrder(cfg, FailureNotice(db, svc.execute.error));
    } else {
      NotifyInOrder(cfg, if svc.close.Raised? then FailureNotice(db, svc.close.error)
                         else SuccessNotice(db, backupPath));
      InOrderCons(Close, AfterClose(cfg, backupPath, svc));
    }
  }

  lemma AfterConnectInOrder(cfg: Config, dir: Path, svc: Services, now: DateTime)
    ensures InOrder(AfterConnect(cfg, dir, svc, now)) && RanksAtLeast(AfterConnect(cfg, dir, svc, now), 2)
  {
    var db := cfg.database;
    if svc.connect.Raised? {
      NotifyInOrder(cfg, FailureNotice(db, svc.connect.error));
    } else {
      var backupPath := BackupPath(dir, db, now);
      AfterExecuteInOrder(cfg, backupPath, svc);
      InOrderCons(Execute(BackupSqlAsWritten(db, backupPath)), AfterExecute(cfg, backupPath, svc));
    }
  }

  lemma StepsInOrder(cfg: Config, prep: Result<Path>, svc: Services, now: DateTime)
    ensures InOrder(StepsTrace(cfg, prep, svc, now)) && RanksAtLeast(StepsTrace(cfg, prep, svc, now), 1)
  {
    match prep
    case Err(e) =>
      NotifyInOrder(cfg, FailureNotice(cfg.database, e));
    case Ok(dir) =>
      AfterConnectInOrder(cfg, dir, svc, now);
      InOrderCons(Connect(cfg.server, cfg.database, cfg.username, cfg.password), AfterConnect(cfg, dir, svc, now));
  }

  /** The calls of a run come in the script's order: every `os.makedirs`
      before the connect, the connect before the backup statement, the
      statement before the close, and the close before the notification. */
  lemma RunInOrder(cfg: Config, calls: seq<Path>, prep: Result<Path>, svc: Services, now: DateTime)
    ensures InOrder(RunTrace(cfg, calls, prep, svc, now))
  {
    var a, b := MakeDirsEvents(calls), StepsTrace(cfg, prep, svc, now);
    MakeDirsEventsCount(calls, MakeDirsKind);
    StepsInOrder(cfg, prep, svc, now);
    var t := a + b;
    forall i, j | 0 <= i < j < |t| ensures Rank(KindOf(t[i])) <= Rank(KindOf(t[j])) {
      if j < |a| {
        assert t[i] == a[i] && t[j] == a[j];
      } else if i < |a| {
        assert t[i] == a[i] && t[j] == b[j - |a|];
      } else {
        assert t[i] == b[i - |a|] && t[j] == b[j - |a|];
      }
    }
  }

  /** With a recipient configured, the run ends by sending the one message
      that matches its outcome: the success message with the artifact path,
      or the failure message with the text of the first error raised. */
  lemma RunNotifiesOutcome(cfg: Config, calls: seq<Path>, prep: Result<Path>, svc: Services, now: DateTime)
    requires cfg.notifyEmail != ""
    ensures var t := RunTrace(cfg, calls, prep, svc, now);
      |t| > 0 && t[|t| - 1] == Send(NoticeFor(cfg.database, Outcome(prep, svc, cfg.database, now)),
                                    cfg.smtpUser, cfg.notifyEmail)
  {
    var s := StepsTrace(cfg, prep, svc, now);
    var t := RunTrace(cfg, calls, prep, svc, now);
    assert |s| > 0 && t[|t| - 1] == s[|s| - 1];
  }

  /** The message of an outcome reads as that outcome for the configured
      database, and its body ends with the artifact path or the error. */
  lemma NoticeMatchesOutcome(database: string, o: RunOutcome)
    ensures SubjectReport(NoticeFor(database, o).subject) == Some((o.Succeeded?, database))
    ensures IsSuffix(if o.Succeeded? then o.backupPath else o.error, NoticeFor(database, o).body)
  {
    match o
    case Succeeded(p) => SuccessNoticeReports(database, p);
    case Failed(e) => FailureNoticeReports(database, e);
  }

  /** On the success path the connection is closed immediately before the
      success message is sent. */
  lemma RunClosesBeforeSuccessNotice(cfg: Config, calls: seq<Path>, prep: Result<Path>, svc: Services, now: DateTime)
    requires cfg.notifyEmail != "" && Outcome(prep, svc, cfg.database, now).Succeeded?
    ensures var t := RunTrace(cfg, calls, prep, svc, now);
      && |t| >= 2 && t[|t| - 2] == Close
      && t[|t| - 1] == Send(SuccessNotice(cfg.database, Outcome(prep, svc, cfg.database, now).backupPath),
                            cfg.smtpUser, cfg.notifyEmail)
  {
    var s := StepsTrace(cfg, prep, svc, now);
    var t := RunTrace(cfg, calls, prep, svc, now);
    assert |s| == 4;
    assert t[|t| - 2] == s[2] && t[|t| - 1] == s[3];
  }

  /** The connection is left open, as written, exactly when it was made and
      the backup statement raised: the close is on the success path only. */
  lemma RunLeavesConnectionOpen(cfg: Config, calls: seq<Path>, prep: Result<Path>, svc: Services, now: DateTime)
    ensures var t := RunTrace(cfg, calls, prep, svc, now);
      (Count(t, ConnectKind) == 1 && svc.connect.Done? && Count(t, CloseKind) == 0)
        <==> (prep.Ok? && svc.connect.Done? && svc.execute.Raised?)
  {
    RunCounts(cfg, calls, prep, svc, now, ConnectKind);
    RunCounts(cfg, calls, prep, svc, now, CloseKind);
  }

  /** The call after the `os.makedirs` calls and the connect. */
  lemma RunExecuteEvent(cfg: Config, calls: seq<Path>, prep: Result<Path>, svc: Services, now: DateTime)
    requires prep.Ok? && svc.connect.Done?
    ensures var t := RunTrace(cfg, calls, prep, svc, now);
      && |t| > |calls| + 1
      && t[|calls| + 1] == Execute(BackupSqlAsWritten(cfg.database, BackupPath(prep.value, cfg.database, now)))
  {
    var s := StepsTrace(cfg, prep, svc, now);
    MakeDirsEventsCount(calls, ExecuteKind);
    var t := RunTrace(cfg, calls, prep, svc, now);
    assert t[|calls| + 1] == s[1];
  }

  /** Once connected, the run executes line 88's statement for the
      timestamped path that a successful run reports. When the database
      name holds no `]` or `'` and the day directory no `'`, that statement
      is the correctly quoted one and backs up exactly the configured
      database to exactly that path. */
  lemma RunExecutesReportedPath(cfg: Config, calls: seq<Path>, prep: Result<Path>, svc: Services, now: DateTime)
    requires prep.Ok? && svc.connect.Done? && ValidDateTime(now)
    requires ']' !in cfg.database && '\'' !in cfg.database && '\'' !in prep.value
    ensures var t := RunTrace(cfg, calls, prep, svc, now);
      var p := BackupPath(prep.value, cfg.database, now);
      && |t| > |calls| + 1
      && t[|calls| + 1] == Execute(BackupSql(cfg.database, p))
      && ParseBackupTarget(t[|calls| + 1].sql) == Some(BackupTarget(cfg.database, p))
      && (Outcome(prep, svc, cfg.database, now).Succeeded? ==> Outcome(prep, svc, cfg.database, now).backupPath == p)
  {
    var p := BackupPath(prep.value, cfg.database, now);
    RunExecuteEvent(cfg, calls, prep, svc, now);
    BackupPathHasNoQuote(prep.value, cfg.database, now);
    AsWrittenAgrees(cfg.database, p);
    BackupSqlTargets(cfg.database, p);
  }

  /** A day directory with an apostrophe in it, or a database name with a
      `]`: the statement the run executes does not back up the configured
      database to the path the run reports on success. */
  lemma RunMissesQuotedDirectory(cfg: Config, calls: seq<Path>, dir: Path, svc: Services, now: DateTime)
    requires svc.connect.Done? && (cfg.database == [] || cfg.database[0] != '/')
    requires '\'' in dir || ']' in cfg.database
    ensures var t := RunTrace(cfg, calls, Ok(dir), svc, now);
      var p := BackupPath(dir, cfg.database, now);
      && |t| > |calls| + 1
      && t[|calls| + 1] == Execute(BackupSqlAsWritten(cfg.database, p))
      && ParseBackupTarget(t[|calls| + 1].sql) != Some(BackupTarget(cfg.database, p))
  {
    var p := BackupPath(dir, cfg.database, now);
    RunExecuteEvent(cfg, calls, Ok(dir), svc, now);
    BackupPathExtendsDir(dir, cfg.database, now);
    if '\'' in dir {
      var i :| 0 <= i < |dir| && dir[i] == '\'';
      assert p[i] == p[..|dir|][i] == '\'';
    }
    AsWrittenMissesQuotedPath(cfg.database, p);
  }

  /** End to end: a successful run on `today` leaves the dated directory in
      place and the artifact it reports lies directly inside it, named for
      the database and the time of the run. */
  lemma RunArtifactInDayDir(dirs: set<Path>, refused: map<Path, string>, cfg: Config, svc: Services,
                            today: Date, now: DateTime)
    requires ValidDate(today) && ValidDateTime(now) && '/' !in cfg.database
    ensures var w := Walk(dirs, refused, Levels(cfg.backupDir, today));
      var day := DayDir(cfg.backupDir, today);
      var o := Outcome(PrepareResult(w, day), svc, cfg.database, now);
      o.Succeeded? ==>
        && day in w.dirs && DateOfDir(day) == Some(today)
        && BaseName(o.backupPath) == ArtifactName(cfg.database, now)
        && RStripSlashes(Head(o.backupPath)) == RStripSlashes(day)
        && ParseArtifactName(BaseName(o.backupPath)) == Some((cfg.database, now))
  {
    var w := Walk(dirs, refused, Levels(cfg.backupDir, today));
    var day := DayDir(cfg.backupDir, today);
    var o := Outcome(PrepareResult(w, day), svc, cfg.database, now);
    if o.Succeeded? {
      assert w.failure.Done?;
      assert o.backupPath == BackupPath(day, cfg.database, now);
      PrepareEffect(dirs, refused, cfg.backupDir, today);
      assert day in w.dirs;
      DayDirNamesDate(cfg.backupDir, today);
      BackupPathInsideDir(day, cfg.database, now);
    }
  }
}
