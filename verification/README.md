# Scheduled SQL Server backup: a verified model of its core

`auto_sqlServerBackup.py` is a single script that, once a week, writes a full
backup of one SQL Server database into a date-partitioned directory
`base/YYYY/MM/DD` and e-mails an operator whether the run succeeded. This
project models the three pieces of that script that carry logic and proves
what they promise:

- **Directory preparation** (`create_backup_directory`): module `Partition`,
  over the filesystem of module `FileSystems`. The filesystem is a class
  whose field `dirs` is the set of existing directory paths. Its method
  `MakeDirs` stands for `os.makedirs`, and `Exists` for `os.path.exists`.
  `CreateBackupDirectory` is the script's loop over `[year_dir, month_dir,
  day_dir]`, run on that object. It is proved equal to the reference walk
  `Walk`, and the lemmas state what the walk does: existence, monotonicity,
  what may be added, call order and idempotence.
- **Artifact naming and the backup statement** (`backup_database`): module
  `Artifact`. It builds the `%Y%m%d_%H%M%S` timestamp, the
  `{db}_backup_{timestamp}.bak` name, its path inside the day directory and
  the `BACKUP DATABASE` statement. Each comes with a parser that reads it
  back, and the lemmas are round trips through those parsers. The rendering
  of numbers (`str`, `zfill`) is in module `Text`. `os.path.join` and
  `basename` are in module `Paths`.
- **Run orchestration** (`perform_backup`, `send_email_notification`):
  module `Orchestration`, with the two messages in module `Notification`.
  Each external call is an abstract `Status`: the ODBC connect, the
  execution of the statement, `connection.close()` and the SMTP transport.
  `PerformBackup` returns the trace of calls it made. The lemmas about that
  trace cover:
  - the fail-fast order of the calls;
  - exactly one message per run, and none without a recipient;
  - a subject and body that match the outcome;
  - when the connection is closed and when it is left open.

The date, the time and the configuration are parameters rather than
`today()`, `now()` and literals.

## Model

| member | source | states |
|---|---|---|
| `Text.ZeroPadTwo` | auto_sqlServerBackup.py:67-68 | `str(n).zfill(2)` is "0" then the digit for n below 10, and exactly `str(n)` from 10 on |
| `Text.ZeroPadField` | auto_sqlServerBackup.py:67-68 | a zero-padded field of a number that fits has exactly the field's width, only digits, and reads back as the number |
| `Text.DecimalRoundTrip` | auto_sqlServerBackup.py:66 | the digits of `str(year)` read back as the year |
| `Text.DecimalString` | auto_sqlServerBackup.py:66 | `str(n)` is a non-empty run of digits that starts with '0' exactly when n is 0 |
| `Paths.JoinPlacesInside` | auto_sqlServerBackup.py:66-68 | `os.path.join(dir, name)` for a plain name yields a path whose basename is the name, whose parent is the directory (up to trailing separators), and which starts with the directory |
| `FileSystems.FileSystem.MakeDirs` | auto_sqlServerBackup.py:72 | `os.makedirs(p)` either raises (target exists, or creation refused) and changes nothing, or adds `p` and all of its ancestors |
| `FileSystems.WalkBounds` | auto_sqlServerBackup.py:70-73 | checking and creating levels in turn never removes a directory and adds only the levels and their ancestors |
| `FileSystems.WalkCompletes` | auto_sqlServerBackup.py:70-73 | a walk that raised nothing leaves every level existing |
| `FileSystems.WalkCalls` | auto_sqlServerBackup.py:70-73 | `os.makedirs` is called exactly on the levels that were missing, in their order; after a failure, on a prefix of them with the refused path last and its error reported |
| `FileSystems.WalkIdle` | auto_sqlServerBackup.py:70-71 | when every level exists the walk calls nothing and changes nothing |
| `FileSystems.WalkIdempotent` | auto_sqlServerBackup.py:70-73 | walking again after a successful walk calls nothing and changes nothing |
| `Partition.CreateBackupDirectory` | auto_sqlServerBackup.py:63-75 | the loop leaves exactly the directories, `os.makedirs` calls and result (day directory or the raised error) of the reference walk over year, month and day |
| `Partition.CreateEach` | auto_sqlServerBackup.py:70-73 | the `for` loop checks each level in order, calls `os.makedirs` on the missing ones and stops at the first that raises, ending in the state the reference walk reaches from the state before the loop |
| `Partition.DayDirLayout` | auto_sqlServerBackup.py:66-68 | the year directory's parent is the base (up to trailing separators) and it is named `str(year)`; month and day follow after single separators with two digits each |
| `Partition.DayDirNamesDate` | auto_sqlServerBackup.py:65-75 | the returned directory starts with the base and its last three components read back as the date it was made for |
| `Partition.LevelsChain` | auto_sqlServerBackup.py:66-70 | the three levels grow strictly, and each level and its ancestors are the day directory or an ancestor of it |
| `Partition.PrepareEffect` | auto_sqlServerBackup.py:70-75 | existing directories stay; only the day directory and its ancestors are added; `os.makedirs` runs on the missing levels in year, month, day order; on success all three exist |
| `Partition.PrepareIdempotent` | auto_sqlServerBackup.py:70-75 | a second call with the same base and date after a successful one returns the same path, calls `os.makedirs` on nothing and changes nothing |
| `Artifact.TimestampRoundTrip` | auto_sqlServerBackup.py:83 | the timestamp is 8 digits, an underscore and 6 digits, and reads back as the same date and time |
| `Artifact.ArtifactNameRoundTrip` | auto_sqlServerBackup.py:84 | the file name reads back as the database name and the time of the run, whatever the name contains |
| `Artifact.BackupPathInsideDir` | auto_sqlServerBackup.py:85 | for a database name without '/', the backup path lies directly inside the backup directory under the artifact name |
| `Artifact.UnquoteEscape` | auto_sqlServerBackup.py:88 | a bracketed name or N'...' literal with its quote doubled reads back as exactly the original text |
| `Artifact.BackupSqlTargets` | auto_sqlServerBackup.py:88-96 | the escaped statement names exactly the database in `[...]` and targets exactly the path that is returned to the caller |
| `Artifact.AsWrittenAgrees` | auto_sqlServerBackup.py:88 | for names and paths without quote characters, the statement as written equals the escaped one |
| `Artifact.AsWrittenMissesQuotedPath` | auto_sqlServerBackup.py:88 | as written, a statement whose database name holds a `]` or whose path holds a `'` never backs up exactly that database to exactly that path: it is rejected or names another database or file |
| `Artifact.AsWrittenRejectsQuotedPath` | auto_sqlServerBackup.py:88 | as written, a path with an undoubled apostrophe that is not followed by another apostrophe or a space makes the statement malformed, so SQL Server rejects it |
| `Artifact.AsWrittenRetargetsDoubledQuotes` | auto_sqlServerBackup.py:88 | as written, a path whose apostrophes all come doubled gives a well-formed statement that backs up to the undoubled path, another file than the one returned |
| `Notification.SuccessNoticeReports` | auto_sqlServerBackup.py:147-150 | the success subject reads as success for the database, and the body ends with the backup path |
| `Notification.FailureNoticeReports` | auto_sqlServerBackup.py:152-157 | the failure subject reads as failure for the database, and the body ends with the error text |
| `Orchestration.SendEmailNotification` | auto_sqlServerBackup.py:101-116 | the call returns normally for every transport outcome; it logs an error exactly when the transport raised |
| `Orchestration.RunSteps` | auto_sqlServerBackup.py:136-157 | the try block and its except branch make exactly the calls of the reference trace, executing line 88's statement as written, and log only a transport error |
| `Orchestration.PerformBackup` | auto_sqlServerBackup.py:118-157 | a run leaves the directories of the reference walk and makes exactly the calls of the reference trace, with no error result |
| `Orchestration.RunCounts` | auto_sqlServerBackup.py:134-157 | fail-fast: connect only after the directory, backup only after connecting, close only after the backup; exactly one message with a recipient, none without |
| `Orchestration.RunInOrder` | auto_sqlServerBackup.py:134-157 | the calls come in script order: directories, connect, backup statement, close, message |
| `Orchestration.RunNotifiesOutcome` | auto_sqlServerBackup.py:147-157 | with a recipient, the run ends with the one message for its outcome: success, or failure with the first raised error |
| `Orchestration.NoticeMatchesOutcome` | auto_sqlServerBackup.py:148-156 | the message of an outcome reads as that outcome for the database and its body ends with the path or the error |
| `Orchestration.RunClosesBeforeSuccessNotice` | auto_sqlServerBackup.py:143-150 | on success the connection is closed immediately before the success message is sent |
| `Orchestration.RunLeavesConnectionOpen` | auto_sqlServerBackup.py:137-152 | an opened connection stays unclosed exactly when the backup statement raised |
| `Orchestration.RunExecutesReportedPath` | auto_sqlServerBackup.py:85-96 | once connected, the run executes line 88's statement; for a database name without `]` or `'` and a directory without `'` it is the correctly quoted statement, backing up the configured database to the timestamped path that is reported on success |
| `Orchestration.RunMissesQuotedDirectory` | auto_sqlServerBackup.py:134-140 | when the day directory holds an apostrophe or the database name a `]`, the statement the run executes does not back up the configured database to the path the run would report |
| `Orchestration.RunArtifactInDayDir` | auto_sqlServerBackup.py:134-140 | for database names without '/', after a successful run the dated directory exists for today's date, and the reported artifact lies directly inside it, named for the database and the time |

## Left out

- `install_package`, `check_libraries` and the start-up call to `check_libraries` (lines 25-50) are not modelled. They install pip packages at start-up and hold no logic to state.
- `connect_to_sql_server` (lines 52-61) is reduced to a `Connect` call that records its four parameters; the ODBC connection string and pyodbc are not modelled, and whether it raises is the parameter `Services.connect`.
- The statement's execution and commit (lines 80, 91-92) are the parameter `Services.execute`, which also covers a failing `connection.cursor()`.
- The MIME message and the SMTP session (lines 104-114) are the parameter `Services.transport`; only the message's subject, body, sender and recipient are recorded.
- `main` and the `schedule` loop (lines 159-167) are not modelled. The loop never ends, depends on wall-clock time and relies on a library whose firing rules are not part of this model. The code has no single-flight guard, so none is modelled.
- `datetime.date.today()` and `datetime.datetime.now()` are parameters. The model does not capture that they are read at different moments, so a run that crosses midnight can name the file with a later date than its directory.
- Logging is not modelled, apart from the transport error that `SendEmailNotification` returns. The `MakeDirs` events of a trace are the `os.makedirs` calls, including one that raised; they are not the "Created directory" log lines, which follow only successful calls.
- The hard-coded settings (lines 122-131) are the `Config` parameter.
- Exception text is abstract: each step's error is the string the model is given, not Python's formatting of the exception.
- Paths use '/' as the only separator. `os.path.exists` is true only for directories, so a plain file at a level's path is not modelled.
- Whether `os.makedirs(p)` raises is a fixed oracle keyed on `p` (`FileSystem.refused`). The ancestors it may have created before failing are not modelled.
- `Artifact.TimestampRoundTrip`: `%Y` is modelled through `Artifact.Timestamp` as four zero-padded digits. Some C libraries print years below 1000 without padding, which `datetime` allows.
- `Orchestration.RunExecutesReportedPath`: stated only for database names without `]` or `'` and directories without `'`. Line 88 does not escape them, so for other names the statement is not the one that targets the path; `Orchestration.RunMissesQuotedDirectory` and the finding below state what happens then.
- `Orchestration.RunMissesQuotedDirectory`: stated for database names that do not start with '/', since otherwise `os.path.join` drops the directory from the path.
- `Artifact.ParseBackupTarget` checks only the opening of the `WITH` options and does not read the `NAME = N'...'` literal, so a `'` in the database name, which line 88 also leaves unescaped there, is not shown to break the statement.
- `Artifact.BackupPathInsideDir`: stated only for database names without '/'. With a '/' in the name, `os.path.join` can put the file elsewhere, or drop the directory if the name starts with '/'.

The model follows the code as written, also where it falls short of what one might expect:

- The connection is closed only on the success path, not on every exit.
- An existing non-directory entry is skipped by the existence check rather than reported as a filesystem error.
- The year directory is `str(year)`, which is four digits only from year 1000.
- The run executes line 88's statement as written, without escaping quote characters; the correctly quoted statement `Artifact.BackupSql` is modelled beside it.

## Findings

| source | as written | input that shows it | evidently intended | confidence | as-written member | corrected member |
|---|---|---|---|---|---|---|
| auto_sqlServerBackup.py:88 | the database name and the path are pasted into `[...]` and `N'...'` without doubling `]` and `'` | backup directory `/srv/o'neil`: the disk literal ends after `/srv/o` and is followed by `neil/...bak'` rather than the `WITH` options, so SQL Server rejects the statement, `cursor.execute` raises and the failure message is sent (taken with front `/srv/o` and back `neil/...`) | the statement backs up to exactly the returned `backup_path` | not executed; the statement follows from line 88 and T-SQL quoting rules | `Artifact.AsWrittenRejectsQuotedPath` | `Artifact.BackupSqlTargets` |

The run (`Orchestration.StepsTrace`) executes the statement as written, so its trace is the script's. `Artifact.AsWrittenMissesQuotedPath` states the finding for every name with a `]` and every path with a `'`. `Artifact.AsWrittenRetargetsDoubledQuotes` shows its silent form: a path such as `/s/o''n/x.bak` gives a well-formed statement that backs up to `/s/o'n/x.bak`. `Orchestration.RunMissesQuotedDirectory` carries the finding into the run. `Artifact.AsWrittenAgrees` shows that the statement as written is character for character the corrected `Artifact.BackupSql` whenever the database name and path contain no `]` or `'`, as with the script's defaults; `Orchestration.RunExecutesReportedPath` uses this.
