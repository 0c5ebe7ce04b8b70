/** The two e-mail messages `perform_backup` can send, and the subject line
    by which an operator tells them apart. */
module Notification {
  import opened Results
  import opened Text

  datatype Notice = Notice(subject: string, body: string)

  const SuccessTag: string := "Backup Success: "
  const FailureTag: string := "Backup Failed: "

  /** The message sent after the connection is closed on the success path. */
  function SuccessNotice(database: string, backupPath: string): Notice
  {
    Notice(SuccessTag + database,
           "Backup of database " + database + " completed successfully. Backup file: " + backupPath)
  }

  /** The message sent from the single `except` branch. */
  function FailureNotice(database: string, error: string): Notice
  {
    Notice(FailureTag + database,
           "An error occurred during the backup of database " + database + ". Error: " + error)
  }

  /** How a reader classifies a subject line: success or failure, and the
      database it is about. */
  function SubjectReport(subject: string): Option<(bool, string)>
  {
    if IsPrefix(SuccessTag, subject) then Some((true, subject[|SuccessTag|..]))
    else if IsPrefix(FailureTag, subject) then Some((false, subject[|FailureTag|..]))
    else None
  }

  /** A success message reads as a success for the database, and its body
      ends with the backup file path. */
  lemma SuccessNoticeReports(database: string, backupPath: string)
    ensures var n := SuccessNotice(database, backupPath);
      SubjectReport(n.subject) == Some((true, database)) && IsSuffix(backupPath, n.body)
  {
    var n := SuccessNotice(database, backupPath);
    assert n.subject[..|SuccessTag|] == SuccessTag;
    assert n.subject[|SuccessTag|..] == database;
  }

  /** A failure message reads as a failure for the database, and its body
      ends with the error text. */
  lemma FailureNoticeReports(database: string, error: string)
    ensures var n := FailureNotice(database, error);
      SubjectReport(n.subject) == Some((false, database)) && IsSuffix(error, n.body)
  {
    var n := FailureNotice(database, error);
    assert n.subject[8] == FailureTag[8] != SuccessTag[8];
    assert n.subject[..|FailureTag|] == FailureTag;
    assert n.subject[|FailureTag|..] == database;
  }
}
