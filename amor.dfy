/**
 * The PHPAmor object: where it logs, the database profile it keeps, the
 * request check that logs what it finds, and the setters that return the
 * object itself for chaining.
 */
module Amor {
  import opened Wrappers
  import opened XssPatterns
  import opened Request
  import opened Dsn

  /** What is reported: the HTML-escaped rendering of the whole request. */
  datatype Report = XssThreat(escaped: seq<(string, string)>)

  /** One line appended to a log file: the file, its timestamp and what it reports. */
  datatype LogLine = LogLine(file: string, stamp: string, report: Report)

  /** How a call ends: the boolean it returns, or the message of what it throws. */
  datatype Outcome = Returned(safe: bool) | Threw(error: string)

  class PHPAmor {
    /** Path of the log file; "" while unset. */
    var logFile: string
    /** The PDO data source name; "" while unset. */
    var dsn: string
    var username: string
    var password: string
    /** Every line written to the log files so far, oldest first. */
    var log: seq<LogLine>

    constructor ()
      ensures logFile == "" && dsn == "" && username == "" && password == "" && log == []
    {
      logFile, dsn, username, password := "", "", "", "";
      log := [];
    }

    /** Sets the log path and returns the object itself; nothing else changes. */
    method SetLogFilePath(logFilePath: string) returns (self: PHPAmor)
      modifies this`logFile
      ensures self == this && logFile == logFilePath
      ensures dsn == old(dsn) && username == old(username) && password == old(password)
      ensures log == old(log)
    {
      logFile := logFilePath;
      self := this;
    }

    /**
     * True (safe) exactly when isXSS finds nothing, and then nothing is
     * logged. On a threat, one line holding the escaped request is appended
     * and false is returned, unless escaping throws on an array-valued field,
     * in which case the exception escapes and nothing is logged.
     */
    method CheckRequest(request: Fields, stamp: string) returns (r: Outcome)
      modifies this`log
      ensures r.Returned? ==> r.safe == !Detects(request)
      ensures r.Threw? <==> Detects(request) && ArrayToHtmlEntities(request).Err?
      ensures r.Threw? ==> r.error == TYPE_ERROR
      ensures r == Returned(false) ==>
        log == old(log) + [LogLine(logFile, stamp, XssThreat(ArrayToHtmlEntities(request).value))]
      ensures r != Returned(false) ==> log == old(log)
    {
      var threat := IsXSS(request);
      if threat {
        var escaped := ArrayToHtmlEntities(request);
        if escaped.Err? {
          return Threw(escaped.error);
        }
        LogReport(stamp, XssThreat(escaped.value));
        return Returned(false);
      }
      return Returned(true);
    }

    /**
     * Scans the fields in order, testing each string value against the
     * patterns in order, and stops at the first match.
     */
    method IsXSS(data: Fields) returns (found: bool)
      ensures found == Detects(data)
    {
      var m := 0;
      while m < |data|
        invariant 0 <= m <= |data|
        invariant forall k :: 0 <= k < m ==> !Flagged(data[k].1)
      {
        var value := data[m].1;
        if value.Str? {
          var n := 0;
          while n < |PATTERNS|
            invariant 0 <= n <= |PATTERNS|
            invariant forall k :: 0 <= k < n ==> !Matches(PATTERNS[k], value.s)
          {
            if Matches(PATTERNS[n], value.s) {
              return true;
            }
            n := n + 1;
          }
        }
        m := m + 1;
      }
      return false;
    }

    /** Appends one line, to the file currently set, and changes nothing else. */
    method LogReport(stamp: string, report: Report)
      modifies this`log
      ensures log == old(log) + [LogLine(logFile, stamp, report)]
    {
      log := log + [LogLine(logFile, stamp, report)];
    }

    /**
     * Stores the DSN for `driver` and the credentials and returns the object
     * itself. An unknown driver throws before any field is assigned.
     */
    method SetDBInformation(driver: string, host: string, database: string, user: string, pass: string)
      returns (r: Result<PHPAmor>)
      modifies this`dsn, this`username, this`password
      ensures r.Ok? <==> driver in DRIVERS
      ensures r.Ok? ==> r.value == this && dsn == DsnFor(driver, host, database).value
                        && username == user && password == pass
      ensures r.Err? ==> r.error == INVALID_DRIVER
                         && dsn == old(dsn) && username == old(username) && password == old(password)
      ensures logFile == old(logFile) && log == old(log)
    {
      var built := DsnFor(driver, host, database);
      if built.Err? {
        return Err(built.error);
      }
      dsn := built.value;
      username := user;
      password := pass;
      r := Ok(this);
    }
  }
}
