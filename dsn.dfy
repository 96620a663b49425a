/**
 * The connection strings PHPAmor::setDBInformation builds for PDO, and a
 * reading of them back into their `key=value` parameters.
 */
module Dsn {
  import opened Wrappers

  /** The driver names the switch accepts, compared exactly (case-sensitive). */
  const DRIVERS: set<string> := {"mysql", "pgsql", "sqlite", "sqlsrv", "oci"}

  const INVALID_DRIVER := "Invalid database driver"

  /**
   * The data source name for `driver`; any other driver throws. Whatever the
   * driver, the DSN starts with the driver's name and a colon, which is how
   * PDO picks the driver.
   */
  function DsnFor(driver: string, host: string, database: string): (r: Result<string>)
    ensures r.Ok? <==> driver in DRIVERS
    ensures r.Ok? ==> driver + ":" <= r.value
    ensures r.Err? ==> r.error == INVALID_DRIVER
  {
    if driver == "mysql" then Ok("mysql:host=" + host + ";dbname=" + database + ";charset=utf8")
    else if driver == "pgsql" then Ok("pgsql:host=" + host + ";dbname=" + database + ";port=5432")
    else if driver == "sqlite" then Ok("sqlite:" + database + ".sqlite")
    else if driver == "sqlsrv" then Ok("sqlsrv:server=" + host + ";database=" + database)
    else if driver == "oci" then Ok("oci:dbname=" + database + ";charset=utf8")
    else Err(INVALID_DRIVER)
  }

  /** What each `key=value` driver's DSN is meant to carry, in order. */
  function ConnectionParams(driver: string, host: string, database: string): seq<(string, string)>
  {
    if driver == "mysql" then [("host", host), ("dbname", database), ("charset", "utf8")]
    else if driver == "pgsql" then [("host", host), ("dbname", database), ("port", "5432")]
    else if driver == "sqlsrv" then [("server", host), ("database", database)]
    else if driver == "oci" then [("dbname", database), ("charset", "utf8")]
    else []
  }

  // ---------------------------------------------------------------------
  // Reading a DSN body back

  /** The pieces of `s` between occurrences of `sep`. */
  function SplitOn(s: string, sep: char): (parts: seq<string>)
    ensures |parts| >= 1
    decreases |s|
  {
    if s == [] then [[]]
    else
      var rest := SplitOn(s[1..], sep);
      if s[0] == sep then [[]] + rest else [[s[0]] + rest[0]] + rest[1..]
  }

  /** A piece split at its first `=`; a piece without one is all key. */
  function KeyValue(piece: string): (string, string)
    decreases |piece|
  {
    if piece == [] then ([], [])
    else if piece[0] == '=' then ([], piece[1..])
    else var kv := KeyValue(piece[1..]); ([piece[0]] + kv.0, kv.1)
  }

  /** The `key=value` parameters of a DSN body, separated by `;`. */
  function ParseParams(body: string): seq<(string, string)>
  {
    var parts := SplitOn(body, ';');
    seq(|parts|, i requires 0 <= i < |parts| => KeyValue(parts[i]))
  }

  /** `sep` ends the first piece. */
  lemma {:induction false} SplitOnSeparated(a: string, b: string, sep: char)
    requires sep !in a
    ensures SplitOn(a + [sep] + b, sep) == [a] + SplitOn(b, sep)
    decreases |a|
  {
    if a == [] {
      assert a + [sep] + b == [sep] + b;
      assert ([sep] + b)[1..] == b;
    } else {
      assert (a + [sep] + b)[1..] == a[1..] + [sep] + b;
      SplitOnSeparated(a[1..], b, sep);
      assert [a[0]] + a[1..] == a;
    }
  }

  /** A piece without `sep` is not split. */
  lemma {:induction false} SplitOnWhole(a: string, sep: char)
    requires sep !in a
    ensures SplitOn(a, sep) == [a]
    decreases |a|
  {
    if a != [] {
      SplitOnWhole(a[1..], sep);
      assert [a[0]] + a[1..] == a;
    }
  }

  /** A key without `=` is read back from `key=value`, whatever the value holds. */
  lemma {:induction false} KeyValueOf(k: string, v: string)
    requires '=' !in k
    ensures KeyValue(k + "=" + v) == (k, v)
    decreases |k|
  {
    if k == [] {
      assert k + "=" + v == "=" + v;
      assert ("=" + v)[1..] == v;
    } else {
      assert (k + "=" + v)[1..] == k[1..] + "=" + v;
      KeyValueOf(k[1..], v);
      assert [k[0]] + k[1..] == k;
    }
  }

  /** A first piece without `;` is read as the first parameter, ahead of the rest. */
  lemma ParseParamsCons(piece: string, rest: string)
    requires ';' !in piece
    ensures ParseParams(piece + [';'] + rest) == [KeyValue(piece)] + ParseParams(rest)
  {
    SplitOnSeparated(piece, rest, ';');
  }

  /** Three parameters written `k1=v1;k2=v2;k3=v3` read back as themselves. */
  lemma ThreeParamsRoundTrip(k1: string, v1: string, k2: string, v2: string, k3: string, v3: string)
    requires '=' !in k1 && '=' !in k2 && '=' !in k3
    requires ';' !in k1 + "=" + v1 && ';' !in k2 + "=" + v2 && ';' !in k3 + "=" + v3
    ensures ParseParams(k1 + "=" + v1 + ";" + k2 + "=" + v2 + ";" + k3 + "=" + v3)
            == [(k1, v1), (k2, v2), (k3, v3)]
  {
    var p1, p2, p3 := k1 + "=" + v1, k2 + "=" + v2, k3 + "=" + v3;
    assert k1 + "=" + v1 + ";" + k2 + "=" + v2 + ";" + k3 + "=" + v3 == p1 + [';'] + (p2 + [';'] + p3);
    SplitOnSeparated(p1, p2 + [';'] + p3, ';');
    SplitOnSeparated(p2, p3, ';');
    SplitOnWhole(p3, ';');
    KeyValueOf(k1, v1);
    KeyValueOf(k2, v2);
    KeyValueOf(k3, v3);
  }

  /** Two parameters written `k1=v1;k2=v2` read back as themselves. */
  lemma TwoParamsRoundTrip(k1: string, v1: string, k2: string, v2: string)
    requires '=' !in k1 && '=' !in k2
    requires ';' !in k1 + "=" + v1 && ';' !in k2 + "=" + v2
    ensures ParseParams(k1 + "=" + v1 + ";" + k2 + "=" + v2) == [(k1, v1), (k2, v2)]
  {
    var p1, p2 := k1 + "=" + v1, k2 + "=" + v2;
    assert k1 + "=" + v1 + ";" + k2 + "=" + v2 == p1 + [';'] + p2;
    SplitOnSeparated(p1, p2, ';');
    SplitOnWhole(p2, ';');
    KeyValueOf(k1, v1);
    KeyValueOf(k2, v2);
  }

  // ---------------------------------------------------------------------
  // Properties of the DSNs

  /** The mysql DSN after `mysql:`. */
  lemma MysqlBody(host: string, database: string)
    ensures DsnFor("mysql", host, database).value[6..]
            == "host" + "=" + host + ";" + "dbname" + "=" + database + ";" + "charset" + "=" + "utf8"
  {
    var body := "host" + "=" + host + ";" + "dbname" + "=" + database + ";" + "charset" + "=" + "utf8";
    assert DsnFor("mysql", host, database).value == "mysql:" + body;
  }

  /** The pgsql DSN after `pgsql:`. */
  lemma PgsqlBody(host: string, database: string)
    ensures DsnFor("pgsql", host, database).value[6..]
            == "host" + "=" + host + ";" + "dbname" + "=" + database + ";" + "port" + "=" + "5432"
  {
    var body := "host" + "=" + host + ";" + "dbname" + "=" + database + ";" + "port" + "=" + "5432";
    assert DsnFor("pgsql", host, database).value == "pgsql:" + body;
  }

  /** The sqlsrv DSN after `sqlsrv:`. */
  lemma SqlsrvBody(host: string, database: string)
    ensures DsnFor("sqlsrv", host, database).value[7..] == "server" + "=" + host + ";" + "database" + "=" + database
  {
    var body := "server" + "=" + host + ";" + "database" + "=" + database;
    assert DsnFor("sqlsrv", host, database).value == "sqlsrv:" + body;
  }

  /** The oci DSN after `oci:`. */
  lemma OciBody(host: string, database: string)
    ensures DsnFor("oci", host, database).value[4..] == "dbname" + "=" + database + ";" + "charset" + "=" + "utf8"
  {
    var body := "dbname" + "=" + database + ";" + "charset" + "=" + "utf8";
    assert DsnFor("oci", host, database).value == "oci:" + body;
  }

  /**
   * For the `key=value` drivers, as long as host and database name hold no
   * `;`, the DSN after `driver:` reads back as exactly the intended
   * parameters: host (server for sqlsrv) and database in their places, and
   * the fixed `charset=utf8` or `port=5432`.
   */
  lemma DsnReadsBack(driver: string, host: string, database: string)
    requires driver in DRIVERS - {"sqlite"}
    requires ';' !in host && ';' !in database
    ensures DsnFor(driver, host, database).Ok?
    ensures ParseParams(DsnFor(driver, host, database).value[|driver| + 1..])
            == ConnectionParams(driver, host, database)
  {
    if driver == "mysql" {
      MysqlBody(host, database);
      ThreeParamsRoundTrip("host", host, "dbname", database, "charset", "utf8");
    } else if driver == "pgsql" {
      PgsqlBody(host, database);
      ThreeParamsRoundTrip("host", host, "dbname", database, "port", "5432");
    } else if driver == "sqlsrv" {
      SqlsrvBody(host, database);
      TwoParamsRoundTrip("server", host, "database", database);
    } else {
      OciBody(host, database);
      TwoParamsRoundTrip("dbname", database, "charset", "utf8");
    }
  }

  /** The sqlite DSN names the file `<database>.sqlite`, which reads back as the database. */
  lemma SqliteFileReadsBack(host: string, database: string)
    ensures DsnFor("sqlite", host, database).Ok?
    ensures var dsn := DsnFor("sqlite", host, database).value;
      |dsn| == |database| + 14 && dsn[7..|dsn| - 7] == database && dsn[|dsn| - 7..] == ".sqlite"
  {
    var dsn := DsnFor("sqlite", host, database).value;
    assert dsn == "sqlite:" + database + ".sqlite";
    assert dsn[7..|dsn| - 7] == database;
  }

  /** The sqlite and oci DSNs do not depend on the host. */
  lemma HostIgnored(driver: string, host: string, otherHost: string, database: string)
    requires driver == "sqlite" || driver == "oci"
    ensures DsnFor(driver, host, database) == DsnFor(driver, otherHost, database)
  {
  }

  /**
   * The host is not checked, so a `;` in it smuggles in a parameter: with
   * host `h;dbname=other` the mysql DSN carries two `dbname` entries, the
   * injected one first.
   */
  lemma HostInjectsParameter(host: string, other: string, database: string)
    requires ';' !in host && ';' !in other && ';' !in database
    ensures ParseParams(DsnFor("mysql", host + ";dbname=" + other, database).value[6..])
            == [("host", host), ("dbname", other), ("dbname", database), ("charset", "utf8")]
  {
    var rest := "dbname" + "=" + other + ";" + "dbname" + "=" + database + ";" + "charset" + "=" + "utf8";
    InjectedBody(host, other, database);
    ParseParamsCons("host" + "=" + host, rest);
    KeyValueOf("host", host);
    ThreeParamsRoundTrip("dbname", other, "dbname", database, "charset", "utf8");
  }

  /** The mysql DSN body for the host `h;dbname=other`, cut at its first `;`. */
  lemma InjectedBody(host: string, other: string, database: string)
    ensures DsnFor("mysql", host + ";dbname=" + other, database).value[6..]
            == ("host" + "=" + host) + [';']
               + ("dbname" + "=" + other + ";" + "dbname" + "=" + database + ";" + "charset" + "=" + "utf8")
  {
    MysqlBody(host + ";dbname=" + other, database);
  }
}
