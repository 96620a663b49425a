# PHPAmor request inspection and database profile, in Dafny

PHPAmor is a single PHP class that hardens a web application's request
handling. This project models the class's non-database logic:

- **XSS scanner.** `checkRequest` hands the request array to `isXSS`. That
  method tests every string-valued field against seven case-insensitive,
  unanchored regular expressions, in order, and stops at the first match. On
  a threat, `checkRequest` appends one line to the log file and returns
  `false`. The line holds the request with every value passed through
  `htmlspecialchars`. Otherwise it returns `true` and logs nothing.
- **Database profile.** `setDBInformation` turns one of five PDO driver names
  into a driver-specific data source name (DSN) and stores it with the
  credentials. Any other driver throws before a field is touched.
- **Log sink.** `setLogFilePath` sets where the log goes. `logReport` appends
  one line there.

Module layout:

- `patterns.dfy` (`XssPatterns`): the seven patterns, modelled as sequences
  of three kinds of atom.
  - A literal character, compared with ASCII case folding.
  - `.*`: any run of characters without a newline.
  - `[\s\S]*`: any run of characters at all.

  `preg_match` is modelled as "some contiguous piece of the subject is
  matched". The central result is `MatchesAnyIffScriptBlock`: the list of
  seven flags exactly what pattern 2 (`<.*script.*>[\s\S]*<\/.*script.*>`)
  flags. Patterns 3 to 7 contain pattern 2 as a contiguous part. Pattern 1 is
  pattern 2 with every `.*` matching the empty string.
- `escape.dfy` (`HtmlEscape`): `htmlspecialchars` with PHP 8.1's default
  flags (`&`, `"`, `'`, `<`, `>`), and its decoding.
- `request.dfy` (`Request`): request fields as PHP values, `array_to_htmlentities`,
  and the verdict `Detects`, which is what `isXSS` computes.
- `dsn.dfy` (`Dsn`): the DSN formulas, plus a reading of a DSN back into its
  `key=value` parameters. That reading is used to show that each DSN carries
  what it should.
- `amor.dfy` (`Amor`): the `PHPAmor` class. Its fields are `logFile`, `dsn`,
  `username`, `password` and the log, a sequence of lines that only grows.
  Its methods update those fields in place.

Behaviour of the code that the model keeps:

- `setDBInformation` selects the DSN with a `switch` over the driver names
  `mysql`, `pgsql`, `sqlite`, `sqlsrv` and `oci`. The model takes the driver
  as a string and compares it exactly.
- The log path is a field of the object, set by `setLogFilePath`, and every
  log line goes to the path set at the time of writing.
- A request whose field value is itself an array is scanned without error,
  because `isXSS` tests only string values. If that request is flagged,
  `htmlspecialchars` throws a TypeError while the log line is built, so
  `checkRequest` throws and logs nothing.
- Only values are HTML-escaped. Keys reach the log exactly as received, and
  `json_encode`'s default flags do not escape `<` or `>` either. So the
  escaped values hold no `<` or `>`, but the keys may.
- A `;` in the host is not rejected, so it can add a parameter to the DSN
  (`HostInjectsParameter`).

## Model

| member | source | states |
|---|---|---|
| `Amor.PHPAmor.constructor` | PHPAmor.php:4-7 | A new object has no log path, DSN or credentials, and an empty log |
| `Amor.PHPAmor.SetLogFilePath` | PHPAmor.php:10-14 | Sets the log path, returns the same object for chaining, and leaves the DSN, credentials and log unchanged |
| `Amor.PHPAmor.CheckRequest` | PHPAmor.php:16-25 | Returns true exactly when the request is not flagged, and then logs nothing. A flagged request gets exactly one appended line holding the escaped request, written to the current log file, and false. If escaping throws, the call throws the TypeError and logs nothing |
| `Amor.PHPAmor.IsXSS` | PHPAmor.php:33-64 | The nested scan with early return finds a match exactly when some string-valued field matches some pattern |
| `Amor.PHPAmor.LogReport` | PHPAmor.php:66-70 | Appends exactly one line, addressed to the current log path, and changes nothing else |
| `Amor.PHPAmor.SetDBInformation` | PHPAmor.php:81-104 | Succeeds exactly for the five driver names, and then stores that driver's DSN and the credentials verbatim and returns the same object. Any other driver gives 'Invalid database driver' and leaves the DSN, username and password as they were. The log path and log never change |
| `Request.Detects` | PHPAmor.php:53-63 | Defines the verdict `isXSS` returns: some field holds a string value that one of the patterns matches |
| `Request.HtmlSpecialChars` | PHPAmor.php:28 | Throws exactly for an array value. Otherwise the result holds no `<` or `>`, and a string value decodes back to itself |
| `Request.ArrayToHtmlEntities` | PHPAmor.php:26-31 | Fails with the TypeError exactly when some value is an array. Otherwise it keeps every key in order, leaves no `<` or `>` in any value, and decodes every string value back to the original |
| `Request.DetectsIffScriptBlock` | PHPAmor.php:36-63 | A request is flagged exactly when one of its string values matches pattern 2 |
| `Request.DetectsIgnoresOrder` | PHPAmor.php:53-61 | Reordering the fields (any permutation) does not change the verdict |
| `Request.NoAngleNoThreat` | PHPAmor.php:53-54 | A request whose string values hold no `<` is never flagged, so a request with no string values at all is never flagged either |
| `Request.ScriptTagsFlagged` | PHPAmor.php:37 | A string value with `<script>` in any letter case, followed later by `</script>`, gets its request flagged |
| `Request.DemoGetFlagged` | index.php:12-16 | The demo `$_GET` is flagged, while its `username` and integer `page` fields alone are not |
| `XssPatterns.FullMatch` | PHPAmor.php:37-49 | Defines when a pattern matches a whole string: literals compare with ASCII case folding (the `/i` flag), `.*` spans no newline, `[\s\S]*` spans anything |
| `XssPatterns.Matches` | PHPAmor.php:56 | Defines `preg_match` without anchors: some contiguous piece of the subject is matched in full |
| `XssPatterns.PATTERNS` | PHPAmor.php:36-52 | Defines the seven patterns, in the order `isXSS` tries them |
| `XssPatterns.PatternImpliesScriptBlock` | PHPAmor.php:36-50 | Each of the seven patterns matches only where pattern 2 matches |
| `XssPatterns.MatchesAnyIffScriptBlock` | PHPAmor.php:36-59 | Some pattern of the list matches a string exactly when pattern 2 does |
| `XssPatterns.BareScriptIsScriptBlock` | PHPAmor.php:37-39 | Every text matched by pattern 1 is matched by pattern 2 |
| `XssPatterns.InnerMatch` | PHPAmor.php:41-49 | A pattern that occurs contiguously inside an unanchored pattern matches wherever the enclosing one does |
| `XssPatterns.ScriptBlockNeedsAngle` | PHPAmor.php:39 | Pattern 2 matches only strings that contain `<` |
| `XssPatterns.ScriptTagsMatch` | PHPAmor.php:37 | `<script>` followed later by `</script>`, in any letter case, is matched by patterns 1 and 2 |
| `XssPatterns.SplitMatch` | PHPAmor.php:37-49 | A match of a concatenated pattern splits into consecutive matches of its two parts |
| `XssPatterns.JoinMatch` | PHPAmor.php:37-49 | Consecutive matches of two patterns form a match of their concatenation |
| `XssPatterns.WordMatch` | PHPAmor.php:37 | A literal word matches exactly the strings that spell it in any letter case |
| `HtmlEscape.Escape` | PHPAmor.php:28 | The escaped string holds no `<` or `>` and is at least as long as the input |
| `HtmlEscape.UnescapeEscape` | PHPAmor.php:28 | Decoding the escaped string gives back the original |
| `HtmlEscape.IntText` | PHPAmor.php:28 | PHP's conversion of an integer argument to a string: a leading `-` exactly for a negative number, then decimal digits without leading zeros whose value is the magnitude |
| `Dsn.DsnFor` | PHPAmor.php:82-100 | Succeeds exactly for the five drivers and then starts with `driver:`. Any other driver gives 'Invalid database driver' |
| `Dsn.DsnReadsBack` | PHPAmor.php:83-97 | For mysql, pgsql, sqlsrv and oci, with no `;` in host or database, the DSN reads back as exactly that driver's parameters: host (server for sqlsrv), dbname/database, and the fixed `charset=utf8` or `port=5432` |
| `Dsn.SqliteFileReadsBack` | PHPAmor.php:89-91 | The sqlite DSN is `sqlite:` plus the database name plus `.sqlite`, and the database name can be read back from it |
| `Dsn.HostIgnored` | PHPAmor.php:89-97 | The sqlite and oci DSNs do not depend on the host |
| `Dsn.HostInjectsParameter` | PHPAmor.php:83-85 | A host `h;dbname=other` gives a mysql DSN with two `dbname` parameters, the injected one first |

## Left out

- `execute`, `query`, `connect`, `disconnect` and `bindValues` (PHPAmor.php:105-190): these wrap PDO, and what PDO does is not visible here. Four facts of the code stand as written:
  - `execute` calls `var_dump(...); exit;` at line 146, so the process ends there.
  - `disconnect` only clears its own parameter (line 121).
  - `connect` turns a PDOException into a plain Exception (lines 111-112). So when `connect` fails, `$con` is undefined in the Throwable catch at line 161, and likewise at line 185 in `query`.
  - A bind failure is logged twice: at line 134, and again after the rethrow at line 162.
- The text of a log line: `"[" . date(...) . "] XSS Security threat detected: " . json_encode(...) . "\n"` is modelled as a structured line. It holds the target file, the timestamp (a parameter) and the escaped key/value list. `json_encode`'s output bytes are not modelled, including its `false` on invalid UTF-8.
- File I/O: `file_put_contents` is modelled as appending to the log sequence. Write failures are not modelled. Neither is PHP 8's ValueError for an empty path, which is what a `checkRequest` that logs before `setLogFilePath` would hit.
- Non-string drivers: PHP's `switch` compares loosely, so `setDBInformation(true, ...)` selects mysql. The model's driver is a string.
- HtmlSpecialChars: its decode round trip is stated for strings of characters, that is, valid UTF-8. PHP 8.1's default `ENT_SUBSTITUTE` replaces invalid UTF-8 with U+FFFD, which the model's strings cannot hold, so the round trip does not carry over to invalid input.
- PCRE details: `preg_match` returns false when it hits the backtracking or recursion limits on long inputs. PHP strings are bytes; the model uses characters with ASCII-only case folding.
- Float field values and integer array keys are not modelled. `json_encode` writes a list instead of an object when the keys are exactly 0 to n-1 in order. Unset PHP fields (`null`) are modelled as the empty string.
- `index.php` apart from its sample `$_GET`: it is a demonstration page that writes HTML.
