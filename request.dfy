/**
 * A request as PHPAmor::checkRequest receives it (`$_GET`, `$_POST`): an
 * ordered list of named fields, what isXSS decides about it, and the
 * HTML-escaped rendering of it that is logged.
 */
module Request {
  import opened Wrappers
  import opened XssPatterns
  import opened HtmlEscape

  /** The PHP values a request field can hold. */
  datatype FieldValue =
    | Str(s: string)
    | Int(i: int)
    | Bool(b: bool)
    | Null
    | Nested(items: seq<(string, FieldValue)>)

  /** A PHP array with string keys, in insertion order. */
  type Fields = seq<(string, FieldValue)>

  /** What `htmlspecialchars` throws when array_map hands it an array. */
  const TYPE_ERROR := "htmlspecialchars(): Argument #1 ($string) must be of type string, array given"

  /**
   * `htmlspecialchars(v)` called by array_map: scalars are converted to
   * strings (integers to decimal, true to "1", false and null to "") and
   * escaped; an array is a TypeError.
   */
  function HtmlSpecialChars(v: FieldValue): (r: Result<string>)
    ensures r.Err? <==> v.Nested?
    ensures r.Ok? ==> '<' !in r.value && '>' !in r.value
    ensures v.Str? ==> r.Ok? && Unescape(r.value) == v.s
  {
    match v
    case Str(s) => UnescapeEscape(s); Ok(Escape(s))
    case Int(i) => Ok(Escape(IntText(i)))
    case Bool(b) => Ok(if b then "1" else "")
    case Null => Ok("")
    case Nested(_) => Err(TYPE_ERROR)
  }

  /**
   * `array_map('htmlspecialchars', $array)` as array_to_htmlentities uses
   * it: the same keys in the same order, every value escaped; the first
   * array-valued field throws.
   */
  function ArrayToHtmlEntities(fields: Fields): (r: Result<seq<(string, string)>>)
    ensures r.Err? <==> exists m :: 0 <= m < |fields| && fields[m].1.Nested?
    ensures r.Err? ==> r.error == TYPE_ERROR
    ensures r.Ok? ==> |r.value| == |fields|
    ensures r.Ok? ==> forall m :: 0 <= m < |fields| ==>
      && r.value[m].0 == fields[m].0
      && '<' !in r.value[m].1 && '>' !in r.value[m].1
      && (fields[m].1.Str? ==> Unescape(r.value[m].1) == fields[m].1.s)
  {
    if fields == [] then Ok([])
    else
      var head := HtmlSpecialChars(fields[0].1);
      var tail := ArrayToHtmlEntities(fields[1..]);
      if head.Err? then Err(head.error)
      else if tail.Err? then
        assert exists m :: 0 <= m < |fields[1..]| && fields[1..][m].1.Nested?;
        Err(tail.error)
      else Ok([(fields[0].0, head.value)] + tail.value)
  }

  /** isXSS tests a field only when its value is a string, against every pattern. */
  predicate Flagged(v: FieldValue)
  {
    v.Str? && MatchesAny(v.s)
  }

  /** What isXSS decides: some field is flagged. */
  predicate Detects(fields: Fields)
  {
    exists m :: 0 <= m < |fields| && Flagged(fields[m].1)
  }

  /**
   * The verdict over a whole request reduces to pattern 2 alone: a request is
   * flagged exactly when one of its string values contains a script block.
   */
  lemma DetectsIffScriptBlock(fields: Fields)
    ensures Detects(fields) <==>
      exists m :: 0 <= m < |fields| && fields[m].1.Str? && Matches(SCRIPT_BLOCK, fields[m].1.s)
  {
    forall m | 0 <= m < |fields| && fields[m].1.Str? {
      MatchesAnyIffScriptBlock(fields[m].1.s);
    }
  }

  /** The order of the fields does not change the verdict; the early return only saves work. */
  lemma DetectsIgnoresOrder(fields: Fields, other: Fields)
    requires multiset(fields) == multiset(other)
    ensures Detects(fields) == Detects(other)
  {
    if Detects(fields) {
      var m :| 0 <= m < |fields| && Flagged(fields[m].1);
      assert fields[m] in multiset(other);
      var n :| 0 <= n < |other| && other[n] == fields[m];
    }
    if Detects(other) {
      var n :| 0 <= n < |other| && Flagged(other[n].1);
      assert other[n] in multiset(fields);
      var m :| 0 <= m < |fields| && fields[m] == other[n];
    }
  }

  /**
   * A request none of whose string values contains `<` is never flagged;
   * in particular one without string values, whatever else it carries.
   */
  lemma NoAngleNoThreat(fields: Fields)
    requires forall m :: 0 <= m < |fields| && fields[m].1.Str? ==> '<' !in fields[m].1.s
    ensures !Detects(fields)
  {
    if Detects(fields) {
      var m :| 0 <= m < |fields| && Flagged(fields[m].1);
      MatchesAnyIffScriptBlock(fields[m].1.s);
      ScriptBlockNeedsAngle(fields[m].1.s);
    }
  }

  /**
   * A string value holding `<script>` in any letter case followed later by
   * `</script>` gets its request flagged.
   */
  lemma ScriptTagsFlagged(fields: Fields, m: nat, i: nat, j: nat)
    requires m < |fields| && fields[m].1.Str?
    requires i + 8 <= j && j + 9 <= |fields[m].1.s|
    requires FoldEq(fields[m].1.s[i..i + 8], "<script>") && FoldEq(fields[m].1.s[j..j + 9], "</script>")
    ensures Detects(fields)
  {
    ScriptTagsMatch(fields[m].1.s, i, j);
    assert Matches(PATTERNS[0], fields[m].1.s);
  }

  /** The simulated `$_GET` of the demonstration page. */
  const DEMO_GET: Fields := [
    ("username", Str("john_doe")),
    ("search", Str("<script>alert(\"XSS\");</script>")),
    ("page", Int(1))
  ]

  /**
   * The demonstration `$_GET` is flagged because of `search`; `username` and
   * the integer `page` would pass on their own.
   */
  lemma DemoGetFlagged()
    ensures Detects(DEMO_GET)
    ensures !Detects([DEMO_GET[0], DEMO_GET[2]])
  {
    var s := DEMO_GET[1].1.s;
    assert |s| == 30;
    assert FoldEq(s[0..8], "<script>");
    assert FoldEq(s[21..30], "</script>");
    ScriptTagsFlagged(DEMO_GET, 1, 0, 21);
    NoAngleNoThreat([DEMO_GET[0], DEMO_GET[2]]);
  }
}
