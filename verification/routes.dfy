/**
 * The API path templates and `buildUrl`, which fills `:key` placeholders in
 * a template with parameter values, one `String.prototype.replace` with a
 * string pattern per parameter.
 */
module Routes {
  import opened Wrappers

  const TodosPath: string := "/api/todos"
  const TodoItemPath: string := "/api/todos/:id"
  const ReorderPath: string := "/api/todos/reorder"
  const AppStatePath: string := "/api/app-state"
  const ResetPath: string := "/api/app-state/reset"

  /** A parameter value: a string, or an integral number. */
  datatype ParamValue = Text(s: string) | Number(n: int)

  // ---------------------------------------------------------------- decimal strings

  predicate IsDigit(c: char) {
    '0' <= c <= '9'
  }

  predicate AllDigits(s: string) {
    forall i | 0 <= i < |s| :: IsDigit(s[i])
  }

  function DigitChar(d: int): (c: char)
    requires 0 <= d <= 9
    ensures IsDigit(c) && DigitValue(c) == d
  {
    ('0' as int + d) as char
  }

  function DigitValue(c: char): nat
    requires IsDigit(c)
  {
    c as int - '0' as int
  }

  /** The decimal digits of `n`, most significant first, with no leading zero. */
  function NatToDecimal(n: nat): (s: string)
    ensures 1 <= |s| && AllDigits(s)
    ensures s[0] == '0' ==> n == 0
    ensures |s| > 1 ==> s[0] != '0'
  {
    if n < 10 then [DigitChar(n)] else NatToDecimal(n / 10) + [DigitChar(n % 10)]
  }

  /** The value of a string of decimal digits. */
  function DecimalValue(s: string): nat
    requires AllDigits(s)
  {
    if |s| == 0 then 0
    else DecimalValue(s[..|s| - 1]) * 10 + DigitValue(s[|s| - 1])
  }

  /** `String(n)` for an integral number: an optional minus sign, then the decimal digits. */
  function IntToDecimal(n: int): (s: string)
    ensures '$' !in s
  {
    if n < 0 then "-" + NatToDecimal(-n) else NatToDecimal(n)
  }

  /** Reads back an optional minus sign followed by one or more decimal digits. */
  function ParseDecimal(s: string): Option<int> {
    if |s| >= 2 && s[0] == '-' && AllDigits(s[1..]) then
      var v: int := DecimalValue(s[1..]);
      Some(-v)
    else if |s| >= 1 && AllDigits(s) then
      Some(DecimalValue(s))
    else None
  }

  lemma {:induction false} NatDecimalRoundTrip(n: nat)
    ensures DecimalValue(NatToDecimal(n)) == n
  {
    if n >= 10 {
      NatDecimalRoundTrip(n / 10);
      var s := NatToDecimal(n);
      assert s[..|s| - 1] == NatToDecimal(n / 10);
    }
  }

  /** Every integer written in decimal reads back as itself, so a filled-in id survives the trip to the server. */
  lemma DecimalRoundTrip(n: int)
    ensures ParseDecimal(IntToDecimal(n)) == Some(n)
  {
    var s := IntToDecimal(n);
    if n < 0 {
      var digits := NatToDecimal(-n);
      NatDecimalRoundTrip(-n);
      assert s == "-" + digits;
      assert s[0] == '-' && s[1..] == digits;
    } else {
      NatDecimalRoundTrip(n);
      assert s[0] != '-';
    }
  }

  /** `String(value)`. */
  function ValueString(v: ParamValue): string {
    match v
    case Text(s) => s
    case Number(n) => IntToDecimal(n)
  }

  // ---------------------------------------------------------------- string replace

  /** `p` occurs in `s` starting at position `i`. */
  predicate OccursAt(s: string, p: string, i: int) {
    0 <= i && i + |p| <= |s| && s[i..i + |p|] == p
  }

  /** `p` occurs somewhere in `s`. */
  ghost predicate Occurs(s: string, p: string) {
    exists i :: OccursAt(s, p, i)
  }

  /** `i` is where `p` first occurs in `s`. */
  predicate FirstOccursAt(s: string, p: string, i: int) {
    OccursAt(s, p, i) && forall j | 0 <= j < i :: !OccursAt(s, p, j)
  }

  /** The first position at or after `from` where `p` occurs in `s` (`indexOf`). */
  function IndexOfFrom(s: string, p: string, from: nat): (r: Option<nat>)
    ensures r.Some? ==> from <= r.value && OccursAt(s, p, r.value)
    ensures r.Some? ==> forall j | from <= j < r.value :: !OccursAt(s, p, j)
    ensures r.None? ==> forall j | from <= j :: !OccursAt(s, p, j)
    decreases |s| - from
  {
    if from + |p| > |s| then None
    else if s[from..from + |p|] == p then Some(from)
    else IndexOfFrom(s, p, from + 1)
  }

  function IndexOf(s: string, p: string): Option<nat> {
    IndexOfFrom(s, p, 0)
  }

  /**
   * The replacement text for one match (GetSubstitution with no capture
   * groups): `$$` is a dollar sign, `$&` the matched text, `` $` `` the text
   * before the match, `$'` the text after it; any other `$` is literal.
   */
  function Substitute(rep: string, matched: string, before: string, after: string): string
    decreases |rep|
  {
    if |rep| == 0 then ""
    else if rep[0] == '$' && |rep| >= 2 && rep[1] == '$' then "$" + Substitute(rep[2..], matched, before, after)
    else if rep[0] == '$' && |rep| >= 2 && rep[1] == '&' then matched + Substitute(rep[2..], matched, before, after)
    else if rep[0] == '$' && |rep| >= 2 && rep[1] == '`' then before + Substitute(rep[2..], matched, before, after)
    else if rep[0] == '$' && |rep| >= 2 && rep[1] == '\'' then after + Substitute(rep[2..], matched, before, after)
    else [rep[0]] + Substitute(rep[1..], matched, before, after)
  }

  /** A replacement without a dollar sign is inserted verbatim. */
  lemma {:induction false} SubstituteLiteral(rep: string, matched: string, before: string, after: string)
    requires '$' !in rep
    ensures Substitute(rep, matched, before, after) == rep
    decreases |rep|
  {
    if |rep| > 0 {
      assert '$' !in rep[1..];
      SubstituteLiteral(rep[1..], matched, before, after);
    }
  }

  /**
   * `s.replace(p, rep)` with a string pattern: only the first occurrence of
   * `p` is replaced; without one, `s` comes back unchanged.
   */
  function ReplaceFirst(s: string, p: string, rep: string): string {
    match IndexOf(s, p)
    case None => s
    case Some(i) => Splice(s, p, rep, i)
  }

  /** `s` with the occurrence of `p` at `i` replaced by the expansion of `rep`. */
  function Splice(s: string, p: string, rep: string, i: nat): string
    requires i + |p| <= |s|
  {
    s[..i] + Substitute(rep, p, s[..i], s[i + |p|..]) + s[i + |p|..]
  }

  /**
   * Fills the placeholders of `path`, one parameter after another in the
   * order the entries are enumerated; with no parameter object the path is
   * returned as it is.
   */
  function BuildUrl(path: string, params: Option<seq<(string, ParamValue)>>): (url: string)
    ensures params.None? ==> url == path
    ensures params == Some([]) ==> url == path
  {
    match params
    case None => path
    case Some(entries) => Fill(path, entries)
  }

  function Fill(url: string, entries: seq<(string, ParamValue)>): string
    decreases |entries|
  {
    if |entries| == 0 then url
    else
      var (key, value) := entries[0];
      Fill(ReplaceFirst(url, ":" + key, ValueString(value)), entries[1..])
  }

  // ---------------------------------------------------------------- properties

  /** A key whose placeholder does not occur leaves the url as it was. */
  lemma AbsentKeyUnchanged(path: string, key: string, value: ParamValue)
    requires forall j :: !OccursAt(path, ":" + key, j)
    ensures BuildUrl(path, Some([(key, value)])) == path
  {
    assert IndexOfFrom(path, ":" + key, 0).None?;
    assert Fill(path, [(key, value)]) == Fill(path, []);
  }

  /**
   * `replace` in terms of occurrences: with none the string is unchanged;
   * otherwise the occurrence with no earlier one is the one spliced.
   */
  lemma ReplaceFirstReplacesFirstOccurrence(s: string, p: string, rep: string)
    ensures !Occurs(s, p) ==> ReplaceFirst(s, p, rep) == s
    ensures forall i | FirstOccursAt(s, p, i) :: ReplaceFirst(s, p, rep) == Splice(s, p, rep, i)
  {
    match IndexOf(s, p)
    case None =>
    case Some(k) =>
      forall i | FirstOccursAt(s, p, i)
        ensures i == k
      {
      }
  }

  /** Replacing at the position `indexOf` reports. */
  lemma ReplaceAtIndex(s: string, p: string, rep: string, i: nat)
    requires IndexOf(s, p) == Some(i)
    ensures i + |p| <= |s|
    ensures ReplaceFirst(s, p, rep) == s[..i] + Substitute(rep, p, s[..i], s[i + |p|..]) + s[i + |p|..]
  {
  }

  /** The first occurrence is found when nothing before it even starts like the pattern. */
  lemma FirstOccurrence(s: string, p: string, i: nat)
    requires |p| > 0 && OccursAt(s, p, i)
    requires p[0] !in s[..i]
    ensures IndexOf(s, p) == Some(i)
  {
    forall j | 0 <= j < i
      ensures !OccursAt(s, p, j)
    {
      assert s[j] == s[..i][j];
      assert j + |p| <= |s| ==> s[j..j + |p|][0] == s[j];
    }
  }

  /** Replacing the first occurrence keeps every later, non-overlapping occurrence, shifted. */
  lemma ReplaceFirstKeepsLater(s: string, p: string, rep: string, j: int)
    requires IndexOf(s, p).Some?
    requires var i := IndexOf(s, p).value; i + |p| <= j && OccursAt(s, p, j)
    ensures var i := IndexOf(s, p).value;
      OccursAt(ReplaceFirst(s, p, rep), p, j - |p| + |Substitute(rep, p, s[..i], s[i + |p|..])|)
  {
    var i := IndexOf(s, p).value;
    ReplaceAtIndex(s, p, rep, i);
    var sub := Substitute(rep, p, s[..i], s[i + |p|..]);
    var r := ReplaceFirst(s, p, rep);
    assert r == s[..i] + sub + s[i + |p|..];
    var k := j - |p| + |sub|;
    assert r[k..k + |p|] == s[j..j + |p|];
  }

  /** Filling a single parameter is one first-occurrence replace of its placeholder. */
  lemma FillOne(url: string, key: string, value: ParamValue)
    ensures BuildUrl(url, Some([(key, value)])) == ReplaceFirst(url, ":" + key, ValueString(value))
  {
    assert Fill(url, [(key, value)]) == Fill(ReplaceFirst(url, ":" + key, ValueString(value)), []);
  }

  /** A placeholder preceded by text free of its first character is the one replaced. */
  lemma ReplaceInContext(prefix: string, p: string, suffix: string, rep: string)
    requires |p| > 0 && p[0] !in prefix
    ensures ReplaceFirst(prefix + p + suffix, p, rep) == prefix + Substitute(rep, p, prefix, suffix) + suffix
  {
    var s := prefix + p + suffix;
    var i := |prefix|;
    assert s[..i] == prefix;
    assert s[i..i + |p|] == p;
    assert s[i + |p|..] == suffix;
    FirstOccurrence(s, p, i);
    ReplaceAtIndex(s, p, rep, i);
  }

  /** A single value free of dollar signs fills a placeholder preceded by no colon verbatim. */
  lemma FillLiteralInContext(prefix: string, key: string, suffix: string, value: ParamValue)
    requires ':' !in prefix && '$' !in ValueString(value)
    ensures BuildUrl(prefix + ":" + key + suffix, Some([(key, value)])) == prefix + ValueString(value) + suffix
  {
    var p := ":" + key;
    assert prefix + ":" + key + suffix == prefix + p + suffix;
    FillOne(prefix + p + suffix, key, value);
    ReplaceInContext(prefix, p, suffix, ValueString(value));
    SubstituteLiteral(ValueString(value), p, prefix, suffix);
  }

  /** The url of one todo: the template with its id written in decimal. */
  lemma TodoItemUrl(id: int)
    ensures BuildUrl(TodoItemPath, Some([("id", Number(id))])) == "/api/todos/" + IntToDecimal(id)
  {
    assert TodoItemPath == "/api/todos/" + ":" + "id" + "";
    FillLiteralInContext("/api/todos/", "id", "", Number(id));
  }

  /** A placeholder that occurs twice is filled only in its first position. */
  lemma SecondPlaceholderRemains()
    ensures BuildUrl("/a/:id/:id", Some([("id", Number(7))])) == "/a/7/:id"
  {
    assert "/a/:id/:id" == "/a/" + ":" + "id" + "/:id";
    assert ValueString(Number(7)) == "7";
    FillLiteralInContext("/a/", "id", "/:id", Number(7));
    assert "/a/" + "7" + "/:id" == "/a/7/:id";
  }

  /** A value holding `$&` puts the matched placeholder itself back. */
  lemma DollarAmpersandKeepsPlaceholder()
    ensures BuildUrl(TodoItemPath, Some([("id", Text("$&"))])) == TodoItemPath
  {
    FillOne(TodoItemPath, "id", Text("$&"));
    assert ":" + "id" == ":id";
    assert TodoItemPath == "/api/todos/" + ":id" + "";
    ReplaceInContext("/api/todos/", ":id", "", "$&");
    assert Substitute("$&", ":id", "/api/todos/", "") == ":id";
  }
}
