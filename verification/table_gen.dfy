/**
 * The table package: the struct tags GenerateCode writes into a table's
 * fields, and the name filters that decide which tables get a file.
 */
module TableGen {
  import opened GoStrings
  import opened Config

  datatype Field = Field(
    IsPK: bool,
    Name: string,
    UpperCamelCaseName: string,
    Type: string,
    Comment: string,
    DefaultValue: string,
    Tag: string
  )

  /** A snapshot of a Table's fields. */
  datatype TableValue = TableValue(
    Package: string,
    Name: string,
    UpperCamelCaseName: string,
    UpperCamelCaseNameParam: string,
    Comment: string,
    Fields: seq<Field>,
    ContainsTimeField: bool,
    ContainsNullTimeField: bool
  )

  // ---------------------------------------------------------------------
  // Struct tags
  // ---------------------------------------------------------------------

  /** The column key and name, without the closing quote. */
  function TagBase(cnf: Settings, f: Field): string
  {
    "`" + cnf.DBTag + ":\"" + f.Name
  }

  function PrimaryKeyOption(f: Field): string
  {
    if f.IsPK then ";primary_key" else ""
  }

  function DefaultOption(f: Field): string
  {
    if f.DefaultValue != "" then ";default:" + f.DefaultValue else ""
  }

  function JsonOption(cnf: Settings, f: Field): string
  {
    if cnf.WithJsonTag then " json:\"" + f.Name + "\"" else ""
  }

  /**
   * The quoted column value in closed form: the options sit inside one pair
   * of quotes. Adding an option first trims every quote at the end of what
   * precedes it, so a column name ending in quotes loses them.
   */
  function DbPart(cnf: Settings, f: Field): string
  {
    if !f.IsPK && f.DefaultValue == "" then TagBase(cnf, f) + "\""
    else TrimRight(TagBase(cnf, f), "\"") + PrimaryKeyOption(f) + DefaultOption(f) + "\""
  }

  /** The tag in closed form: the column value, the json key if enabled, in backticks. */
  function RefTag(cnf: Settings, f: Field): string
  {
    DbPart(cnf, f) + JsonOption(cnf, f) + "`"
  }

  /** Appending a quote and trimming quotes is trimming quotes. */
  lemma TrimRightQuoteAppend(x: string)
    ensures TrimRight(x + "\"", "\"") == TrimRight(x, "\"")
  {
    var s := x + "\"";
    assert s[|s| - 1] in "\"";
    assert s[..|s| - 1] == x;
  }

  /** The column value in each of its four shapes, grouped as the tag is built. */
  lemma DbPartShapes(cnf: Settings, f: Field)
    ensures var b := TagBase(cnf, f);
            && (!f.IsPK && f.DefaultValue == "" ==> DbPart(cnf, f) == b + "\"")
            && (f.IsPK && f.DefaultValue == "" ==> DbPart(cnf, f) == TrimRight(b, "\"") + ";primary_key\"")
            && (!f.IsPK && f.DefaultValue != "" ==>
                  DbPart(cnf, f) == TrimRight(b, "\"") + ";default:" + f.DefaultValue + "\"")
            && (f.IsPK && f.DefaultValue != "" ==>
                  DbPart(cnf, f) == TrimRight(b, "\"") + ";primary_key" + ";default:" + f.DefaultValue + "\"")
  {
    var tr := TrimRight(TagBase(cnf, f), "\"");
    if f.IsPK && f.DefaultValue == "" {
      assert tr + ";primary_key" + "" + "\"" == tr + ";primary_key\"";
    } else if !f.IsPK && f.DefaultValue != "" {
      assert tr + "" + (";default:" + f.DefaultValue) + "\"" == tr + ";default:" + f.DefaultValue + "\"";
    } else if f.IsPK {
      assert tr + ";primary_key" + (";default:" + f.DefaultValue) + "\"" ==
             tr + ";primary_key" + ";default:" + f.DefaultValue + "\"";
    }
  }

  /** The tag for one field, built by successive reassignments of `tag`. */
  method BuildTag(cnf: Settings, field: Field) returns (tag: string)
    ensures tag == RefTag(cnf, field)
  {
    ghost var base := TagBase(cnf, field);
    ghost var trimmed := TrimRight(base, "\"");
    tag := "`" + cnf.DBTag + ":\"" + field.Name + "\"";
    if field.IsPK {
      assert TrimRight(tag, "\"") == trimmed by {
        TrimRightQuoteAppend(base);
      }
      tag := TrimRight(tag, "\"") + ";primary_key\"";
    }
    if field.DefaultValue != "" {
      ghost var pre := if field.IsPK then trimmed + ";primary_key" else trimmed;
      assert TrimRight(tag, "\"") == pre by {
        if field.IsPK {
          assert tag == pre + "\"";
          TrimRightOneQuote(pre);
        } else {
          TrimRightQuoteAppend(base);
        }
      }
      tag := TrimRight(tag, "\"") + ";default:" + field.DefaultValue + "\"";
    }
    ghost var db := tag;
    assert db == DbPart(cnf, field) by {
      DbPartShapes(cnf, field);
    }
    if cnf.WithJsonTag {
      tag := tag + (" json:\"" + field.Name + "\"");
    }
    tag := tag + "`";
  }

  /** A plain field's tag is the quoted column name. */
  lemma PlainTag(cnf: Settings, f: Field)
    requires !f.IsPK && f.DefaultValue == "" && !cnf.WithJsonTag
    ensures RefTag(cnf, f) == "`" + cnf.DBTag + ":\"" + f.Name + "\"`"
  {
  }

  /**
   * With a column name that does not end in a quote, the options sit inside
   * the one quoted value: `db:"name;primary_key;default:v"`.
   */
  lemma TagWithOptions(cnf: Settings, f: Field)
    requires |f.Name| > 0 && f.Name[|f.Name| - 1] != '"'
    ensures RefTag(cnf, f) ==
            "`" + cnf.DBTag + ":\"" + f.Name + PrimaryKeyOption(f) + DefaultOption(f) + "\"" + JsonOption(cnf, f) + "`"
  {
    var b := TagBase(cnf, f);
    assert b[|b| - 1] == f.Name[|f.Name| - 1];
  }

  /** Every tag starts with the key and a colon and ends with a backtick. */
  lemma TagFrame(cnf: Settings, f: Field)
    ensures "`" + cnf.DBTag + ":" <= RefTag(cnf, f)
    ensures |RefTag(cnf, f)| >= 2 && RefTag(cnf, f)[|RefTag(cnf, f)| - 1] == '`'
  {
    var p := "`" + cnf.DBTag + ":";
    var b := TagBase(cnf, f);
    var db := DbPart(cnf, f);
    assert p <= b;
    assert p <= db by {
      if f.IsPK || f.DefaultValue != "" {
        TrimRightKeeps(b, "\"", p);
        var tr := TrimRight(b, "\"");
        assert db == tr + (PrimaryKeyOption(f) + DefaultOption(f) + "\"");
      }
    }
    assert RefTag(cnf, f) == db + (JsonOption(cnf, f) + "`");
  }

  /** Turning WithJsonTag on inserts exactly the json key before the closing backtick. */
  lemma JsonTagToggle(cnf: Settings, f: Field)
    ensures var off := RefTag(cnf.(WithJsonTag := false), f);
            RefTag(cnf.(WithJsonTag := true), f) == off[..|off| - 1] + " json:\"" + f.Name + "\"" + "`"
  {
    var db := DbPart(cnf, f);
    assert DbPart(cnf.(WithJsonTag := false), f) == db == DbPart(cnf.(WithJsonTag := true), f);
    var off := RefTag(cnf.(WithJsonTag := false), f);
    assert off == db + "`";
    assert off[..|off| - 1] == db;
  }

  /** The fields with their tags filled in; nothing else about them changes. */
  function Tagged(cnf: Settings, fields: seq<Field>): (r: seq<Field>)
    ensures |r| == |fields|
    ensures forall i :: 0 <= i < |r| ==> r[i].(Tag := fields[i].Tag) == fields[i]
    ensures forall i :: 0 <= i < |r| ==> r[i].Tag == RefTag(cnf, fields[i])
  {
    seq(|fields|, i requires 0 <= i < |fields| => fields[i].(Tag := RefTag(cnf, fields[i])))
  }

  /** A tag never depends on the previous tag, so tagging twice is tagging once. */
  lemma TaggedIdempotent(cnf: Settings, fields: seq<Field>)
    ensures Tagged(cnf, Tagged(cnf, fields)) == Tagged(cnf, fields)
  {
    var once := Tagged(cnf, fields);
    forall i | 0 <= i < |fields| ensures RefTag(cnf, once[i]) == RefTag(cnf, fields[i]) {
      assert once[i].(Tag := fields[i].Tag) == fields[i];
    }
  }

  class Table {
    var Package: string
    var Name: string
    var UpperCamelCaseName: string
    var UpperCamelCaseNameParam: string
    var Comment: string
    var Fields: seq<Field>
    var ContainsTimeField: bool
    var ContainsNullTimeField: bool

    constructor (v: TableValue)
      ensures State() == v
    {
      Package, Name, UpperCamelCaseName := v.Package, v.Name, v.UpperCamelCaseName;
      UpperCamelCaseNameParam, Comment, Fields := v.UpperCamelCaseNameParam, v.Comment, v.Fields;
      ContainsTimeField, ContainsNullTimeField := v.ContainsTimeField, v.ContainsNullTimeField;
    }

    function State(): TableValue
      reads this
    {
      TableValue(Package, Name, UpperCamelCaseName, UpperCamelCaseNameParam, Comment,
                 Fields, ContainsTimeField, ContainsNullTimeField)
    }

    /**
     * Writes every field's tag in place, then renders the table; `render`
     * stands for executing the template and fixing initialisms.
     */
    method GenerateCode(cnf: Settings, render: TableValue -> string) returns (code: string)
      modifies this`Fields
      ensures Fields == Tagged(cnf, old(Fields))
      ensures code == render(State())
    {
      var i := 0;
      while i < |Fields|
        invariant 0 <= i <= |Fields| == |old(Fields)|
        invariant forall k :: 0 <= k < i ==> Fields[k] == old(Fields[k]).(Tag := RefTag(cnf, old(Fields[k])))
        invariant forall k :: i <= k < |Fields| ==> Fields[k] == old(Fields[k])
      {
        var tag := BuildTag(cnf, Fields[i]);
        Fields := Fields[i := Fields[i].(Tag := tag)];
        i := i + 1;
      }
      code := render(State());
    }
  }

  // ---------------------------------------------------------------------
  // Table-name filters
  // ---------------------------------------------------------------------

  /** The positions of the patterns that match `t`. */
  function MatchingPatterns(t: string, regexs: seq<string>, isMatch: (string, string) -> bool): set<int>
  {
    set j | 0 <= j < |regexs| && isMatch(regexs[j], t)
  }

  /** The matching positions of one more pattern: the earlier ones, and the new one if it matches. */
  lemma MatchingPatternsSnoc(t: string, regexs: seq<string>, isMatch: (string, string) -> bool)
    requires |regexs| > 0
    ensures var n := |regexs| - 1;
            var init := MatchingPatterns(t, regexs[..n], isMatch);
            && n !in init
            && MatchingPatterns(t, regexs, isMatch) == init + (if isMatch(regexs[n], t) then {n} else {})
  {
    var n := |regexs| - 1;
    assert forall j :: 0 <= j < n ==> regexs[..n][j] == regexs[j];
  }

  /** One copy of `t` for each pattern, in order, that matches it. */
  function Copies(t: string, regexs: seq<string>, isMatch: (string, string) -> bool): (r: seq<string>)
    ensures |r| == |MatchingPatterns(t, regexs, isMatch)| <= |regexs|
    ensures forall k :: 0 <= k < |r| ==> r[k] == t
    decreases |regexs|
  {
    if |regexs| == 0 then []
    else
      var n := |regexs| - 1;
      MatchingPatternsSnoc(t, regexs, isMatch);
      Copies(t, regexs[..n], isMatch) + (if isMatch(regexs[n], t) then [t] else [])
  }

  /** Some pattern matches `t`. */
  predicate AnyMatch(regexs: seq<string>, t: string, isMatch: (string, string) -> bool)
  {
    exists i :: 0 <= i < |regexs| && isMatch(regexs[i], t)
  }

  /** A table gets copies exactly when some pattern matches it. */
  lemma {:induction false} CopiesIffMatch(t: string, regexs: seq<string>, isMatch: (string, string) -> bool)
    ensures |Copies(t, regexs, isMatch)| > 0 <==> AnyMatch(regexs, t, isMatch)
    decreases |regexs|
  {
    if |regexs| > 0 {
      var n := |regexs| - 1;
      CopiesIffMatch(t, regexs[..n], isMatch);
      if AnyMatch(regexs, t, isMatch) && !isMatch(regexs[n], t) {
        var i :| 0 <= i < |regexs| && isMatch(regexs[i], t);
        assert regexs[..n][i] == regexs[i];
      }
      if AnyMatch(regexs[..n], t, isMatch) {
        var i :| 0 <= i < n && isMatch(regexs[..n][i], t);
        assert isMatch(regexs[i], t);
      }
    }
  }

  /** The nested loop's output: for each table in order, its copies. */
  function Filtered(tables: seq<string>, regexs: seq<string>, isMatch: (string, string) -> bool): seq<string>
    decreases |tables|
  {
    if |tables| == 0 then []
    else
      var n := |tables| - 1;
      Filtered(tables[..n], regexs, isMatch) + Copies(tables[n], regexs, isMatch)
  }

  /** What FilterTables returns. */
  function FilterSpec(tables: seq<string>, cnf: Settings, isMatch: (string, string) -> bool): seq<string>
  {
    if |cnf.TableRegexs| == 0 then tables else Filtered(tables, cnf.TableRegexs, isMatch)
  }

  /** What NameIsMatch answers. */
  predicate NameMatches(t: string, cnf: Settings, isMatch: (string, string) -> bool)
  {
    |cnf.TableRegexs| == 0 || AnyMatch(cnf.TableRegexs, t, isMatch)
  }

  /**
   * Keeps each table once for every pattern that matches it, in input
   * order; with no patterns the input comes back unchanged.
   */
  method FilterTables(tables: seq<string>, cnf: Settings, isMatch: (string, string) -> bool) returns (res: seq<string>)
    ensures |cnf.TableRegexs| == 0 ==> res == tables
    ensures res == FilterSpec(tables, cnf, isMatch)
  {
    if |cnf.TableRegexs| == 0 {
      return tables;
    }
    var regexs := cnf.TableRegexs;
    res := [];
    for i := 0 to |tables|
      invariant res == Filtered(tables[..i], regexs, isMatch)
    {
      var table := tables[i];
      assert tables[..i + 1][..i] == tables[..i];
      for j := 0 to |regexs|
        invariant res == Filtered(tables[..i], regexs, isMatch) + Copies(table, regexs[..j], isMatch)
      {
        assert regexs[..j + 1][..j] == regexs[..j];
        if isMatch(regexs[j], table) {
          res := res + [table];
        }
      }
      assert regexs[..|regexs|] == regexs;
    }
    assert tables[..|tables|] == tables;
  }

  /** Answers whether the name passes the filter, stopping at the first matching pattern. */
  method NameIsMatch(table: string, cnf: Settings, isMatch: (string, string) -> bool) returns (b: bool)
    ensures b <==> NameMatches(table, cnf, isMatch)
  {
    if |cnf.TableRegexs| == 0 {
      return true;
    }
    for j := 0 to |cnf.TableRegexs|
      invariant forall k :: 0 <= k < j ==> !isMatch(cnf.TableRegexs[k], table)
    {
      if isMatch(cnf.TableRegexs[j], table) {
        return true;
      }
    }
    return false;
  }

  /** Filtering a concatenation filters each part: the input order is kept. */
  lemma {:induction false} FilteredAppend(a: seq<string>, b: seq<string>, regexs: seq<string>, isMatch: (string, string) -> bool)
    ensures Filtered(a + b, regexs, isMatch) == Filtered(a, regexs, isMatch) + Filtered(b, regexs, isMatch)
    decreases |b|
  {
    if |b| > 0 {
      var n := |b| - 1;
      assert (a + b)[..|a| + n] == a + b[..n];
      assert (a + b)[|a| + n] == b[n];
      FilteredAppend(a, b[..n], regexs, isMatch);
    } else {
      assert a + b == a;
    }
  }

  /** Each table occurs once per occurrence in the input and matching pattern. */
  lemma FilteredCount(tables: seq<string>, regexs: seq<string>, isMatch: (string, string) -> bool, x: string)
    ensures multiset(Filtered(tables, regexs, isMatch))[x] == multiset(tables)[x] * |MatchingPatterns(x, regexs, isMatch)|
  {
    FilteredCopyCount(tables, regexs, isMatch, x);
    assert |Copies(x, regexs, isMatch)| == |MatchingPatterns(x, regexs, isMatch)|;
  }

  /** The same count, with the copies the inner loop makes of `x`. */
  lemma {:induction false} FilteredCopyCount(tables: seq<string>, regexs: seq<string>, isMatch: (string, string) -> bool, x: string)
    ensures multiset(Filtered(tables, regexs, isMatch))[x] == multiset(tables)[x] * |Copies(x, regexs, isMatch)|
    decreases |tables|
  {
    if |tables| > 0 {
      FilteredCopyCount(tables[..|tables| - 1], regexs, isMatch, x);
      FilteredCountStep(tables, regexs, isMatch, x);
    }
  }

  /** The count grows by the last table's copies. */
  lemma FilteredCountStep(tables: seq<string>, regexs: seq<string>, isMatch: (string, string) -> bool, x: string)
    requires |tables| > 0
    requires var init := tables[..|tables| - 1];
             multiset(Filtered(init, regexs, isMatch))[x] == multiset(init)[x] * |Copies(x, regexs, isMatch)|
    ensures multiset(Filtered(tables, regexs, isMatch))[x] == multiset(tables)[x] * |Copies(x, regexs, isMatch)|
  {
    var n := |tables| - 1;
    var t := tables[n];
    FilteredSnoc(tables, regexs, isMatch);
    SnocMultiset(tables);
    CopiesCount(t, regexs, isMatch, x);
    CountArith(multiset(Filtered(tables, regexs, isMatch))[x], multiset(Filtered(tables[..n], regexs, isMatch))[x],
               multiset(Copies(t, regexs, isMatch))[x], multiset(tables)[x], multiset(tables[..n])[x],
               |Copies(x, regexs, isMatch)|, x == t);
  }

  lemma FilteredSnoc(tables: seq<string>, regexs: seq<string>, isMatch: (string, string) -> bool)
    requires |tables| > 0
    ensures var n := |tables| - 1;
            multiset(Filtered(tables, regexs, isMatch)) ==
            multiset(Filtered(tables[..n], regexs, isMatch)) + multiset(Copies(tables[n], regexs, isMatch))
  {
  }

  lemma SnocMultiset(s: seq<string>)
    requires |s| > 0
    ensures multiset(s) == multiset(s[..|s| - 1]) + multiset{s[|s| - 1]}
  {
    assert s == s[..|s| - 1] + [s[|s| - 1]];
  }

  /** The arithmetic of one step: the last table adds its copies to the count. */
  lemma CountArith(f: nat, fInit: nat, fLast: nat, total: nat, a: nat, k: nat, hit: bool)
    requires f == fInit + fLast
    requires fInit == a * k
    requires fLast == if hit then k else 0
    requires total == a + if hit then 1 else 0
    ensures f == total * k
  {
    if hit {
      assert total * k == a * k + k;
    }
  }

  /** The copies of `t` hold `x` as often as there are copies when `x` is `t`, and never otherwise. */
  lemma CopiesCount(t: string, regexs: seq<string>, isMatch: (string, string) -> bool, x: string)
    ensures multiset(Copies(t, regexs, isMatch))[x] == if x == t then |Copies(t, regexs, isMatch)| else 0
  {
    var c := Copies(t, regexs, isMatch);
    if x != t {
      assert x !in c;
    } else {
      assert c == seq(|c|, _ => t);
      ConstantCount(|c|, t);
    }
  }

  lemma {:induction false} ConstantCount(n: nat, t: string)
    ensures multiset(seq(n, _ => t))[t] == n
  {
    if n > 0 {
      assert seq(n, _ => t) == seq(n - 1, _ => t) + [t];
      ConstantCount(n - 1, t);
    }
  }

  /** A name survives the nested loop exactly when it is in the input and some pattern matches it. */
  lemma {:induction false} FilteredMembers(tables: seq<string>, regexs: seq<string>, isMatch: (string, string) -> bool, x: string)
    ensures x in Filtered(tables, regexs, isMatch) <==> x in tables && AnyMatch(regexs, x, isMatch)
    decreases |tables|
  {
    if |tables| > 0 {
      var n := |tables| - 1;
      var t := tables[n];
      FilteredMembers(tables[..n], regexs, isMatch, x);
      CopiesIffMatch(t, regexs, isMatch);
      assert tables == tables[..n] + [t];
      var c := Copies(t, regexs, isMatch);
      assert x in c <==> x == t && |c| > 0 by {
        if |c| > 0 && x == t {
          assert c[0] == x;
        }
      }
    }
  }

  /**
   * A name is in the filtered list exactly when it is in the input and
   * passes NameIsMatch: the two filters agree.
   */
  lemma FilterAgreesWithNameIsMatch(tables: seq<string>, cnf: Settings, isMatch: (string, string) -> bool, x: string)
    ensures x in FilterSpec(tables, cnf, isMatch) <==> x in tables && NameMatches(x, cnf, isMatch)
  {
    if |cnf.TableRegexs| > 0 {
      FilteredMembers(tables, cnf.TableRegexs, isMatch, x);
    }
  }
}
