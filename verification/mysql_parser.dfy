/**
 * The MySQL pipeline of sql2struct (package mysqlparser): the fixed
 * column-type table, the line-oriented parser of `SHOW CREATE TABLE`
 * output, and the tag construction and placeholder inlining that run
 * before the template is rendered.
 *
 * Go panics (an index out of range) are reported as a `ParseError`
 * carrying the 0-based line number and the failing step.
 * `utils.Underline2UpperCamelCase` is passed in as `camel`.
 */
module MysqlParser {
  import opened Wrappers
  import opened GoStrings
  import opened Config

  /** The lines of the struct template, before the template engine runs. */
  const TmplLines: seq<string> := [
    "// Code generated by sql2struct. https://github.com/gangming/sql2struct",
    "package {{.Package}}",
    "",
    "{{if .ContainsTimeField}}import \"time\" {{end}}",
    "",
    "//{{ .UpperCamelCaseName}} {{.Table.Comment}}",
    "type {{ .UpperCamelCaseName}} struct {",
    "{{range .Fields}} {{.UpperCamelCaseName}}  {{.Type}} {{.Tag}} {{if .Comment}} // {{.Comment}} {{end}}",
    "{{end}}}",
    "",
    "// TableName the name of table in database",
    "func (t *{{.UpperCamelCaseName}}) TableName() string {",
    "    return \"{{.Table.Name}}\"",
    "}",
    ""
  ]

  /** The template text the generator fills in; it ends with a newline. */
  const Tmpl: string := Join(TmplLines, "\n")

  const PackagePlaceholder: string := "{{.Package}}"
  const TableNamePlaceholder: string := "{{.Table.Name}}"
  const TableCommentPlaceholder: string := "{{.Table.Comment}}"

  /** MySQL column type to Go type. */
  const MysqlType2GoType: map<string, string> := map[
    "int" := "int64",
    "tinyint" := "uint8",
    "bigint" := "int64",
    "varchar" := "string",
    "char" := "string",
    "text" := "string",
    "date" := "time.Time",
    "time" := "time.Time",
    "datetime" := "time.Time",
    "timestamp" := "time.Time",
    "json" := "string"
  ]

  /** The MySQL types that map to `time.Time`. */
  const TimeTypes: set<string> := {"date", "time", "datetime", "timestamp"}

  /** Indexing the Go map: a type missing from the table yields the zero value "". */
  function GoType(tok: string): (t: string)
    ensures t == "" <==> tok !in MysqlType2GoType
    ensures t == "time.Time" <==> tok in TimeTypes
  {
    if tok in MysqlType2GoType then MysqlType2GoType[tok] else ""
  }

  /** None of the other Go types mentions "time". */
  lemma NoTimeIn(v: string)
    requires v in {"int64", "uint8", "string", ""}
    ensures !Contains(v, "time")
  {
    forall j ensures !OccursAt(v, "time", j) {
      if 0 <= j && j + 4 <= |v| {
        if v == "int64" {
          assert v[0] == 'i' && v[1] == 'n' && v[2] == 't' && v[3] == '6' && v[4] == '4';
        } else if v == "uint8" {
          assert v[0] == 'u' && v[1] == 'i' && v[2] == 'n' && v[3] == 't' && v[4] == '8';
        } else {
          assert v[0] == 's' && v[1] == 't' && v[2] == 'r' && v[3] == 'i' && v[4] == 'n' && v[5] == 'g';
        }
        assert v[j..j + 4][0] == v[j];
        assert v[j..j + 4][1] == v[j + 1];
      }
    }
  }

  /**
   * The generator's test `strings.Contains(type, "time")` singles out
   * exactly the types mapped to time.Time.
   */
  lemma TimeTypeIff(tok: string)
    ensures Contains(GoType(tok), "time") <==> tok in TimeTypes
  {
    var t := GoType(tok);
    if tok in TimeTypes {
      assert t == "time.Time";
      ContainsInfix("", "time", ".Time");
      assert "" + "time" + ".Time" == t;
    } else {
      assert t in {"int64", "uint8", "string", ""};
      NoTimeIn(t);
    }
  }

  /** The characters `strings.TrimRightFunc` strips from a type token. */
  predicate NotLowerLetter(c: char)
  {
    c < 'a' || c > 'z'
  }

  /** The bare type name of a column's type word: `int(11)` gives `int`. */
  function TypeName(word: string): (tok: string)
    ensures |tok| <= |word| && tok == word[..|tok|]
    ensures |tok| == 0 || 'a' <= tok[|tok| - 1] <= 'z'
    ensures forall k :: |tok| <= k < |word| ==> NotLowerLetter(word[k])
  {
    TrimRightFuncPrefix(word, NotLowerLetter);
    TrimRightFunc(word, NotLowerLetter)
  }

  /** A display width in parentheses is cut off before the lookup. */
  lemma TypeNameOfInt()
    ensures GoType(TypeName("int(11)")) == "int64"
  {
    var w := "int(11)";
    TrimRightFuncPrefix(w, NotLowerLetter);
    assert w[2] == 't' && w[3] == '(' && w[4] == '1' && w[5] == '1' && w[6] == ')';
    assert |TypeName(w)| == 3 && w[..3] == "int";
  }

  /** A length in parentheses is cut off before the lookup. */
  lemma TypeNameOfVarchar()
    ensures GoType(TypeName("varchar(255)")) == "string"
  {
    var w := "varchar(255)";
    TrimRightFuncPrefix(w, NotLowerLetter);
    assert w[6] == 'r' && w[7] == '(' && w[8] == '2' && w[9] == '5' && w[10] == '5' && w[11] == ')';
    assert |TypeName(w)| == 7 && w[..7] == "varchar";
  }

  /** A type missing from the table, here decimal, maps to the empty Go type. */
  lemma TypeNameOfDecimal()
    ensures GoType(TypeName("decimal(10,2)")) == ""
  {
    var w := "decimal(10,2)";
    TrimRightFuncPrefix(w, NotLowerLetter);
    assert w[6] == 'l' && w[7] == '(' && w[8] == '1' && w[9] == '0' && w[10] == ',' && w[11] == '2' && w[12] == ')';
    assert |TypeName(w)| == 7 && w[..7] == "decimal";
  }

  datatype Field = Field(
    IsPK: bool,
    Name: string,
    UpperCamelCaseName: string,
    Type: string,
    Comment: string,
    DefaultValue: string,
    Tag: string
  )

  const EmptyField: Field := Field(false, "", "", "", "", "", "")

  /** The value of a Table: what the parser builds. */
  datatype TableState = TableState(
    Name: string,
    UpperCamelCaseName: string,
    Comment: string,
    Fields: seq<Field>,
    ContainsTimeField: bool
  )

  const EmptyTable: TableState := TableState("", "", "", [], false)

  /** The index expression at which the Go parser goes out of range. */
  datatype ErrorKind =
    | MissingBacktick        // a CREATE TABLE line without "`"
    | MissingTableComment    // an ENGINE ... COMMENT= line without "COMMENT='"
    | EmptyLine              // line[0] on a blank line
    | MissingTypeToken       // a column line without " "
    | MissingColumnComment   // a column line with COMMENT but without "COMMENT '"
    | MissingDefault         // a column line with "DEFAULT'" but without "DEFAULT "

  datatype ParseError = ParseError(lineIndex: nat, kind: ErrorKind)

  // ---------------------------------------------------------------------
  // Specification of the parser, one line at a time.
  // ---------------------------------------------------------------------

  /** The text between the first two backticks of a line. */
  function QuotedName(line: string): string
    requires Contains(line, "`")
  {
    Before(After(line, "`"), "`")
  }

  /** The table comment of an ENGINE line: what follows `COMMENT='`, without quotes. */
  function TableComment(line: string): string
    requires Contains(line, "COMMENT='")
  {
    Trim(Before(After(line, "COMMENT='"), "COMMENT='"), "'")
  }

  /** The index expression a column line makes go out of range, if any. */
  function ColumnFault(line: string): Option<ErrorKind>
  {
    if !Contains(line, " ") then Some(MissingTypeToken)
    else if Contains(line, "COMMENT") && !Contains(line, "COMMENT '") then Some(MissingColumnComment)
    else if Contains(line, "DEFAULT'") && !Contains(line, "DEFAULT ") then Some(MissingDefault)
    else None
  }

  /** The field a trimmed column line describes, or the step at which it fails. */
  function ParseColumn(line: string, camel: string -> string): (r: Result<Field, ErrorKind>)
    requires |line| > 0 && line[0] == '`'
    ensures r.Err? <==> ColumnFault(line).Some?
    ensures r.Err? ==> ColumnFault(line) == Some(r.error)
    ensures r.Ok? ==> r.value.Tag == "" && r.value.UpperCamelCaseName == camel(r.value.Name)
    ensures r.Ok? ==> (Contains(r.value.Type, "time") <==> r.value.Type == "time.Time")
  {
    assert OccursAt(line, "`", 0);
    match ColumnFault(line)
    case Some(k) => Err(k)
    case None =>
      var name := QuotedName(line);
      var tok := TypeName(Before(After(line, " "), " "));
      TimeTypeIff(tok);
      Ok(Field(
        IsPK := Contains(line, "PRIMARY KEY"),
        Name := name,
        UpperCamelCaseName := camel(name),
        Type := GoType(tok),
        Comment := if Contains(line, "COMMENT") then Trim(Before(After(line, "COMMENT '"), "COMMENT '"), "',") else "",
        DefaultValue := if Contains(line, "DEFAULT'") then Before(After(line, "DEFAULT "), "DEFAULT ") else "",
        Tag := ""))
  }

  /** A line that sets the table name. */
  predicate IsCreateLine(raw: string)
  {
    Contains(TrimSpace(raw), "CREATE TABLE")
  }

  /** A line that sets the table comment. */
  predicate IsEngineLine(raw: string)
  {
    var line := TrimSpace(raw);
    !Contains(line, "CREATE TABLE") && Contains(line, "ENGINE") && Contains(line, "COMMENT=")
  }

  /** A line that adds a field. */
  predicate IsColumnLine(raw: string)
  {
    var line := TrimSpace(raw);
    !IsCreateLine(raw) && !IsEngineLine(raw) && |line| > 0 && line[0] == '`'
  }

  /** One iteration of the parser's loop on an untrimmed line. */
  function Step(st: TableState, raw: string, camel: string -> string): Result<TableState, ErrorKind>
  {
    var line := TrimSpace(raw);
    if Contains(line, "CREATE TABLE") then
      if Contains(line, "`") then
        Ok(st.(Name := QuotedName(line), UpperCamelCaseName := camel(QuotedName(line))))
      else Err(MissingBacktick)
    else if Contains(line, "ENGINE") && Contains(line, "COMMENT=") then
      if Contains(line, "COMMENT='") then Ok(st.(Comment := TableComment(line)))
      else Err(MissingTableComment)
    else if |line| == 0 then Err(EmptyLine)
    else if line[0] != '`' then Ok(st)
    else
      match ParseColumn(line, camel)
      case Err(e) => Err(e)
      case Ok(f) => Ok(st.(Fields := st.Fields + [f],
                           ContainsTimeField := st.ContainsTimeField || Contains(f.Type, "time")))
  }

  /** One iteration of the parser's loop, as a function value. */
  function StepWith(camel: string -> string): (TableState, string) -> Result<TableState, ErrorKind>
  {
    (st, raw) => Step(st, raw, camel)
  }

  /** The parser run over the lines with the given step, last line last. */
  function Run(lines: seq<string>, step: (TableState, string) -> Result<TableState, ErrorKind>): Result<TableState, ParseError>
    decreases |lines|
  {
    if |lines| == 0 then Ok(EmptyTable)
    else
      match Run(lines[..|lines| - 1], step)
      case Err(e) => Err(e)
      case Ok(st) =>
        match step(st, lines[|lines| - 1])
        case Err(k) => Err(ParseError(|lines| - 1, k))
        case Ok(st') => Ok(st')
  }

  /** The parser's loop over the lines. */
  function ParseLines(lines: seq<string>, camel: string -> string): Result<TableState, ParseError>
  {
    Run(lines, StepWith(camel))
  }

  /** ParseMysqlDDL's result for the text `s`. */
  function ParseDDL(s: string, camel: string -> string): Result<TableState, ParseError>
  {
    ParseLines(Split(s, "\n"), camel)
  }

  // ---------------------------------------------------------------------
  // One line.
  // ---------------------------------------------------------------------

  /** The fault a line causes, whatever the parser has seen before it. */
  function Fault(raw: string): Option<ErrorKind>
  {
    var line := TrimSpace(raw);
    if Contains(line, "CREATE TABLE") then
      if Contains(line, "`") then None else Some(MissingBacktick)
    else if Contains(line, "ENGINE") && Contains(line, "COMMENT=") then
      if Contains(line, "COMMENT='") then None else Some(MissingTableComment)
    else if |line| == 0 then Some(EmptyLine)
    else if line[0] != '`' then None
    else ColumnFault(line)
  }

  lemma StepOnCreateLine(st: TableState, raw: string, camel: string -> string)
    requires IsCreateLine(raw)
    ensures var line := TrimSpace(raw);
            && Fault(raw) == (if Contains(line, "`") then None else Some(MissingBacktick))
            && (Fault(raw).None? <==> Contains(line, "`"))
            && (Fault(raw).Some? ==> Step(st, raw, camel) == Err(Fault(raw).value))
            && (Fault(raw).None? ==>
                  Step(st, raw, camel) == Ok(st.(Name := QuotedName(line), UpperCamelCaseName := camel(QuotedName(line)))))
  {
  }

  lemma StepOnEngineLine(st: TableState, raw: string, camel: string -> string)
    requires IsEngineLine(raw)
    ensures var line := TrimSpace(raw);
            && Fault(raw) == (if Contains(line, "COMMENT='") then None else Some(MissingTableComment))
            && (Fault(raw).None? <==> Contains(line, "COMMENT='"))
            && (Fault(raw).Some? ==> Step(st, raw, camel) == Err(Fault(raw).value))
            && (Fault(raw).None? ==> Step(st, raw, camel) == Ok(st.(Comment := TableComment(line))))
  {
  }

  lemma StepOnColumnLine(st: TableState, raw: string, camel: string -> string)
    requires IsColumnLine(raw)
    ensures var line := TrimSpace(raw);
            && Fault(raw) == ColumnFault(line)
            && (Fault(raw).None? <==> ParseColumn(line, camel).Ok?)
            && (Fault(raw).Some? ==> Step(st, raw, camel) == Err(Fault(raw).value))
            && (Fault(raw).None? ==>
                  var f := ParseColumn(line, camel).value;
                  Step(st, raw, camel) == Ok(st.(Fields := st.Fields + [f],
                                                 ContainsTimeField := st.ContainsTimeField || Contains(f.Type, "time"))))
  {
  }

  /** On a column line, Step is the column's parse applied to the table. */
  lemma ColumnLineStep(st: TableState, raw: string, camel: string -> string)
    requires IsColumnLine(raw)
    ensures var c := ParseColumn(TrimSpace(raw), camel);
            && (c.Err? ==> Step(st, raw, camel) == Err(c.error))
            && (c.Ok? ==>
                  Step(st, raw, camel) ==
                  Ok(st.(Fields := st.Fields + [c.value],
                         ContainsTimeField := st.ContainsTimeField || Contains(c.value.Type, "time"))))
  {
  }

  lemma StepOnOtherLine(st: TableState, raw: string, camel: string -> string)
    requires !IsCreateLine(raw) && !IsEngineLine(raw) && !IsColumnLine(raw)
    ensures Fault(raw) == if |TrimSpace(raw)| == 0 then Some(EmptyLine) else None
    ensures Fault(raw).Some? ==> Step(st, raw, camel) == Err(Fault(raw).value)
    ensures Fault(raw).None? ==> Step(st, raw, camel) == Ok(st)
  {
  }

  /** A line fails the parser exactly when it is faulty, and with its fault. */
  lemma StepFault(st: TableState, raw: string, camel: string -> string)
    ensures Step(st, raw, camel).Err? <==> Fault(raw).Some?
    ensures Step(st, raw, camel).Err? ==> Step(st, raw, camel).error == Fault(raw).value
  {
    if IsCreateLine(raw) {
      StepOnCreateLine(st, raw, camel);
    } else if IsEngineLine(raw) {
      StepOnEngineLine(st, raw, camel);
    } else if IsColumnLine(raw) {
      StepOnColumnLine(st, raw, camel);
    } else {
      StepOnOtherLine(st, raw, camel);
    }
  }

  /** What a successful step changes. */
  lemma StepChanges(st: TableState, raw: string, camel: string -> string)
    requires Step(st, raw, camel).Ok?
    ensures var st' := Step(st, raw, camel).value;
            var line := TrimSpace(raw);
            && (IsCreateLine(raw) ==>
                  Contains(line, "`") && st' == st.(Name := QuotedName(line), UpperCamelCaseName := camel(QuotedName(line))))
            && (IsEngineLine(raw) ==> Contains(line, "COMMENT='") && st' == st.(Comment := TableComment(line)))
            && (IsColumnLine(raw) ==>
                  && ParseColumn(line, camel).Ok?
                  && var f := ParseColumn(line, camel).value;
                     st' == st.(Fields := st.Fields + [f], ContainsTimeField := st.ContainsTimeField || Contains(f.Type, "time")))
            && (!IsCreateLine(raw) && !IsEngineLine(raw) && !IsColumnLine(raw) ==> st' == st)
  {
    StepFault(st, raw, camel);
    if IsCreateLine(raw) {
      StepOnCreateLine(st, raw, camel);
    } else if IsEngineLine(raw) {
      StepOnEngineLine(st, raw, camel);
    } else if IsColumnLine(raw) {
      StepOnColumnLine(st, raw, camel);
    } else {
      StepOnOtherLine(st, raw, camel);
    }
  }

  // ---------------------------------------------------------------------
  // The loop, for any step.
  // ---------------------------------------------------------------------

  /** The run over one more line, given the run over the lines before it. */
  lemma RunSnoc(lines: seq<string>, i: nat, step: (TableState, string) -> Result<TableState, ErrorKind>)
    requires i < |lines|
    ensures var r := Run(lines[..i], step);
            && (r.Err? ==> Run(lines[..i + 1], step) == r)
            && (r.Ok? && step(r.value, lines[i]).Err? ==>
                  Run(lines[..i + 1], step) == Err(ParseError(i, step(r.value, lines[i]).error)))
            && (r.Ok? && step(r.value, lines[i]).Ok? ==>
                  Run(lines[..i + 1], step) == Ok(step(r.value, lines[i]).value))
  {
    assert lines[..i + 1][..i] == lines[..i];
  }

  /** A failure in a prefix of the lines is the failure of the whole run. */
  lemma {:induction false} RunFailurePersists(lines: seq<string>, n: nat, step: (TableState, string) -> Result<TableState, ErrorKind>)
    requires n <= |lines| && Run(lines[..n], step).Err?
    ensures Run(lines, step) == Run(lines[..n], step)
    decreases |lines| - n
  {
    if n < |lines| {
      RunSnoc(lines, n, step);
      RunFailurePersists(lines, n + 1, step);
    } else {
      assert lines[..n] == lines;
    }
  }

  /** `fault` says which lines make `step` fail, and how, whatever the state. */
  ghost predicate FaultsOf(step: (TableState, string) -> Result<TableState, ErrorKind>, fault: string -> Option<ErrorKind>)
  {
    forall st, raw :: (step(st, raw).Err? <==> fault(raw).Some?)
                      && (step(st, raw).Err? ==> fault(raw) == Some(step(st, raw).error))
  }

  /** The run fails exactly at its first faulty line, with that line's fault. */
  lemma {:induction false} RunFailsAtFirstFault(lines: seq<string>, step: (TableState, string) -> Result<TableState, ErrorKind>, fault: string -> Option<ErrorKind>)
    requires FaultsOf(step, fault)
    ensures Run(lines, step).Err? <==> exists k :: 0 <= k < |lines| && fault(lines[k]).Some?
    ensures Run(lines, step).Err? ==>
              var e := Run(lines, step).error;
              && e.lineIndex < |lines|
              && fault(lines[e.lineIndex]) == Some(e.kind)
              && forall k :: 0 <= k < e.lineIndex ==> fault(lines[k]).None?
  {
    if |lines| > 0 {
      var n := |lines|;
      var prefix := lines[..n - 1];
      RunFailsAtFirstFault(prefix, step, fault);
      RunSnoc(lines, n - 1, step);
      assert lines[..n] == lines;
      assert forall k :: 0 <= k < n - 1 ==> prefix[k] == lines[k];
    }
  }

  /** A property of the state that holds initially and that every step keeps. */
  ghost predicate Preserves(step: (TableState, string) -> Result<TableState, ErrorKind>, inv: TableState -> bool)
  {
    forall st, raw :: inv(st) && step(st, raw).Ok? ==> inv(step(st, raw).value)
  }

  lemma {:induction false} RunKeeps(lines: seq<string>, step: (TableState, string) -> Result<TableState, ErrorKind>, inv: TableState -> bool)
    requires inv(EmptyTable) && Preserves(step, inv)
    ensures Run(lines, step).Ok? ==> inv(Run(lines, step).value)
  {
    if |lines| > 0 {
      var n := |lines|;
      RunKeeps(lines[..n - 1], step, inv);
      RunSnoc(lines, n - 1, step);
      assert lines[..n] == lines;
    }
  }

  /** The fields the lines contribute, in line order. */
  function Emitted(lines: seq<string>, emit: string -> seq<Field>): seq<Field>
  {
    if |lines| == 0 then []
    else Emitted(lines[..|lines| - 1], emit) + emit(lines[|lines| - 1])
  }

  /** Every step appends to the fields what `emit` says of its line. */
  ghost predicate AppendsFields(step: (TableState, string) -> Result<TableState, ErrorKind>, emit: string -> seq<Field>)
  {
    forall st, raw :: step(st, raw).Ok? ==> step(st, raw).value.Fields == st.Fields + emit(raw)
  }

  lemma {:induction false} RunFields(lines: seq<string>, step: (TableState, string) -> Result<TableState, ErrorKind>, emit: string -> seq<Field>)
    requires AppendsFields(step, emit)
    ensures Run(lines, step).Ok? ==> Run(lines, step).value.Fields == Emitted(lines, emit)
  {
    if |lines| > 0 {
      var n := |lines|;
      RunFields(lines[..n - 1], step, emit);
      RunSnoc(lines, n - 1, step);
      assert lines[..n] == lines;
    }
  }

  /** `k` is the last line that `p` holds of. */
  predicate IsLast(lines: seq<string>, p: string -> bool, k: int)
  {
    0 <= k < |lines| && p(lines[k]) && forall j :: k < j < |lines| ==> !p(lines[j])
  }

  /** Every step sets `get` to `val` of its line when `sets` holds of it, and keeps it otherwise. */
  ghost predicate Overwrites<X>(step: (TableState, string) -> Result<TableState, ErrorKind>, get: TableState -> X,
                              sets: string -> bool, val: string -> X)
  {
    forall st, raw :: step(st, raw).Ok? ==>
      get(step(st, raw).value) == if sets(raw) then val(raw) else get(st)
  }

  /** The last line that sets a part of the state decides it. */
  lemma {:induction false} RunLastWins<X>(lines: seq<string>, step: (TableState, string) -> Result<TableState, ErrorKind>,
                                             get: TableState -> X, sets: string -> bool, val: string -> X)
    requires Overwrites(step, get, sets, val)
    ensures Run(lines, step).Ok? && (forall k :: 0 <= k < |lines| ==> !sets(lines[k])) ==>
              get(Run(lines, step).value) == get(EmptyTable)
    ensures Run(lines, step).Ok? ==> forall k :: IsLast(lines, sets, k) ==> get(Run(lines, step).value) == val(lines[k])
  {
    if |lines| > 0 && Run(lines, step).Ok? {
      var n := |lines|;
      var prefix := lines[..n - 1];
      RunLastWins(prefix, step, get, sets, val);
      RunSnoc(lines, n - 1, step);
      assert lines[..n] == lines;
      var st := Run(prefix, step).value;
      var st' := Run(lines, step).value;
      assert get(st') == if sets(lines[n - 1]) then val(lines[n - 1]) else get(st);
      forall k | IsLast(lines, sets, k) ensures get(st') == val(lines[k]) {
        if k < n - 1 {
          forall j | k < j < n - 1 ensures !sets(prefix[j]) {
            assert prefix[j] == lines[j];
          }
          assert IsLast(prefix, sets, k);
        }
      }
      if forall k :: 0 <= k < n ==> !sets(lines[k]) {
        forall k | 0 <= k < n - 1 ensures !sets(prefix[k]) {
          assert prefix[k] == lines[k];
        }
      }
    }
  }

  // ---------------------------------------------------------------------
  // What the parser computes.
  // ---------------------------------------------------------------------

  /**
   * Parsing fails exactly when some line is faulty, and the error names
   * the first faulty line and its fault.
   */
  lemma ParseFailsAtFirstFault(lines: seq<string>, camel: string -> string)
    ensures ParseLines(lines, camel).Err? <==> exists k :: 0 <= k < |lines| && Fault(lines[k]).Some?
    ensures ParseLines(lines, camel).Err? ==>
              var e := ParseLines(lines, camel).error;
              && e.lineIndex < |lines|
              && Fault(lines[e.lineIndex]) == Some(e.kind)
              && forall k :: 0 <= k < e.lineIndex ==> Fault(lines[k]).None?
  {
    var step := StepWith(camel);
    forall st, raw
      ensures (step(st, raw).Err? <==> Fault(raw).Some?)
      ensures step(st, raw).Err? ==> Fault(raw) == Some(step(st, raw).error)
    {
      StepFault(st, raw, camel);
    }
    RunFailsAtFirstFault(lines, step, Fault);
  }

  /** The fields a line adds: its parsed column when it is a column line. */
  function ColumnField(raw: string, camel: string -> string): seq<Field>
  {
    if IsColumnLine(raw) then
      match ParseColumn(TrimSpace(raw), camel)
      case Ok(f) => [f]
      case Err(_) => []
    else []
  }

  /** The parsed column lines, in line order. */
  function ColumnFields(lines: seq<string>, camel: string -> string): seq<Field>
  {
    if |lines| == 0 then []
    else ColumnFields(lines[..|lines| - 1], camel) + ColumnField(lines[|lines| - 1], camel)
  }

  lemma {:induction false} EmittedColumnFields(lines: seq<string>, camel: string -> string, emit: string -> seq<Field>)
    requires forall raw :: emit(raw) == ColumnField(raw, camel)
    ensures Emitted(lines, emit) == ColumnFields(lines, camel)
  {
    if |lines| > 0 {
      EmittedColumnFields(lines[..|lines| - 1], camel, emit);
    }
  }

  /**
   * The fields are the column lines parsed one by one, in line order;
   * no other line adds a field.
   */
  lemma FieldsAreColumnFields(lines: seq<string>, camel: string -> string)
    requires ParseLines(lines, camel).Ok?
    ensures ParseLines(lines, camel).value.Fields == ColumnFields(lines, camel)
  {
    var step := StepWith(camel);
    var emit := raw => ColumnField(raw, camel);
    forall st, raw | step(st, raw).Ok? ensures step(st, raw).value.Fields == st.Fields + emit(raw) {
      StepChanges(st, raw, camel);
    }
    RunFields(lines, step, emit);
    EmittedColumnFields(lines, camel, emit);
  }

  /** The time flag is set exactly when some field has type time.Time. */
  predicate TimeFlagAgrees(st: TableState)
  {
    st.ContainsTimeField <==> exists k | 0 <= k < |st.Fields| :: st.Fields[k].Type == "time.Time"
  }

  lemma TimeFlagAppend(st: TableState, f: Field)
    requires TimeFlagAgrees(st)
    requires Contains(f.Type, "time") <==> f.Type == "time.Time"
    ensures TimeFlagAgrees(st.(Fields := st.Fields + [f], ContainsTimeField := st.ContainsTimeField || Contains(f.Type, "time")))
  {
    var fields := st.Fields + [f];
    assert forall k :: 0 <= k < |st.Fields| ==> fields[k] == st.Fields[k];
    assert fields[|st.Fields|] == f;
  }

  lemma TimeFlagStep(st: TableState, raw: string, camel: string -> string)
    requires TimeFlagAgrees(st) && Step(st, raw, camel).Ok?
    ensures TimeFlagAgrees(Step(st, raw, camel).value)
  {
    StepChanges(st, raw, camel);
    if IsColumnLine(raw) {
      TimeFlagAppend(st, ParseColumn(TrimSpace(raw), camel).value);
    }
  }

  /**
   * The parsed table has a time field exactly when some field has type
   * time.Time, which is when the generated file imports "time".
   */
  lemma TimeFlagIffTimeField(lines: seq<string>, camel: string -> string)
    requires ParseLines(lines, camel).Ok?
    ensures TimeFlagAgrees(ParseLines(lines, camel).value)
  {
    var step := StepWith(camel);
    forall st, raw | TimeFlagAgrees(st) && step(st, raw).Ok? ensures TimeFlagAgrees(step(st, raw).value) {
      TimeFlagStep(st, raw, camel);
    }
    RunKeeps(lines, step, TimeFlagAgrees);
  }

  /** The name a CREATE TABLE line sets. */
  function CreateLineName(raw: string): string
  {
    var line := TrimSpace(raw);
    if Contains(line, "`") then QuotedName(line) else ""
  }

  /**
   * The table name is the text between the first two backticks of the
   * last CREATE TABLE line, and its camel-case form is derived from it;
   * both stay empty when there is no such line.
   */
  lemma NameFromLastCreateLine(lines: seq<string>, camel: string -> string)
    requires ParseLines(lines, camel).Ok?
    ensures var st := ParseLines(lines, camel).value;
            (forall k :: 0 <= k < |lines| ==> !IsCreateLine(lines[k])) ==> st.Name == "" && st.UpperCamelCaseName == ""
    ensures var st := ParseLines(lines, camel).value;
            forall k :: IsLast(lines, IsCreateLine, k) ==>
              && Contains(TrimSpace(lines[k]), "`")
              && st.Name == QuotedName(TrimSpace(lines[k]))
              && st.UpperCamelCaseName == camel(st.Name)
  {
    var step := StepWith(camel);
    var name := (st: TableState) => st.Name;
    var upper := (st: TableState) => st.UpperCamelCaseName;
    var upperOf := (raw: string) => camel(CreateLineName(raw));
    forall st, raw | step(st, raw).Ok?
      ensures name(step(st, raw).value) == if IsCreateLine(raw) then CreateLineName(raw) else name(st)
      ensures upper(step(st, raw).value) == if IsCreateLine(raw) then upperOf(raw) else upper(st)
    {
      StepChanges(st, raw, camel);
    }
    RunLastWins(lines, step, name, IsCreateLine, CreateLineName);
    RunLastWins(lines, step, upper, IsCreateLine, upperOf);
    ParseFailsAtFirstFault(lines, camel);
    forall k | IsLast(lines, IsCreateLine, k) ensures Contains(TrimSpace(lines[k]), "`") {
      StepOnCreateLine(EmptyTable, lines[k], camel);
    }
  }

  /** The comment an ENGINE line sets. */
  function EngineLineComment(raw: string): string
  {
    var line := TrimSpace(raw);
    if Contains(line, "COMMENT='") then TableComment(line) else ""
  }

  /**
   * The table comment is the text after `COMMENT='` on the last ENGINE
   * line, without the surrounding quotes, and empty without one.
   */
  lemma CommentFromLastEngineLine(lines: seq<string>, camel: string -> string)
    requires ParseLines(lines, camel).Ok?
    ensures var st := ParseLines(lines, camel).value;
            (forall k :: 0 <= k < |lines| ==> !IsEngineLine(lines[k])) ==> st.Comment == ""
    ensures var st := ParseLines(lines, camel).value;
            forall k :: IsLast(lines, IsEngineLine, k) ==>
              && Contains(TrimSpace(lines[k]), "COMMENT='")
              && st.Comment == TableComment(TrimSpace(lines[k]))
  {
    var step := StepWith(camel);
    var comment := (st: TableState) => st.Comment;
    forall st, raw | step(st, raw).Ok?
      ensures comment(step(st, raw).value) == if IsEngineLine(raw) then EngineLineComment(raw) else comment(st)
    {
      StepChanges(st, raw, camel);
    }
    RunLastWins(lines, step, comment, IsEngineLine, EngineLineComment);
    ParseFailsAtFirstFault(lines, camel);
    forall k | IsLast(lines, IsEngineLine, k) ensures Contains(TrimSpace(lines[k]), "COMMENT='") {
      StepOnEngineLine(EmptyTable, lines[k], camel);
    }
  }

  // ---------------------------------------------------------------------
  // Tags.
  // ---------------------------------------------------------------------

  /** The start of every tag: the database tag key and the column name. */
  function TagHead(cnf: Settings, f: Field): string
  {
    "`" + cnf.DBTag + ":\"column:" + f.Name + "\""
  }

  function PrimaryKeyOption(f: Field): string
  {
    if f.IsPK then ";primary_key\" " else ""
  }

  function DefaultOption(f: Field): string
  {
    if f.DefaultValue != "" then ";default:" + f.DefaultValue + "\"" else ""
  }

  function JsonTag(cnf: Settings, f: Field): string
  {
    if cnf.WithJsonTag then " json:\"" + f.Name + "\"" else ""
  }

  /** The struct tag GenerateCode gives a field. */
  function FieldTag(cnf: Settings, f: Field): (tag: string)
    ensures |tag| >= 2 && tag[0] == '`' && tag[|tag| - 1] == '`'
    ensures TagHead(cnf, f) <= tag
    ensures !f.IsPK && f.DefaultValue == "" && !cnf.WithJsonTag ==> tag == TagHead(cnf, f) + "`"
  {
    TagHead(cnf, f) + PrimaryKeyOption(f) + DefaultOption(f) + JsonTag(cnf, f) + "`"
  }

  /** A primary key is marked in the tag. */
  lemma TagMarksPrimaryKey(cnf: Settings, f: Field)
    requires f.IsPK
    ensures Contains(FieldTag(cnf, f), ";primary_key\" ")
  {
    var rest := DefaultOption(f) + JsonTag(cnf, f) + "`";
    assert FieldTag(cnf, f) == TagHead(cnf, f) + ";primary_key\" " + rest;
    ContainsInfix(TagHead(cnf, f), ";primary_key\" ", rest);
  }

  /** A default value is carried in the tag. */
  lemma TagCarriesDefault(cnf: Settings, f: Field)
    requires f.DefaultValue != ""
    ensures Contains(FieldTag(cnf, f), ";default:" + f.DefaultValue + "\"")
  {
    var head := TagHead(cnf, f) + PrimaryKeyOption(f);
    var rest := JsonTag(cnf, f) + "`";
    assert FieldTag(cnf, f) == head + (";default:" + f.DefaultValue + "\"") + rest;
    ContainsInfix(head, ";default:" + f.DefaultValue + "\"", rest);
  }

  /** With WithJsonTag the tag ends with the json key for the column name. */
  lemma TagEndsWithJson(cnf: Settings, f: Field)
    requires cnf.WithJsonTag
    ensures HasSuffix(FieldTag(cnf, f), " json:\"" + f.Name + "\"`")
  {
    var head := TagHead(cnf, f) + PrimaryKeyOption(f) + DefaultOption(f);
    assert FieldTag(cnf, f) == head + (" json:\"" + f.Name + "\"`");
  }

  /** Turning WithJsonTag on inserts exactly the json tag before the closing backtick. */
  lemma JsonTagToggle(cnf: Settings, f: Field)
    ensures var off := FieldTag(cnf.(WithJsonTag := false), f);
            FieldTag(cnf.(WithJsonTag := true), f) == off[..|off| - 1] + " json:\"" + f.Name + "\"" + "`"
  {
  }

  /** The fields with their tags filled in; nothing else changes. */
  function Tagged(cnf: Settings, fields: seq<Field>): (r: seq<Field>)
    ensures |r| == |fields|
    ensures forall i :: 0 <= i < |r| ==> r[i].(Tag := fields[i].Tag) == fields[i]
    ensures forall i :: 0 <= i < |r| ==> r[i].Tag == FieldTag(cnf, fields[i])
  {
    seq(|fields|, i requires 0 <= i < |fields| => fields[i].(Tag := FieldTag(cnf, fields[i])))
  }

  /** Generating twice gives the same tags as generating once. */
  lemma TaggedIdempotent(cnf: Settings, fields: seq<Field>)
    ensures Tagged(cnf, Tagged(cnf, fields)) == Tagged(cnf, fields)
  {
    var once := Tagged(cnf, fields);
    forall i | 0 <= i < |fields| ensures FieldTag(cnf, once[i]) == FieldTag(cnf, fields[i]) {
      assert once[i].(Tag := fields[i].Tag) == fields[i];
    }
  }

  /** The template with the package, table name and comment inlined. */
  function Inlined(tableName: string, comment: string): string
  {
    var t1 := ReplaceAll(Tmpl, PackagePlaceholder, "model");
    var t2 := ReplaceAll(t1, TableNamePlaceholder, tableName);
    ReplaceAll(t2, TableCommentPlaceholder, comment)
  }

  class Table {
    var Name: string
    var UpperCamelCaseName: string
    var Comment: string
    var Fields: seq<Field>
    var ContainsTimeField: bool

    /** Go's zero value of a Table. */
    constructor ()
      ensures State() == EmptyTable
    {
      Name, UpperCamelCaseName, Comment := "", "", "";
      Fields, ContainsTimeField := [], false;
    }

    function State(): TableState
      reads this
    {
      TableState(Name, UpperCamelCaseName, Comment, Fields, ContainsTimeField)
    }

    /** The loop of GenerateCode that fills in every field's tag. */
    method TagFields(cnf: Settings)
      modifies this`Fields
      ensures Fields == Tagged(cnf, old(Fields))
    {
      var i := 0;
      while i < |Fields|
        invariant 0 <= i <= |Fields| == |old(Fields)|
        invariant forall k :: 0 <= k < i ==> Fields[k] == old(Fields[k]).(Tag := FieldTag(cnf, old(Fields[k])))
        invariant forall k :: i <= k < |Fields| ==> Fields[k] == old(Fields[k])
      {
        var field := Fields[i];
        var tag := FieldTag(cnf, field);
        Fields := Fields[i := Fields[i].(Tag := tag)];
        i := i + 1;
      }
    }

    /**
     * Inlines the package, the prefixed table name and the comment into the
     * template, fills in every field's tag, and renders the inlined template
     * over the tagged table; `render` stands for executing the template and
     * fixing initialisms.
     */
    method GenerateCode(cnf: Settings, render: (string, TableState) -> string) returns (code: string)
      modifies this`Fields
      ensures Fields == Tagged(cnf, old(Fields))
      ensures code == render(Inlined(cnf.TablePrefix + Name, Comment), State())
    {
      var tableName := cnf.TablePrefix + Name;
      var fromTmpl := Tmpl;
      fromTmpl := ReplaceAll(fromTmpl, PackagePlaceholder, "model");
      fromTmpl := ReplaceAll(fromTmpl, TableNamePlaceholder, tableName);
      fromTmpl := ReplaceAll(fromTmpl, TableCommentPlaceholder, Comment);
      TagFields(cnf);
      code := render(fromTmpl, State());
    }
  }

  /** The field ParseColumn builds, one part at a time. */
  lemma ParseColumnParts(line: string, camel: string -> string)
    requires |line| > 0 && line[0] == '`' && ColumnFault(line).None?
    ensures Contains(line, "`") && Contains(line, " ")
    ensures Contains(line, "COMMENT") ==> Contains(line, "COMMENT '")
    ensures Contains(line, "DEFAULT'") ==> Contains(line, "DEFAULT ")
    ensures ParseColumn(line, camel).Ok?
    ensures var f := ParseColumn(line, camel).value;
            && f.Name == QuotedName(line)
            && f.UpperCamelCaseName == camel(QuotedName(line))
            && f.Type == GoType(TypeName(Before(After(line, " "), " ")))
            && f.Comment == (if Contains(line, "COMMENT") then Trim(Before(After(line, "COMMENT '"), "COMMENT '"), "',") else "")
            && f.DefaultValue == (if Contains(line, "DEFAULT'") then Before(After(line, "DEFAULT "), "DEFAULT ") else "")
            && f.IsPK == Contains(line, "PRIMARY KEY")
            && f.Tag == ""
  {
    assert OccursAt(line, "`", 0);
    var comment := if Contains(line, "COMMENT") then Trim(Before(After(line, "COMMENT '"), "COMMENT '"), "',") else "";
    var default := if Contains(line, "DEFAULT'") then Before(After(line, "DEFAULT "), "DEFAULT ") else "";
    assert ParseColumn(line, camel) ==
           Ok(Field(Contains(line, "PRIMARY KEY"), QuotedName(line), camel(QuotedName(line)),
                    GoType(TypeName(Before(After(line, " "), " "))), comment, default, ""));
  }

  /**
   * The body of the parser's loop for a trimmed line starting with a
   * backtick: the field it describes, or the index expression that goes
   * out of range.
   */
  method ParseField(line: string, camel: string -> string) returns (r: Result<Field, ErrorKind>)
    requires |line| > 0 && line[0] == '`'
    ensures r == ParseColumn(line, camel)
  {
    assert OccursAt(line, "`", 0);
    SplitSecond(line, "`");
    var field := EmptyField;
    field := field.(Name := Split(line, "`")[1]);
    field := field.(UpperCamelCaseName := camel(field.Name));
    var words := Split(line, " ");
    if |words| < 2 {
      return Err(MissingTypeToken);
    }
    SplitSecond(line, " ");
    field := field.(Type := TrimRightFunc(words[1], NotLowerLetter));
    field := field.(Type := GoType(field.Type));
    if Contains(line, "COMMENT") {
      var parts := Split(line, "COMMENT '");
      if |parts| < 2 {
        return Err(MissingColumnComment);
      }
      SplitSecond(line, "COMMENT '");
      field := field.(Comment := Trim(parts[1], "',"));
    }
    if Contains(line, "DEFAULT'") {
      var parts := Split(line, "DEFAULT ");
      if |parts| < 2 {
        return Err(MissingDefault);
      }
      SplitSecond(line, "DEFAULT ");
      field := field.(DefaultValue := parts[1]);
    }
    if Contains(line, "PRIMARY KEY") {
      field := field.(IsPK := true);
    }
    ParseColumnParts(line, camel);
    r := Ok(field);
  }

  /** The CREATE TABLE line: the table's name is the first back-quoted word. */
  method ParseCreateLine(table: Table, line: string, camel: string -> string) returns (fault: Option<ErrorKind>)
    modifies table
    ensures fault == if Contains(line, "`") then None else Some(MissingBacktick)
    ensures fault.None? ==>
              table.State() == old(table.State()).(Name := QuotedName(line), UpperCamelCaseName := camel(QuotedName(line)))
  {
    var parts := Split(line, "`");
    if |parts| < 2 {
      return Some(MissingBacktick);
    }
    SplitSecond(line, "`");
    table.Name := parts[1];
    table.UpperCamelCaseName := camel(parts[1]);
    return None;
  }

  /** The closing ENGINE line: the table comment sits between COMMENT=' and the last quote. */
  method ParseEngineLine(table: Table, line: string) returns (fault: Option<ErrorKind>)
    modifies table
    ensures fault == if Contains(line, "COMMENT='") then None else Some(MissingTableComment)
    ensures fault.None? ==> table.State() == old(table.State()).(Comment := TableComment(line))
  {
    var parts := Split(line, "COMMENT='");
    if |parts| < 2 {
      return Some(MissingTableComment);
    }
    SplitSecond(line, "COMMENT='");
    table.Comment := Trim(parts[1], "'");
    return None;
  }

  /** Records a parsed field: notes a time type, then appends the field. */
  method AddField(table: Table, field: Field)
    modifies table`Fields, table`ContainsTimeField
    ensures table.State() ==
            old(table.State()).(Fields := old(table.Fields) + [field],
                                ContainsTimeField := old(table.ContainsTimeField) || Contains(field.Type, "time"))
  {
    if Contains(field.Type, "time") {
      table.ContainsTimeField := true;
    }
    table.Fields := table.Fields + [field];
  }

  /** A column line appends its field and notes whether the field is a time. */
  method ParseColumnLine(table: Table, line: string, camel: string -> string) returns (fault: Option<ErrorKind>)
    requires |line| > 0 && line[0] == '`'
    modifies table`Fields, table`ContainsTimeField
    ensures var c := ParseColumn(line, camel);
            && (c.Err? ==> fault == Some(c.error))
            && (c.Ok? ==>
                  && fault == None
                  && table.State() ==
                     old(table.State()).(Fields := old(table.Fields) + [c.value],
                                         ContainsTimeField := old(table.ContainsTimeField) || Contains(c.value.Type, "time")))
  {
    var field := ParseField(line, camel);
    if field.Err? {
      return Some(field.error);
    }
    AddField(table, field.value);
    return None;
  }

  /**
   * One pass of the parser's loop over a raw line of the statement: the
   * table's new state is the one Step computes, or the line's fault.
   */
  method ParseLine(table: Table, raw: string, camel: string -> string) returns (fault: Option<ErrorKind>)
    modifies table
    ensures fault.None? ==> Step(old(table.State()), raw, camel) == Ok(table.State())
    ensures fault.Some? ==> Step(old(table.State()), raw, camel) == Err(fault.value)
  {
    ghost var st := table.State();
    var line := TrimSpace(raw);
    if Contains(line, "CREATE TABLE") {
      StepOnCreateLine(st, raw, camel);
      fault := ParseCreateLine(table, line, camel);
    } else if Contains(line, "ENGINE") && Contains(line, "COMMENT=") {
      StepOnEngineLine(st, raw, camel);
      fault := ParseEngineLine(table, line);
    } else if |line| == 0 {
      StepOnOtherLine(st, raw, camel);
      fault := Some(EmptyLine);
    } else if line[0] == '`' {
      ColumnLineStep(st, raw, camel);
      fault := ParseColumnLine(table, line, camel);
    } else {
      StepOnOtherLine(st, raw, camel);
      fault := None;
    }
  }

  /**
   * Parses the text of a CREATE TABLE statement line by line into a new
   * Table, or reports the first line on which the parse goes out of range.
   */
  method ParseMysqlDDL(s: string, camel: string -> string) returns (r: Result<Table, ParseError>)
    ensures r.Ok? ==> fresh(r.value) && ParseDDL(s, camel) == Ok(r.value.State())
    ensures r.Err? ==> ParseDDL(s, camel) == Err(r.error)
  {
    var lines := Split(s, "\n");
    ghost var step := StepWith(camel);
    var table := new Table();
    for i := 0 to |lines|
      invariant fresh(table)
      invariant Run(lines[..i], step) == Ok(table.State())
    {
      RunSnoc(lines, i, step);
      var fault := ParseLine(table, lines[i], camel);
      if fault.Some? {
        r := Err(ParseError(i, fault.value));
        RunFailurePersists(lines, i + 1, step);
        return;
      }
    }
    assert lines[..|lines|] == lines;
    r := Ok(table);
  }
}
