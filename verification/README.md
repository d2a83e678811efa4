# sql2struct in Dafny

sql2struct reads the `SHOW CREATE TABLE` text of MySQL tables and generates a
Go struct per table. This project models three parts of it in Dafny and proves
their behaviour:

- the DDL line parser `ParseMysqlDDL` with its fixed MySQL-to-Go type table
  (package `mysqlparser`, module `MysqlParser`);
- the struct-tag loops and the placeholder inlining of the two `GenerateCode`
  variants (`MysqlParser.Table.GenerateCode` and `TableGen.Table.GenerateCode`);
- the table-name filters `FilterTables` and `NameIsMatch` (package `table`,
  module `TableGen`).

Files:

- `wrappers.dfy` holds `Option` and `Result`.
- `config.dfy` holds `Settings`, the fields of the global configuration that
  the modelled code reads (`DBTag`, `WithJsonTag`, `TablePrefix`, `TableRegexs`).
  They are passed as an explicit parameter.
- `go_strings.dfy` holds the Go `strings` functions used by the code, over
  `seq<char>`. Each fixes its result's value, not only its shape. Examples:
  `ReplaceAll(s, p, r) == Join(Split(s, p), r)`; the pieces of `Split` join
  back to the input; `Trim` leaves an infix whose surroundings are all
  cutset characters and whose ends are not.
- `mysql_parser.dfy` holds the parser and the sql.go tag code.
- `table_gen.dfy` holds the table.go tag code and the filters.

How the parser is modelled. The Go loop over the lines becomes a `Table`
object. It is updated line by line by `ParseLine`, which dispatches to
`ParseCreateLine`, `ParseEngineLine` and `ParseColumnLine`, in the branch
order of the Go loop. `ParseMysqlDDL` is proved equal to a specification
`ParseDDL`. That specification is a fold, `Run`, of a one-line step, `Step`,
over `Split(s, "\n")`.

In Go, each out-of-range index (`line[0]` on an empty line, `[1]` of a split
with no separator) is a panic. The model turns each into an explicit
`ParseError(lineIndex, kind)`. The lemmas about the fold are proved once,
generically over any step function. They are then instantiated with `Step`.
`utils.Underline2UpperCamelCase` and `utils.IsMatch` are outside the modelled
files, so they are the function parameters `camel` and `isMatch`.

A column or `CREATE TABLE` line with a single backtick is not an error: the name is everything after that backtick, because
`strings.Split(line, "`")[1]` exists. Only a line with no backtick at all fails.

## Model

| member | source | states |
|---|---|---|
| GoStrings.Contains | internal/mysql/sql.go:65 | the result holds exactly when the pattern occurs at some position |
| GoStrings.Split | internal/mysql/sql.go:61 | first piece is the text before the first separator; at least two pieces iff the separator occurs; no piece contains it; each separator taken is the leftmost, since no occurrence starts inside the piece before it; joining the pieces with it gives back the input |
| GoStrings.BeforeIsLeftmost | internal/mysql/sql.go:66 | no occurrence of the separator starts inside the text before its first occurrence, even one running into that occurrence |
| GoStrings.ReplaceAll | internal/mysql/sql.go:107-109 | the scan that replaces occurrences left to right equals joining the pieces of the split with the replacement |
| GoStrings.TrimRightFunc | internal/mysql/sql.go:80-82 | the result is no longer than the input, does not end with a stripped character, and everything cut off satisfies the predicate |
| GoStrings.TrimRightFuncPrefix | internal/mysql/sql.go:80-82 | the result of TrimRightFunc is a prefix of its input |
| GoStrings.TrimRight | internal/table/table.go:73 | the result is a prefix of the input that does not end in a cutset character, and every character cut off is in the cutset |
| GoStrings.TrimFunc | internal/mysql/sql.go:64 | the result is an infix of the input whose first and last characters fail the predicate, and every character before and after it satisfies the predicate |
| GoStrings.Trim | internal/mysql/sql.go:72 | the result is an infix of the input that neither starts nor ends with a cutset character, and every character before and after it is in the cutset |
| GoStrings.TrimSpace | internal/mysql/sql.go:64 | the result is an infix of the line that neither starts nor ends with white space, and everything before and after it is white space in the sense of `unicode.IsSpace` |
| GoStrings.TrimRightOneQuote | internal/table/table.go:73 | trimming quotes from a text plus one quote gives the text back when it does not itself end in a quote |
| MysqlParser.GoType | internal/mysql/sql.go:29-41 | the Go type is empty exactly for tokens missing from the table, and is `time.Time` exactly for date, time, datetime and timestamp |
| MysqlParser.NoTimeIn | internal/mysql/sql.go:29-41 | none of the non-time Go types in the table contains `time` |
| MysqlParser.TimeTypeIff | internal/mysql/sql.go:84-86 | the generator's `Contains(type, "time")` test holds exactly for the four time tokens |
| MysqlParser.TypeName | internal/mysql/sql.go:80-82 | the token is a prefix of the type word that is empty or ends with a lower-case letter, and every character cut from the word is outside `a`..`z` |
| MysqlParser.TypeNameOfInt | internal/mysql/sql.go:80-83 | `int(11)` maps to `int64` |
| MysqlParser.TypeNameOfVarchar | internal/mysql/sql.go:80-83 | `varchar(255)` maps to `string` |
| MysqlParser.TypeNameOfDecimal | internal/mysql/sql.go:80-83 | `decimal(10,2)` is not in the table and maps to the empty type |
| MysqlParser.QuotedName | internal/mysql/sql.go:66 | the name is `strings.Split(line, "`")[1]`: the text after the first backtick up to the next one, or to the end of the line |
| MysqlParser.TableComment | internal/mysql/sql.go:72 | the comment is the piece after the first `COMMENT='`, up to the next one, trimmed of `'` |
| MysqlParser.ColumnFault | internal/mysql/sql.go:76-91 | the first index expression of a column line that goes out of range: no space, then `COMMENT` without `COMMENT '`, then `DEFAULT'` without `DEFAULT ` |
| MysqlParser.ParseColumn | internal/mysql/sql.go:76-97 | a column line fails exactly when its fault exists, with that fault; a parsed field has no tag yet, its identifier is `camel` of its name, and its type contains `time` exactly when it is `time.Time` |
| MysqlParser.ParseColumnParts | internal/mysql/sql.go:77-95 | a fault-free column line parses; its name is the text between the first two backticks, its type the mapped name of the second space-separated word, its comment the piece after `COMMENT '` trimmed of `'` and `,` (empty without `COMMENT`), its default the piece after `DEFAULT ` only when `DEFAULT'` occurs, and it is a primary key iff `PRIMARY KEY` occurs |
| MysqlParser.Fault | internal/mysql/sql.go:64-91 | where a line makes the loop body panic, by the branch the trimmed line takes: no backtick in a `CREATE TABLE` line, no `COMMENT='` in an `ENGINE` line, an empty line, or the column fault |
| MysqlParser.Step | internal/mysql/sql.go:64-99 | one iteration of the loop body on the trimmed line, in Go's branch order, returning the new table or the panic point |
| MysqlParser.Run | internal/mysql/sql.go:63-101 | the loop as a left fold of a step over the lines, stopping at the first failure with its line index |
| MysqlParser.ParseLines | internal/mysql/sql.go:62-101 | the fold of Step over the lines, starting from the zero table |
| MysqlParser.ParseDDL | internal/mysql/sql.go:60-103 | ParseLines over the input split at newlines |
| MysqlParser.StepOnCreateLine | internal/mysql/sql.go:65-70 | a `CREATE TABLE` line fails iff it has no backtick; otherwise it sets the name and its camel-case form and nothing else |
| MysqlParser.StepOnEngineLine | internal/mysql/sql.go:71-75 | an `ENGINE`/`COMMENT=` line fails iff it lacks `COMMENT='`; otherwise it sets only the comment |
| MysqlParser.StepOnColumnLine | internal/mysql/sql.go:76-99 | a column line fails iff its column fault exists; otherwise it appends the parsed field and raises the time flag when the field's type contains `time` |
| MysqlParser.ColumnLineStep | internal/mysql/sql.go:76-99 | on a column line the step is the column's parse result applied to the table |
| MysqlParser.StepOnOtherLine | internal/mysql/sql.go:63-101 | any other line leaves the table unchanged, except that an empty trimmed line fails at `line[0]` |
| MysqlParser.StepFault | internal/mysql/sql.go:63-101 | a step fails exactly when the line has a fault, whatever the state, and with that fault |
| MysqlParser.StepChanges | internal/mysql/sql.go:63-101 | a successful step changes the name, the comment or the fields and time flag as the line's kind says, and nothing else |
| MysqlParser.RunSnoc | internal/mysql/sql.go:63-101 | running one more line stops at an earlier error, reports this line's failure at its index, or continues with the step's state |
| MysqlParser.RunFailurePersists | internal/mysql/sql.go:63-101 | once a prefix of the lines fails, the whole run fails with the same error |
| MysqlParser.RunFailsAtFirstFault | internal/mysql/sql.go:63-101 | for a step whose failures are a per-line fault, the run fails iff some line is faulty, at the first faulty line and with its fault |
| MysqlParser.RunKeeps | internal/mysql/sql.go:63-101 | a state invariant kept by every step holds for the result |
| MysqlParser.RunFields | internal/mysql/sql.go:97 | when every step appends what a line emits, the fields are the concatenation of all lines' emissions, in line order |
| MysqlParser.RunLastWins | internal/mysql/sql.go:63-101 | a component that only some lines overwrite is the value of the last such line, or its zero value when there is none |
| MysqlParser.ParseFailsAtFirstFault | internal/mysql/sql.go:63-101 | parsing fails iff some line is faulty; the error names the first faulty line and its fault |
| MysqlParser.EmittedColumnFields | internal/mysql/sql.go:76-97 | emitting one field per column line gives the column fields of the lines |
| MysqlParser.FieldsAreColumnFields | internal/mysql/sql.go:76-97 | the parsed fields are exactly one field per column line, in line order; other lines (such as the `PRIMARY KEY (...)` line) add none |
| MysqlParser.TimeFlagAppend | internal/mysql/sql.go:84-97 | appending a field and raising the flag on a time type keeps "flag iff some field is time.Time" |
| MysqlParser.TimeFlagStep | internal/mysql/sql.go:84-86 | every successful step keeps "flag iff some field is time.Time" |
| MysqlParser.TimeFlagIffTimeField | internal/mysql/sql.go:84-86 | after a successful parse, ContainsTimeField holds iff some field has type time.Time |
| MysqlParser.NameFromLastCreateLine | internal/mysql/sql.go:65-70 | the table name is the back-quoted name of the last `CREATE TABLE` line, and empty when there is none |
| MysqlParser.CommentFromLastEngineLine | internal/mysql/sql.go:71-75 | the table comment is the piece after `COMMENT='` of the last `ENGINE` line, trimmed of `'`, and empty when there is none |
| MysqlParser.FieldTag | internal/mysql/sql.go:111-121 | each tag starts with a backtick, the DB key and `:"column:` plus the name and a quote, and ends with a backtick; with no options and json tags off the tag is just that head and a backtick |
| MysqlParser.TagMarksPrimaryKey | internal/mysql/sql.go:112-114 | a primary key's tag contains `;primary_key" ` |
| MysqlParser.TagCarriesDefault | internal/mysql/sql.go:115-117 | a non-empty default appears in the tag as `;default:<value>"` |
| MysqlParser.TagEndsWithJson | internal/mysql/sql.go:118-121 | with json tags on, the tag ends with ` json:"<name>"` and the backtick |
| MysqlParser.JsonTagToggle | internal/mysql/sql.go:118-121 | turning json tags on inserts exactly ` json:"<name>"` before the closing backtick |
| MysqlParser.Tagged | internal/mysql/sql.go:110-123 | tagging keeps the number and order of fields and every attribute other than the tag, and gives each field its tag |
| MysqlParser.TaggedIdempotent | internal/mysql/sql.go:110-123 | generating tags twice gives the same fields as once |
| MysqlParser.Table.constructor | internal/mysql/sql.go:62 | a new table is Go's zero value |
| MysqlParser.Table.TagFields | internal/mysql/sql.go:110-123 | the loop leaves the fields tagged as Tagged says, touching only the field list |
| MysqlParser.Inlined | internal/mysql/sql.go:104-109 | the template (the lines of sql.go:14-28, built from `TmplLines`) with every `{{.Package}}` replaced by `model`, then every `{{.Table.Name}}` by the prefixed name, then every `{{.Table.Comment}}` by the comment |
| MysqlParser.Table.GenerateCode | internal/mysql/sql.go:104-130 | the fields end up tagged as Tagged says, and the result is the rendering of the inlined template over the tagged table |
| MysqlParser.ParseField | internal/mysql/sql.go:77-95 | the statements that build a field give ParseColumn's result, failing at the first index out of range |
| MysqlParser.ParseCreateLine | internal/mysql/sql.go:65-70 | fails iff the line has no backtick, else sets the name and its camel-case form |
| MysqlParser.ParseEngineLine | internal/mysql/sql.go:71-75 | fails iff the line lacks `COMMENT='`, else sets the comment |
| MysqlParser.AddField | internal/mysql/sql.go:84-97 | appends the field and raises the time flag on a time type, changing nothing else |
| MysqlParser.ParseColumnLine | internal/mysql/sql.go:76-99 | fails with the column's fault, else records the parsed field |
| MysqlParser.ParseLine | internal/mysql/sql.go:64-99 | one loop iteration moves the table to the state Step gives, or reports Step's failure |
| MysqlParser.ParseMysqlDDL | internal/mysql/sql.go:60-103 | returns a fresh table holding exactly ParseDDL's state, or ParseDDL's error |
| TableGen.TrimRightQuoteAppend | internal/table/table.go:73 | trimming quotes after appending a quote is trimming the original |
| TableGen.DbPart | internal/table/table.go:71-77 | the quoted column value in closed form: the name in quotes without options, otherwise the head with trailing quotes trimmed, then the options and one quote |
| TableGen.RefTag | internal/table/table.go:71-81 | the whole tag in closed form: the column value, the json key when enabled, and a closing backtick |
| TableGen.DbPartShapes | internal/table/table.go:71-77 | the closed-form column value, in each of the four option cases, is the string the statements build |
| TableGen.BuildTag | internal/table/table.go:71-81 | the successive reassignments of `tag` produce the closed-form tag RefTag |
| TableGen.PlainTag | internal/table/table.go:71-81 | without options the tag is the quoted column name in backticks |
| TableGen.TagWithOptions | internal/table/table.go:72-77 | for a name not ending in a quote, PK and default sit inside the one quoted value: `key:"name;primary_key;default:v"` |
| TableGen.TagFrame | internal/table/table.go:71-81 | every tag starts with a backtick, the key and a colon, and ends with a backtick |
| TableGen.JsonTagToggle | internal/table/table.go:78-81 | turning json tags on inserts exactly ` json:"<name>"` before the closing backtick |
| TableGen.Tagged | internal/table/table.go:70-83 | tagging keeps the number and order of fields and every attribute other than the tag, and gives each field the tag RefTag describes |
| TableGen.TaggedIdempotent | internal/table/table.go:70-83 | generating tags twice gives the same fields as once |
| TableGen.Table.constructor | internal/table/table.go:48-57 | the object holds the given table value |
| TableGen.Table.GenerateCode | internal/table/table.go:68-91 | the loop writes the tag of every field in place and changes nothing else; the result is the rendering of the updated table |
| TableGen.MatchingPatterns | internal/table/table.go:129-133 | the positions of the patterns that match a name |
| TableGen.MatchingPatternsSnoc | internal/table/table.go:129-133 | one more pattern adds its own position to the matching positions exactly when it matches |
| TableGen.Copies | internal/table/table.go:129-133 | the inner loop adds exactly one copy of the table per matching pattern, and nothing but that table |
| TableGen.CopiesIffMatch | internal/table/table.go:129-133 | the inner loop adds something iff some pattern matches |
| TableGen.CopiesCount | internal/table/table.go:129-133 | the inner loop's output holds the table once per added copy and no other name |
| TableGen.Filtered | internal/table/table.go:127-135 | the nested loop's output: each table's copies, in table order |
| TableGen.FilterSpec | internal/table/table.go:123-136 | the input when there are no patterns, otherwise Filtered |
| TableGen.NameMatches | internal/table/table.go:138-148 | no patterns, or some pattern matches |
| TableGen.FilterTables | internal/table/table.go:123-136 | returns the input when there are no patterns, and otherwise the nested loop's output Filtered |
| TableGen.NameIsMatch | internal/table/table.go:138-148 | true iff there are no patterns or some pattern matches |
| TableGen.FilteredAppend | internal/table/table.go:127-135 | filtering a concatenation is the concatenation of the filtered parts, so input order is kept |
| TableGen.FilteredCount | internal/table/table.go:127-135 | each name occurs in the output as often as in the input times the number of patterns that match it |
| TableGen.FilteredCopyCount | internal/table/table.go:127-135 | each name occurs in the output as often as in the input times the copies the inner loop makes of it |
| TableGen.FilteredMembers | internal/table/table.go:127-135 | a name is in the output iff it is in the input and some pattern matches it |
| TableGen.FilterAgreesWithNameIsMatch | internal/table/table.go:123-148 | a name is in FilterTables' output iff it is in the input and NameIsMatch accepts it |

## Left out

- Template execution (`text/template`) and `utils.CommonInitialisms` (internal/mysql/sql.go:124-130, internal/table/table.go:84-90) are not modelled. Both `GenerateCode` methods take them as a parameter `render`. The table.go template text is only passed to that engine, so it is not part of this model.
- Database access in `GetDDLs`, `GetTables` and `Run` (internal/mysql/sql.go:133-183) is I/O and is left out. `GenerateFile` and the formatter calls (internal/table/table.go:93-121) are file and process I/O and are also left out.
- The debug print of the table comment (internal/mysql/sql.go:73) is output only.
- `utils.Underline2UpperCamelCase` and `utils.IsMatch` are not part of this model. They are the parameters `camel` and `isMatch`, so regular-expression semantics are not modelled.
- Strings are sequences of Unicode code points, not UTF-8 bytes. On valid UTF-8 the byte-wise Go functions used here (`Split`, `Contains`, `Replace`, `Trim` with an ASCII cutset, `line[0]` compared with a backtick) agree with their code-point versions. Invalid UTF-8 is not modelled.
- `Split` and `ReplaceAll` require a non-empty separator. Every call in the modelled code passes a constant non-empty one.
- MysqlParser.ParseMysqlDDL: a Go panic aborts the whole program. The model instead returns a `ParseError` naming the line and the failing index expression. The half-updated table at the moment of the panic is not returned.
- MysqlParser.Table.GenerateCode and TableGen.Table.GenerateCode: `Fields` is a `seq`, so aliasing of the Go slice's backing array by other holders of the slice is not modelled.
