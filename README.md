# db2struct: MySQL column types to a Go struct

db2struct reads the column metadata of a MySQL table and prints a Go struct
for it. This project models the two functions of `utils_mysql.go` that do the
actual work, and proves what they promise:

- `mysqlTypeToGoType` picks the Go type of one column. It looks at the
  column's `DATA_TYPE`, its nullability, the guregu style flag, and a
  display width. The width is taken from `COLUMN_TYPE` with the regular
  expression `\w+\((\d+)\)`. Modelled in `type_resolver.dfy` (module
  `TypeResolver`) as the function `ResolveGoType` over a datatype of Go type
  tokens, plus one lemma per branch of the switch.
- `generateMysqlTypes` builds the struct body. It gathers the column names
  from the map and sorts them with `sort.Strings`. Then, for each column, it
  appends a line holding the field name, the Go type and the optional gorm
  and json tags to a string that starts as `struct {`. Modelled in
  `struct_gen.dfy` (module `StructGen`) as methods with loops. The method
  `GenerateMysqlTypes` is proved equal to the specification function
  `Declaration`, and the layout, order and tag properties are proved about
  `Declaration`.
- `lex_order.dfy` (module `LexOrder`) holds Go's string order. It also holds
  `sort.Strings` as an in-place sort of an `array<string>`, and `SortedKeys`,
  the ascending listing of a set of names.

The Go type constants (`golangInt`, `sqlNullInt64`, `gureguNullInt`, …) and
`fmtFieldName(stringifyFirstChar(key))` are defined elsewhere in the package.
They enter the model as the parameter `Naming`: a function from type token to
text, and a function from column name to field name. The two type texts that
`utils_mysql.go` spells out itself, `"optional.String"` and `""`, are fixed in
`TypeText`.

Three behaviours of the code differ from what a reader might expect from the
names; the model follows the code:
- a non-nullable character column gets the literal `optional.String`, not a
  plain `string` (utils_mysql.go:164);
- a nullable temporal column gets `sqlNullTime` whether or not the guregu
  style is on (utils_mysql.go:165-169);
- no closing brace is appended: the result ends with the last field line
  (utils_mysql.go:118).

## Model

| member | source | states |
|---|---|---|
| TypeResolver.TypeText | utils_mysql.go:164 | `OptionalString` is the literal `optional.String` (line 164), `NoType` the empty string (line 189), and every other token the text of its Go constant |
| TypeResolver.UnlistedExactly | utils_mysql.go:130-189 | `FamilyOf`, the case lists of the switch: a DATA_TYPE falls through to `Unlisted` exactly when it is none of the 24 names the cases list |
| TypeResolver.MatchAtIff | utils_mysql.go:123 | `MatchAt`, a match of `\w+\((\d+)\)` around the `(` at p, holds exactly when a word character (`IsWordChar`, RE2's ASCII `\w`) precedes the `(` and one or more digits, and nothing else, run from it to a `)` |
| TypeResolver.MatchStartsInOrder | utils_mysql.go:123-124 | the \w+ of a match with a later `(` starts after the `(` of an earlier match, so the leftmost match that `FindStringSubmatch` reports is the one with the least `(` |
| TypeResolver.DecimalValueLeadingDigit | utils_mysql.go:127 | `DecimalValue`, `strconv.Atoi` on the captured digits, is the positional value read from the front: the first digit times 10 to the number of remaining digits, plus the value of the rest |
| TypeResolver.DecimalValueDigits | utils_mysql.go:127 | that value is below 10 to the number of digits, and its last decimal digit is the string's last digit |
| TypeResolver.FirstMatch | utils_mysql.go:123-124 | the position found is a match of `\w+\((\d+)\)` and no earlier position matches; `None` means no position matches |
| TypeResolver.DisplayWidth | utils_mysql.go:123-129 | 0 when the expression matches nowhere in COLUMN_TYPE; otherwise the decimal value of the digits captured by the leftmost match |
| TypeResolver.ResolveGoType | utils_mysql.go:122-190 | the token is `NoType` exactly for unlisted types; a non-nullable column never gets a nullable wrapper; a nullable column of any listed non-binary type always does; guregu types only for nullable columns with the flag on |
| TypeResolver.IntegerFamilyRule | utils_mysql.go:131-145 | tinyint/int/smallint/mediumint: a boolean type exactly when the width is 1 and not (nullable and guregu); otherwise int, guregu null int, or sql null int |
| TypeResolver.BigIntRule | utils_mysql.go:146-156 | bigint: int64 when not nullable, guregu null int with the flag, and sql null int64 exactly when nullable, without the flag and width at least 18 |
| TypeResolver.CharacterFamilyRule | utils_mysql.go:157-164 | character types: `optional.String` when not nullable, else the guregu or sql null string per flag |
| TypeResolver.TemporalIgnoresGuregu | utils_mysql.go:165-169 | date/datetime/time/timestamp: sql null time if nullable, else time, whatever the flag and width |
| TypeResolver.FloatingRule | utils_mysql.go:170-185 | decimal/double map to float64 and float to float32; nullable ones get the guregu or sql null float per flag |
| TypeResolver.BinaryIgnoresFlags | utils_mysql.go:186-187 | binary/blob types always give the byte slice, independent of width, nullability and flag |
| TypeResolver.UnlistedIsEmpty | utils_mysql.go:189 | an unlisted DATA_TYPE yields the empty type text |
| TypeResolver.NotNullableIgnoresGuregu | utils_mysql.go:130-189 | for a non-nullable column the guregu flag changes nothing |
| TypeResolver.WidthOnlyForIntegers | utils_mysql.go:130-189 | COLUMN_TYPE changes the result only for the integer family and bigint |
| TypeResolver.WidthWithoutParenthesis | utils_mysql.go:123-129 | a COLUMN_TYPE without `(` has width 0 |
| TypeResolver.TinyintOneIsBool | utils_mysql.go:131-143 | `tinyint(1)` has width 1 and a NOT NULL tinyint(1) is a bool |
| TypeResolver.IntElevenIsInt | utils_mysql.go:131-145 | `int(11)` has width 11 and a NOT NULL int(11) is an int |
| TypeResolver.DecimalPrecisionHasNoWidth | utils_mysql.go:123-129 | `decimal(10,2)` does not match the expression, so its width is 0 |
| TypeResolver.BigIntTwentyIsNullInt64 | utils_mysql.go:146-152 | a nullable `bigint(20) unsigned` without guregu is sql null int64 |
| TypeResolver.BigIntElevenIsNullInt | utils_mysql.go:146-154 | a nullable `bigint(11)` without guregu is sql null int, 11 being below 18 |
| LexOrder.LessEqFirstDifference | utils_mysql.go:78 | `LessEq`, Go's string `<=` that `sort.Strings` sorts by, holds exactly when the first string is a prefix of the second or, at the first position where they differ, has the smaller character |
| LexOrder.LessEqTotal | utils_mysql.go:78 | any two strings are comparable in Go's string order |
| LexOrder.LessEqAntisymmetric | utils_mysql.go:78 | two strings each at most the other are equal |
| LexOrder.LessEqTransitive | utils_mysql.go:78 | the string order is transitive |
| LexOrder.SortStrings | utils_mysql.go:78 | `sort.Strings` leaves the slice sorted and a permutation of its old contents |
| LexOrder.InsertIntoPrefix | utils_mysql.go:78 | one insertion step extends the sorted prefix by one element, keeps the contents, and leaves everything after the prefix where it was |
| LexOrder.MinKey | utils_mysql.go:78 | a non-empty set of names has a least element |
| LexOrder.SortedKeys | utils_mysql.go:74-78 | the listing of a set of names has one entry per name and holds exactly the names |
| LexOrder.SortedKeysAscending | utils_mysql.go:74-78 | that listing is strictly ascending |
| LexOrder.SortedKeysDistinct | utils_mysql.go:74-80 | each name is listed exactly once |
| LexOrder.AscendingListingUnique | utils_mysql.go:74-78 | a set has only one strictly ascending listing |
| LexOrder.SortedKeysUnique | utils_mysql.go:74-78 | any strictly ascending listing of exactly the names is `SortedKeys` |
| LexOrder.SortedListingOfSet | utils_mysql.go:74-78 | sorting the names gathered from the map, each once, gives `SortedKeys`, whatever order they were gathered in |
| StructGen.Field | utils_mysql.go:81-91 | reading a metadata entry as Go indexes a map: the stored value if present, the zero value `""` if not |
| StructGen.ColumnGoTypeDefaults | utils_mysql.go:81-91 | `ColumnGoType`, the type the loop body resolves from the column's metadata: no type when the `value` entry is missing; no nullable wrapper unless `nullable` is `YES`; always one when it is `YES` and the type is listed and not binary |
| StructGen.IsNullable | utils_mysql.go:82-85 | a column is nullable exactly when its `nullable` entry exists and is `YES`; anything else, absent included, is not nullable |
| StructGen.CollectColumnNames | utils_mysql.go:74-77 | ranging over the map in any order gathers every column name exactly once |
| StructGen.SortedColumnNames | utils_mysql.go:74-78 | after `sort.Strings` the slice is the ascending listing of the column names, independent of the iteration order |
| StructGen.ColumnLine | utils_mysql.go:81-116 | the loop body appends exactly `FieldLine` of the column |
| StructGen.GenerateMysqlTypes | utils_mysql.go:71-119 | the result is `Declaration`: `struct {` followed by the field line of every column in ascending order of name |
| StructGen.RankOfKey | utils_mysql.go:78-80 | the columns listed before a column are exactly those with smaller names |
| StructGen.ColumnLinePosition | utils_mysql.go:80-117 | the i-th column's line appears in the output right after the opening and the lines of the columns before it |
| StructGen.EmptyTableListing | utils_mysql.go:72-118 | a table without columns gives just `struct {` |
| StructGen.ListingEndsWithLastLine | utils_mysql.go:78-118 | the output ends with the line of the greatest column name: nothing, no closing brace, is appended after it |
| StructGen.OneLinePerColumn | utils_mysql.go:72-117 | when no name or metadata value holds a line break, the output holds exactly one line break per column |
| StructGen.ListingCount | utils_mysql.go:106-117 | lines with one line break each give one line break per column |
| StructGen.FieldLineHasOneBreak | utils_mysql.go:106-116 | when no column name, field name, type text or metadata value holds a line break, each field line holds exactly one |
| StructGen.LineBodyAvoids | utils_mysql.go:106-116 | a field line starts with a line break; when no column name, field name, type text or metadata value holds a line break, the rest of the line holds none; when none holds a backtick and no tag is on, the rest holds no backtick |
| StructGen.AnnotationLayout | utils_mysql.go:94-105 | `Annotations` and its `Join`: no tags exactly when both flags are off; gorm then json, joined by one space, when both are on; a single tag otherwise |
| StructGen.BacktickIffTagged | utils_mysql.go:106-116 | a line holds a backtick exactly when gorm or json tags are on, given no backtick in names, types or metadata |
| StructGen.TaggedLineHasBacktick | utils_mysql.go:106-110 | a line with tags holds the opening backtick |
| StructGen.DefaultValueRecovered | utils_mysql.go:96-99 | `DefaultClause`: empty exactly when the default is empty, otherwise `default:'`, the default value unchanged, and `'` |
| StructGen.GormTagFrame | utils_mysql.go:100 | `GormTag` starts with `gorm:"column:` and the column name and ends with the default clause and the closing quote |
| StructGen.JsonTagFrame | utils_mysql.go:104 | `JsonTag` is `json:"`, the column name unchanged, and `"` |
| StructGen.JoinAppend | utils_mysql.go:110 | `Join`, `strings.Join`: joining one more part appends exactly one separator and then that part, so the parts stay in order with a separator between each pair of neighbours |
| StructGen.JoinLayout | utils_mysql.go:110 | `Join` is empty for no parts; otherwise it starts with the first part, ends with the last, and its length is the parts' total plus one separator per pair of neighbours |
| StructGen.FieldLineShape | utils_mysql.go:106-116 | `FieldLine`: a line break, the field name, a space and the type text, followed, when there are tags, by a space and the joined tags in backticks |
| StructGen.GormDefaultClause | utils_mysql.go:95-100 | the gorm tag names the column, COLUMN_TYPE and extra, then ends with `default:'<v>'` and the closing quote when the default `v` is non-empty, or with the closing quote alone when it is empty |
| StructGen.SingleColumnDeclaration | utils_mysql.go:71-119 | a one-column table gives the opening followed by that column's line |
| StructGen.TwoColumnDeclaration | utils_mysql.go:74-117 | two columns come out in ascending order of name, whatever the map |
| StructGen.IdColumnType | utils_mysql.go:91 | a NOT NULL `int(11)` id column resolves to int |
| StructGen.IdColumnLine | utils_mysql.go:91-110 | with json tags only, that column renders as its field name, the int type and `json:"id"` in backticks |
| StructGen.IdColumnExample | utils_mysql.go:71-119 | the whole output for a table holding only that column |
| StructGen.OrderExample | utils_mysql.go:74-117 | `id` is emitted before `name` |

## Left out

- `GetColumnsFromMysqlTable` (utils_mysql.go:15-68) is database I/O: building the DSN, opening the connection, querying `INFORMATION_SCHEMA.COLUMNS` and logging. Its result is the `Columns` map. For each column it holds `value` (DATA_TYPE), `type` (COLUMN_TYPE), `nullable` (IS_NULLABLE), `default` (COLUMN_DEFAULT) and `extra`. `extra` is `AUTO_INCREMENT` for the column named `id` and empty for all others. The model accepts any such map and does not rely on those values.
- The regular-expression engine is not modelled as such. `DisplayWidth` is specified directly: the digits captured by the leftmost match of `\w+\((\d+)\)`, and 0 when there is no match.
- DisplayWidth: `strconv.Atoi` is modelled on unbounded integers. Go clamps a value beyond the int range to the largest int. Only `== 1` and `>= 18` are ever tested, and for such values both give the same answers.
- `fmt.Sprintf` and `strings.Join` are modelled as string concatenation of the pieces they format.
- `fmtFieldName`, `stringifyFirstChar` and the Go type-name constants are defined outside `utils_mysql.go`. They are not part of this model and enter it as the `Naming` parameter.
- SortStrings: the model sorts by insertion; Go's `sort.Strings` uses another algorithm. Column names are distinct, so every correct sort gives the same result.
- LessEq: Go compares strings byte by byte in UTF-8. The model compares Unicode scalar values one by one, which gives the same order for valid UTF-8. Names that are not valid UTF-8 are not modelled.
- GenerateMysqlTypes: the `depth` parameter is unused in the source and is unused here too.
- Go appends to slices in place, and the model rebuilds `seq` values instead. Only the `sort.Strings` step keeps an `array` updated in place.
- The generation of conversion statements between model and logic types is not in `utils_mysql.go` and is not modelled.
- OneLinePerColumn, FieldLineHasOneBreak, LineBodyAvoids: the one-line-per-column layout holds only when no column name, field name, type text or metadata value contains a line break. The source embeds COLUMN_TYPE, extra and COLUMN_DEFAULT verbatim in the gorm tag (utils_mysql.go:98-100), so a default holding a line break gives a field line with two.
- The `Debug` switch and the logging belong to `GetColumnsFromMysqlTable` and are not modelled.
