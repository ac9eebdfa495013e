/** generateMysqlTypes: the body of a Go struct for one table, one field line
    per column, columns in ascending order of name, each line optionally
    carrying gorm and json struct tags. */
module StructGen {
  import opened TypeResolver
  import opened LexOrder

  /** One column's metadata as GetColumnsFromMysqlTable delivers it, keyed by
      "value" (DATA_TYPE), "type" (COLUMN_TYPE), "nullable" (IS_NULLABLE),
      "default" (COLUMN_DEFAULT) and "extra". */
  type Column = map<string, string>

  /** The table: column name to its metadata. */
  type Columns = map<string, Column>

  /** What utils_mysql.go takes from elsewhere in the package: the text of each
      Go type constant, and fmtFieldName(stringifyFirstChar(key)). */
  datatype Naming = Naming(typeName: GoType -> string, fieldName: string -> string)

  /** The three flags generateMysqlTypes reads. */
  datatype Style = Style(jsonAnnotation: bool, gormAnnotation: bool, gureguTypes: bool)

  const STRUCT_OPEN := "struct {"

  /** Indexing a Go map: a missing entry reads as the zero value "". */
  function Field(col: Column, name: string): (v: string)
    ensures name in col ==> v == col[name]
    ensures name !in col ==> v == ""
  {
    if name in col then col[name] else ""
  }

  /** A column is nullable exactly when its "nullable" entry is "YES". */
  function IsNullable(col: Column): (b: bool)
    ensures b <==> "nullable" in col && col["nullable"] == "YES"
  {
    Field(col, "nullable") == "YES"
  }

  function ColumnGoType(col: Column, gureguTypes: bool): GoType {
    ResolveGoType(Field(col, "value"), Field(col, "type"), IsNullable(col), gureguTypes)
  }

  /** The type of a column read from its metadata as Go reads a map: a column
      without a "value" entry has no type, one whose "nullable" entry is
      missing or not "YES" never gets a nullable wrapper, and one marked
      nullable with a listed non-binary type always does. */
  lemma ColumnGoTypeDefaults(col: Column, gureguTypes: bool)
    ensures "value" !in col ==> ColumnGoType(col, gureguTypes) == NoType
    ensures !("nullable" in col && col["nullable"] == "YES") ==> !ColumnGoType(col, gureguTypes).IsNullWrapper()
    ensures "nullable" in col && col["nullable"] == "YES"
            && FamilyOf(Field(col, "value")) != Unlisted && FamilyOf(Field(col, "value")) != BinaryFamily
            ==> ColumnGoType(col, gureguTypes).IsNullWrapper()
  {
    if "value" !in col {
      assert FamilyOf("") == Unlisted;
    }
  }

  /** The default-value clause of the gorm tag, the value embedded unescaped. */
  function DefaultClause(col: Column): string {
    if Field(col, "default") != "" then "default:'" + Field(col, "default") + "'" else ""
  }

  function GormTag(key: string, columnType: string, extra: string, def: string): string {
    "gorm:\"column:" + key + "; type:" + columnType + " " + extra + ";" + def + "\""
  }

  function JsonTag(key: string): string {
    "json:\"" + key + "\""
  }

  /** The tags of one field, gorm first. */
  function Annotations(key: string, col: Column, style: Style): seq<string> {
    (if style.gormAnnotation
     then [GormTag(key, Field(col, "type"), Field(col, "extra"), DefaultClause(col))]
     else [])
    + (if style.jsonAnnotation then [JsonTag(key)] else [])
  }

  /** strings.Join. */
  function Join(parts: seq<string>, sep: string): string {
    if |parts| == 0 then ""
    else if |parts| == 1 then parts[0]
    else parts[0] + sep + Join(parts[1..], sep)
  }

  /** The line generateMysqlTypes emits for one column. */
  function FieldLine(key: string, col: Column, style: Style, naming: Naming): string {
    var head := "\n" + naming.fieldName(key) + " " + TypeText(naming.typeName, ColumnGoType(col, style.gureguTypes));
    var tags := Annotations(key, col, style);
    if |tags| > 0 then head + " `" + Join(tags, " ") + "`" else head
  }

  function LineOf(style: Style, naming: Naming): (string, Column) -> string {
    (key, col) => FieldLine(key, col, style, naming)
  }

  /** The lines of the given columns in the given order, one column rendered
      by `render`. */
  function Lines(obj: Columns, keys: seq<string>, render: (string, Column) -> string): string
    requires forall i :: 0 <= i < |keys| ==> keys[i] in obj
  {
    if keys == [] then ""
    else
      var last := keys[|keys| - 1];
      Lines(obj, keys[..|keys| - 1], render) + render(last, obj[last])
  }

  /** The opening, then the lines of all columns in ascending order of name,
      one column rendered by `render`; no closing brace. */
  ghost function Listing(obj: Columns, render: (string, Column) -> string): string {
    STRUCT_OPEN + Lines(obj, SortedKeys(obj.Keys), render)
  }

  /** What generateMysqlTypes returns: the listing of the field lines. */
  ghost function Declaration(obj: Columns, style: Style, naming: Naming): string {
    Listing(obj, LineOf(style, naming))
  }

  /** The column names appended to a slice while ranging over the map. The
      range visits the map in an arbitrary order (`:|`), as Go's map iteration
      does: all that is known is that each name comes out once. */
  method CollectColumnNames(obj: Columns) returns (keys: seq<string>)
    ensures multiset(keys) == multiset(obj.Keys)
  {
    keys := [];
    var remaining := obj.Keys;
    ghost var seen: set<string> := {};
    while remaining != {}
      invariant seen + remaining == obj.Keys && seen !! remaining
      invariant multiset(keys) == multiset(seen)
      decreases |remaining|
    {
      var key :| key in remaining;
      assert multiset(seen + {key}) == multiset(seen) + multiset{key};
      keys := keys + [key];
      remaining := remaining - {key};
      seen := seen + {key};
    }
  }

  /** The column names in the order generateMysqlTypes emits them: gathered,
      then sorted in place with sort.Strings. Whatever order the map was ranged
      in, the result is the ascending listing of the names. */
  method SortedColumnNames(obj: Columns) returns (keys: array<string>)
    ensures fresh(keys)
    ensures keys[..] == SortedKeys(obj.Keys)
    ensures forall j :: 0 <= j < keys.Length ==> keys[j] in obj
  {
    var names := CollectColumnNames(obj);
    keys := new string[|names|](i requires 0 <= i < |names| => names[i]);
    assert keys[..] == names;
    SortStrings(keys);
    SortedListingOfSet(keys[..], obj.Keys);
    forall j | 0 <= j < keys.Length
      ensures keys[j] in obj
    {
      assert keys[..][j] in keys[..];
    }
  }

  /** generateMysqlTypes: the opening, then one line per column in ascending
      order of name. `depth` is not used, as in the source. */
  method GenerateMysqlTypes(obj: Columns, depth: int, jsonAnnotation: bool, gormAnnotation: bool,
                            gureguTypes: bool, naming: Naming)
    returns (structure: string)
    ensures structure == Declaration(obj, Style(jsonAnnotation, gormAnnotation, gureguTypes), naming)
  {
    structure := STRUCT_OPEN;
    var keys := SortedColumnNames(obj);
    ghost var ks := keys[..];

    ghost var style := Style(jsonAnnotation, gormAnnotation, gureguTypes);
    ghost var render := LineOf(style, naming);
    for i := 0 to keys.Length
      invariant keys[..] == ks
      invariant structure == STRUCT_OPEN + Lines(obj, ks[..i], render)
    {
      var key := keys[i];
      var mysqlType := obj[key];
      var line := ColumnLine(key, mysqlType, jsonAnnotation, gormAnnotation, gureguTypes, naming);
      assert line == render(key, mysqlType);
      LinesStep(obj, ks, i, render);
      AppendAssociative(STRUCT_OPEN, Lines(obj, ks[..i], render), line);
      structure := structure + line;
    }
    assert ks[..keys.Length] == ks;
  }

  /** The body of generateMysqlTypes' column loop: the field line of one
      column. */
  method ColumnLine(key: string, mysqlType: Column, jsonAnnotation: bool, gormAnnotation: bool,
                    gureguTypes: bool, naming: Naming)
    returns (line: string)
    ensures line == FieldLine(key, mysqlType, Style(jsonAnnotation, gormAnnotation, gureguTypes), naming)
  {
    var nullable := false;
    if Field(mysqlType, "nullable") == "YES" {
      nullable := true;
    }
    var valueType := TypeText(naming.typeName,
      ResolveGoType(Field(mysqlType, "value"), Field(mysqlType, "type"), nullable, gureguTypes));
    var fieldName := naming.fieldName(key);
    assert valueType == TypeText(naming.typeName, ColumnGoType(mysqlType, gureguTypes));

    var annotations: seq<string> := [];
    if gormAnnotation {
      var def := "";
      if Field(mysqlType, "default") != "" {
        def := "default:'" + Field(mysqlType, "default") + "'";
      }
      assert def == DefaultClause(mysqlType);
      annotations := annotations + [GormTag(key, Field(mysqlType, "type"), Field(mysqlType, "extra"), def)];
    }
    if jsonAnnotation {
      annotations := annotations + [JsonTag(key)];
    }
    assert annotations == Annotations(key, mysqlType, Style(jsonAnnotation, gormAnnotation, gureguTypes));
    if |annotations| > 0 {
      line := "\n" + fieldName + " " + valueType + " `" + Join(annotations, " ") + "`";
    } else {
      line := "\n" + fieldName + " " + valueType;
    }
  }

  /** Extending the listing by one key appends that key's line. */
  lemma LinesStep(obj: Columns, ks: seq<string>, i: int, render: (string, Column) -> string)
    requires forall j :: 0 <= j < |ks| ==> ks[j] in obj
    requires 0 <= i < |ks|
    ensures Lines(obj, ks[..i + 1], render) == Lines(obj, ks[..i], render) + render(ks[i], obj[ks[i]])
  {
    assert ks[..i + 1][..i] == ks[..i];
  }

  // ---------------------------------------------------------------------------
  // Layout of the declaration
  // ---------------------------------------------------------------------------

  lemma {:induction false} LinesAppend(obj: Columns, a: seq<string>, b: seq<string>, render: (string, Column) -> string)
    requires forall i :: 0 <= i < |a| ==> a[i] in obj
    requires forall i :: 0 <= i < |b| ==> b[i] in obj
    ensures forall i :: 0 <= i < |a + b| ==> (a + b)[i] in obj
    ensures Lines(obj, a + b, render) == Lines(obj, a, render) + Lines(obj, b, render)
    decreases |b|
  {
    assert forall i :: 0 <= i < |a + b| ==> (a + b)[i] in obj by {
      forall i | 0 <= i < |a + b|
        ensures (a + b)[i] in obj
      {
        if i >= |a| {
          assert (a + b)[i] == b[i - |a|];
        }
      }
    }
    if b == [] {
      assert a + b == a;
    } else {
      var b', last := b[..|b| - 1], b[|b| - 1];
      assert (a + b)[..|a + b| - 1] == a + b';
      assert (a + b)[|a + b| - 1] == last;
      LinesAppend(obj, a, b', render);
      assert Lines(obj, b, render) == Lines(obj, b', render) + render(last, obj[last]);
      assert Lines(obj, a + b, render) == Lines(obj, a + b', render) + render(last, obj[last]);
    }
  }

  /** In any listing, the line of keys[i] follows the lines of keys[..i]. */
  lemma LineAt(obj: Columns, keys: seq<string>, render: (string, Column) -> string, i: int)
    requires forall j :: 0 <= j < |keys| ==> keys[j] in obj
    requires 0 <= i < |keys|
    ensures var off := |Lines(obj, keys[..i], render)|;
            var line := render(keys[i], obj[keys[i]]);
            && off + |line| <= |Lines(obj, keys, render)|
            && Lines(obj, keys, render)[off..off + |line|] == line
  {
    var key := keys[i];
    assert keys == keys[..i] + [key] + keys[i + 1..];
    LinesAppend(obj, keys[..i], [key], render);
    LinesAppend(obj, keys[..i] + [key], keys[i + 1..], render);
    assert Lines(obj, [key], render) == render(key, obj[key]) by {
      assert [key][..0] == [];
    }
  }

  /** The i-th smallest name: exactly the smaller names come before it. */
  lemma RankOfKey(s: set<string>, i: int)
    requires 0 <= i < |s|
    ensures var ks := SortedKeys(s);
            && ks[i] in s
            && forall k :: k in ks[..i] <==> k in s && Less(k, ks[i])
  {
    var ks := SortedKeys(s);
    SortedKeysAscending(s);
    var key := ks[i];
    assert key in ks;
    forall k
      ensures k in ks[..i] <==> k in s && Less(k, key)
    {
      if k in ks[..i] {
        var j :| 0 <= j < i && ks[..i][j] == k;
        assert ks[j] == k;
      }
      if k in s && Less(k, key) {
        assert k in ks;
        var j :| 0 <= j < |ks| && ks[j] == k;
        if j > i {
          LessEqAntisymmetric(k, key);
          assert false;
        }
        assert j != i;
        assert ks[..i][j] == k;
      }
    }
  }

  /** The line of the i-th column in ascending order sits right after the
      opening and the lines of the columns before it, which by RankOfKey are
      exactly the columns whose names are smaller. Declaration is the listing
      whose rendering is LineOf(style, naming). */
  lemma ColumnLinePosition(obj: Columns, render: (string, Column) -> string, i: int)
    requires 0 <= i < |obj.Keys|
    ensures var ks := SortedKeys(obj.Keys);
            var key := ks[i];
            var line := render(key, obj[key]);
            var off := |STRUCT_OPEN| + |Lines(obj, ks[..i], render)|;
            && key in obj
            && off + |line| <= |Listing(obj, render)|
            && Listing(obj, render)[off..off + |line|] == line
  {
    PrefixedLineAt(obj, SortedKeys(obj.Keys), render, i);
  }

  lemma PrefixedLineAt(obj: Columns, keys: seq<string>, render: (string, Column) -> string, i: int)
    requires forall j :: 0 <= j < |keys| ==> keys[j] in obj
    requires 0 <= i < |keys|
    ensures var off := |STRUCT_OPEN| + |Lines(obj, keys[..i], render)|;
            var line := render(keys[i], obj[keys[i]]);
            var all := STRUCT_OPEN + Lines(obj, keys, render);
            && off + |line| <= |all|
            && all[off..off + |line|] == line
  {
    LineAt(obj, keys, render, i);
    var off := |Lines(obj, keys[..i], render)|;
    SliceOfAppend(STRUCT_OPEN, Lines(obj, keys, render), off, off + |render(keys[i], obj[keys[i]])|);
  }

  lemma AppendAssociative(a: string, b: string, c: string)
    ensures a + b + c == a + (b + c)
  {
  }

  lemma SliceOfAppend(a: string, b: string, x: int, y: int)
    requires 0 <= x <= y <= |b|
    ensures (a + b)[|a| + x..|a| + y] == b[x..y]
  {
  }

  // ---------------------------------------------------------------------------
  // One line per column
  // ---------------------------------------------------------------------------

  function CountChar(c: char, s: string): nat {
    if s == [] then 0 else (if s[0] == c then 1 else 0) + CountChar(c, s[1..])
  }

  lemma {:induction false} CountCharAppend(c: char, a: string, b: string)
    ensures CountChar(c, a + b) == CountChar(c, a) + CountChar(c, b)
  {
    if a != [] {
      assert (a + b)[1..] == a[1..] + b;
      CountCharAppend(c, a[1..], b);
    } else {
      assert a + b == b;
    }
  }

  lemma {:induction false} CountCharAbsent(c: char, s: string)
    requires c !in s
    ensures CountChar(c, s) == 0
  {
    if s != [] {
      assert forall k :: 0 <= k < |s[1..]| ==> s[1..][k] == s[k + 1];
      CountCharAbsent(c, s[1..]);
    }
  }

  lemma {:induction false} JoinAvoids(c: char, parts: seq<string>, sep: string)
    requires c !in sep
    requires forall i :: 0 <= i < |parts| ==> c !in parts[i]
    ensures c !in Join(parts, sep)
    decreases |parts|
  {
    if |parts| > 1 {
      JoinAvoids(c, parts[1..], sep);
    }
  }

  /** Character c occurs in no column name, no metadata value, no field name
      and no type name. */
  ghost predicate Avoids(obj: Columns, naming: Naming, c: char) {
    && (forall t :: c !in naming.typeName(t))
    && (forall k :: k in obj ==> c !in k && c !in naming.fieldName(k))
    && (forall k, f :: k in obj && f in obj[k] ==> c !in obj[k][f])
  }

  /** The two characters the layout of a line relies on: the line break that
      starts it and the backtick around its tags. */
  predicate IsLayoutChar(c: char) {
    c == '\n' || c == '`'
  }

  lemma GormTagAvoids(key: string, columnType: string, extra: string, def: string, c: char)
    requires IsLayoutChar(c)
    requires c !in key && c !in columnType && c !in extra && c !in def
    ensures c !in GormTag(key, columnType, extra, def)
  {
  }

  lemma TagsAvoid(key: string, col: Column, style: Style, c: char)
    requires IsLayoutChar(c) && c !in key
    requires forall f :: f in col ==> c !in col[f]
    ensures c !in Join(Annotations(key, col, style), " ")
  {
    var tags := Annotations(key, col, style);
    assert c !in DefaultClause(col);
    GormTagAvoids(key, Field(col, "type"), Field(col, "extra"), DefaultClause(col), c);
    assert c !in JsonTag(key);
    JoinAvoids(c, tags, " ");
  }

  /** A field line is a line break followed by the field name, the type and
      the tags, if any, between backticks. */
  lemma FieldLineShape(key: string, col: Column, style: Style, naming: Naming)
    ensures var typeText := TypeText(naming.typeName, ColumnGoType(col, style.gureguTypes));
            var tags := Annotations(key, col, style);
            FieldLine(key, col, style, naming)
            == "\n" + (naming.fieldName(key) + " " + typeText
                       + (if |tags| > 0 then " `" + Join(tags, " ") + "`" else ""))
  {
  }

  /** The total length of the parts. */
  function TotalLength(parts: seq<string>): nat
    decreases |parts|
  {
    if |parts| == 0 then 0 else |parts[0]| + TotalLength(parts[1..])
  }

  /** strings.Join puts the first part first and the last part last, with one
      separator between neighbouring parts and nothing else added. */
  lemma {:induction false} JoinLayout(parts: seq<string>, sep: string)
    ensures |parts| == 0 ==> Join(parts, sep) == ""
    ensures |parts| > 0 ==> |Join(parts, sep)| == TotalLength(parts) + (|parts| - 1) * |sep|
    ensures |parts| > 0 ==> |parts[0]| <= |Join(parts, sep)| && Join(parts, sep)[..|parts[0]|] == parts[0]
    ensures |parts| > 0 ==> var last := parts[|parts| - 1];
                            && |last| <= |Join(parts, sep)|
                            && Join(parts, sep)[|Join(parts, sep)| - |last|..] == last
    decreases |parts|
  {
    if |parts| == 1 {
      assert parts[1..] == [];
    } else if |parts| > 1 {
      var rest := parts[1..];
      JoinLayout(rest, sep);
      var r := Join(rest, sep);
      assert Join(parts, sep) == parts[0] + sep + r;
      assert rest[|rest| - 1] == parts[|parts| - 1];
      assert (|rest| - 1) * |sep| + |sep| == (|parts| - 1) * |sep|;
      var last := parts[|parts| - 1];
      assert |last| <= |r|;
      assert (parts[0] + sep + r)[|parts[0] + sep + r| - |last|..] == r[|r| - |last|..];
    }
  }

  /** Joining one more part adds exactly one separator and then the part:
      strings.Join places the separator between each pair of neighbours and
      keeps the parts in order. */
  lemma {:induction false} JoinAppend(parts: seq<string>, part: string, sep: string)
    requires |parts| > 0
    ensures Join(parts + [part], sep) == Join(parts, sep) + sep + part
    decreases |parts|
  {
    var all := parts + [part];
    if |parts| == 1 {
      assert all[1..] == [part];
    } else {
      assert all[1..] == parts[1..] + [part];
      JoinAppend(parts[1..], part, sep);
    }
  }

  /** The column's default value can be read back from its clause: the clause
      is empty exactly when the default is, and otherwise holds the value
      unchanged between `default:'` and the closing `'`. */
  lemma DefaultValueRecovered(col: Column)
    ensures var d := DefaultClause(col);
            var v := Field(col, "default");
            && (d == "" <==> v == "")
            && (d != "" ==> |d| == |v| + 10 && d[..9] == "default:'" && d[9..|d| - 1] == v && d[|d| - 1] == '\'')
  {
  }

  /** The gorm tag starts with the column name and ends with the default
      clause and the closing quote. */
  lemma GormTagFrame(key: string, columnType: string, extra: string, def: string)
    ensures var g := GormTag(key, columnType, extra, def);
            && 13 + |key| + |def| < |g|
            && g[..13 + |key|] == "gorm:\"column:" + key
            && g[|g| - 1 - |def|..] == def + "\""
  {
    var g := GormTag(key, columnType, extra, def);
    var middle := "; type:" + columnType + " " + extra + ";";
    assert g == ("gorm:\"column:" + key) + middle + (def + "\"");
  }

  /** The json tag holds the column name unchanged between its quotes. */
  lemma JsonTagFrame(key: string)
    ensures var j := JsonTag(key);
            && |j| == |key| + 7
            && j[..6] == "json:\"" && j[6..|j| - 1] == key && j[|j| - 1] == '"'
  {
  }

  /** The line minus its leading line break avoids c. */
  lemma LineBodyAvoids(obj: Columns, key: string, style: Style, naming: Naming, c: char)
    requires key in obj && Avoids(obj, naming, c) && IsLayoutChar(c)
    ensures FieldLine(key, obj[key], style, naming)[0] == '\n'
    ensures c == '\n' || (!style.gormAnnotation && !style.jsonAnnotation)
            ==> c !in FieldLine(key, obj[key], style, naming)[1..]
  {
    var col := obj[key];
    var typeText := TypeText(naming.typeName, ColumnGoType(col, style.gureguTypes));
    var tags := Annotations(key, col, style);
    TypeTextAvoids(naming.typeName, ColumnGoType(col, style.gureguTypes), c);
    TagsAvoid(key, col, style, c);
    FieldLineShape(key, col, style, naming);
    var body := naming.fieldName(key) + " " + typeText
                + (if |tags| > 0 then " `" + Join(tags, " ") + "`" else "");
    AfterFirst('\n', body);
  }

  lemma TypeTextAvoids(typeName: GoType -> string, t: GoType, c: char)
    requires IsLayoutChar(c) && forall u :: c !in typeName(u)
    ensures c !in TypeText(typeName, t)
  {
  }

  lemma AfterFirst(c: char, s: string)
    ensures ([c] + s)[0] == c && ([c] + s)[1..] == s
  {
  }

  lemma FieldLineHasOneBreak(obj: Columns, key: string, style: Style, naming: Naming)
    requires key in obj && Avoids(obj, naming, '\n')
    ensures CountChar('\n', FieldLine(key, obj[key], style, naming)) == 1
  {
    var line := FieldLine(key, obj[key], style, naming);
    LineBodyAvoids(obj, key, style, naming, '\n');
    CountCharAbsent('\n', line[1..]);
    assert line == [line[0]] + line[1..];
    CountCharAppend('\n', [line[0]], line[1..]);
  }

  /** When no name and no metadata value contains a line break, the
      declaration has exactly one line break per column: each column's line
      begins with one, and the opening has none. */
  lemma OneLinePerColumn(obj: Columns, style: Style, naming: Naming)
    requires Avoids(obj, naming, '\n')
    ensures CountChar('\n', Declaration(obj, style, naming)) == |obj.Keys|
  {
    var render := LineOf(style, naming);
    forall k | k in obj
      ensures CountChar('\n', render(k, obj[k])) == 1
    {
      FieldLineHasOneBreak(obj, k, style, naming);
    }
    ListingCount(obj, render);
  }

  /** A listing whose every line holds one line break holds one per column. */
  lemma ListingCount(obj: Columns, render: (string, Column) -> string)
    requires forall k :: k in obj ==> CountChar('\n', render(k, obj[k])) == 1
    ensures CountChar('\n', Listing(obj, render)) == |obj.Keys|
  {
    var ks := SortedKeys(obj.Keys);
    LinesCount(obj, ks, render);
    CountCharAppend('\n', STRUCT_OPEN, Lines(obj, ks, render));
    CountCharAbsent('\n', STRUCT_OPEN);
  }

  /** A table without columns declares just the opening. */
  lemma EmptyTableListing(render: (string, Column) -> string)
    ensures Listing(map[], render) == STRUCT_OPEN
  {
    var obj: Columns := map[];
    assert SortedKeys(obj.Keys) == [];
    assert STRUCT_OPEN + "" == STRUCT_OPEN;
  }

  /** Nothing follows the line of the greatest column name: no closing brace
      is appended. */
  lemma ListingEndsWithLastLine(obj: Columns, render: (string, Column) -> string)
    requires |obj| > 0
    ensures var ks := SortedKeys(obj.Keys);
            var last := ks[|ks| - 1];
            var line := render(last, obj[last]);
            && last in obj
            && (forall k :: k in obj ==> LessEq(k, last))
            && |line| <= |Listing(obj, render)|
            && Listing(obj, render)[|Listing(obj, render)| - |line|..] == line
  {
    var ks := SortedKeys(obj.Keys);
    var last := ks[|ks| - 1];
    RankOfKey(obj.Keys, |ks| - 1);
    forall k | k in obj
      ensures LessEq(k, last)
    {
      if k != last {
        assert k in ks[..|ks| - 1] by {
          assert k in ks;
          var j :| 0 <= j < |ks| && ks[j] == k;
          assert ks[..|ks| - 1][j] == k;
        }
      } else {
        LessEqReflexive(k);
      }
    }
    var head := STRUCT_OPEN + Lines(obj, ks[..|ks| - 1], render);
    var line := render(last, obj[last]);
    assert Listing(obj, render) == head + line;
    SplitAt(head, line);
  }

  lemma {:induction false} LinesCount(obj: Columns, keys: seq<string>, render: (string, Column) -> string)
    requires forall i :: 0 <= i < |keys| ==> keys[i] in obj
    requires forall i :: 0 <= i < |keys| ==> CountChar('\n', render(keys[i], obj[keys[i]])) == 1
    ensures CountChar('\n', Lines(obj, keys, render)) == |keys|
    decreases |keys|
  {
    if keys != [] {
      var last := keys[|keys| - 1];
      LinesCount(obj, keys[..|keys| - 1], render);
      CountCharAppend('\n', Lines(obj, keys[..|keys| - 1], render), render(last, obj[last]));
    }
  }

  // ---------------------------------------------------------------------------
  // Struct tags
  // ---------------------------------------------------------------------------

  /** Which tags a line carries and in what order: gorm before json, joined by a
      single space; none at all when both flags are off. */
  lemma AnnotationLayout(key: string, col: Column, style: Style)
    ensures var tags := Annotations(key, col, style);
            var gorm := GormTag(key, Field(col, "type"), Field(col, "extra"), DefaultClause(col));
            && (|tags| == 0 <==> !style.gormAnnotation && !style.jsonAnnotation)
            && (style.gormAnnotation && style.jsonAnnotation ==> Join(tags, " ") == gorm + " " + JsonTag(key))
            && (style.gormAnnotation && !style.jsonAnnotation ==> Join(tags, " ") == gorm)
            && (!style.gormAnnotation && style.jsonAnnotation ==> Join(tags, " ") == JsonTag(key))
  {
  }

  /** A line has a backtick exactly when some tag is on, provided no name,
      type text or metadata value contains one. */
  lemma BacktickIffTagged(obj: Columns, key: string, style: Style, naming: Naming)
    requires key in obj && Avoids(obj, naming, '`')
    ensures '`' in FieldLine(key, obj[key], style, naming) <==> style.gormAnnotation || style.jsonAnnotation
  {
    var line := FieldLine(key, obj[key], style, naming);
    if style.gormAnnotation || style.jsonAnnotation {
      TaggedLineHasBacktick(key, obj[key], style, naming);
    } else {
      LineBodyAvoids(obj, key, style, naming, '`');
      assert line == [line[0]] + line[1..];
    }
  }

  lemma TaggedLineHasBacktick(key: string, col: Column, style: Style, naming: Naming)
    requires style.gormAnnotation || style.jsonAnnotation
    ensures '`' in FieldLine(key, col, style, naming)
  {
    var tags := Annotations(key, col, style);
    var tail := " `" + Join(tags, " ") + "`";
    var front := naming.fieldName(key) + " " + TypeText(naming.typeName, ColumnGoType(col, style.gureguTypes));
    assert |tags| > 0;
    FieldLineShape(key, col, style, naming);
    var line := FieldLine(key, col, style, naming);
    assert line == "\n" + (front + tail);
    assert tail[1] == '`';
    assert line[1 + |front| + 1] == tail[1];
  }

  /** The gorm tag names the column and its COLUMN_TYPE and extra, and then
      carries a default clause exactly when the column has a non-empty
      default, the value embedded verbatim between single quotes. */
  lemma GormDefaultClause(key: string, col: Column)
    ensures var gorm := GormTag(key, Field(col, "type"), Field(col, "extra"), DefaultClause(col));
            var head := "gorm:\"column:" + key + "; type:" + Field(col, "type") + " " + Field(col, "extra") + ";";
            var v := Field(col, "default");
            && |head| < |gorm|
            && gorm[..|head|] == head
            && (v == "" ==> gorm[|head|..] == "\"")
            && (v != "" ==> gorm[|head|..] == "default:'" + v + "'\"")
  {
    var head := "gorm:\"column:" + key + "; type:" + Field(col, "type") + " " + Field(col, "extra") + ";";
    var rest := DefaultClause(col) + "\"";
    assert GormTag(key, Field(col, "type"), Field(col, "extra"), DefaultClause(col)) == head + rest;
    SplitAt(head, rest);
  }

  lemma SplitAt(a: string, b: string)
    ensures (a + b)[..|a|] == a && (a + b)[|a|..] == b
  {
  }

  // ---------------------------------------------------------------------------
  // Examples
  // ---------------------------------------------------------------------------

  /** A table of one column declares just that column's line. */
  lemma SingleColumnDeclaration(key: string, col: Column, style: Style, naming: Naming)
    ensures Declaration(map[key := col], style, naming) == STRUCT_OPEN + FieldLine(key, col, style, naming)
  {
    var obj := map[key := col];
    assert obj.Keys == {key};
    SortedKeysUnique([key], {key});
    assert [key][..0] == [];
    var line := FieldLine(key, col, style, naming);
    assert LineOf(style, naming)(key, col) == line;
    assert Lines(obj, [key], LineOf(style, naming)) == "" + line;
    assert "" + line == line;
  }

  /** Two columns come out in ascending order of name, whatever order the map
      holds them in. */
  lemma TwoColumnDeclaration(first: string, firstCol: Column, second: string, secondCol: Column,
                             style: Style, naming: Naming)
    requires Less(first, second)
    ensures Declaration(map[second := secondCol, first := firstCol], style, naming)
            == STRUCT_OPEN + FieldLine(first, firstCol, style, naming) + FieldLine(second, secondCol, style, naming)
  {
    var obj := map[second := secondCol, first := firstCol];
    var ks := [first, second];
    assert obj.Keys == {first, second};
    SortedKeysUnique(ks, {first, second});
    var render := LineOf(style, naming);
    var line1 := FieldLine(first, firstCol, style, naming);
    var line2 := FieldLine(second, secondCol, style, naming);
    assert first != second;
    assert obj[first] == firstCol && obj[second] == secondCol;
    assert render(first, firstCol) == line1 && render(second, secondCol) == line2;
    assert ks[..1] == [first] && ks[..1][..0] == [];
    assert Lines(obj, [first], render) == "" + line1;
    assert "" + line1 == line1;
    assert Lines(obj, ks, render) == Lines(obj, [first], render) + line2;
    AppendAssociative(STRUCT_OPEN, FieldLine(first, firstCol, style, naming), FieldLine(second, secondCol, style, naming));
  }

  /** The "id" column of a typical table: int(11), NOT NULL, no default. */
  const ID_COLUMN: Column := map["value" := "int", "type" := "int(11)", "nullable" := "NO",
                                 "default" := "", "extra" := "AUTO_INCREMENT"]

  /** The id column is a NOT NULL int(11): a plain int. */
  lemma IdColumnType()
    ensures ColumnGoType(ID_COLUMN, false) == GolangInt
  {
    assert Field(ID_COLUMN, "value") == "int";
    assert Field(ID_COLUMN, "type") == "int(11)";
    assert Field(ID_COLUMN, "nullable") == "NO";
    IntElevenIsInt(false);
  }

  /** With only json tags the id column renders as a plain int field tagged
      json:"id". */
  lemma IdColumnLine(naming: Naming)
    ensures FieldLine("id", ID_COLUMN, Style(true, false, false), naming)
            == "\n" + naming.fieldName("id") + " " + naming.typeName(GolangInt) + " `" + JsonTag("id") + "`"
  {
    IdColumnType();
    assert Annotations("id", ID_COLUMN, Style(true, false, false)) == [JsonTag("id")];
  }

  /** A table holding only that column declares one line. */
  lemma IdColumnExample(naming: Naming)
    ensures Declaration(map["id" := ID_COLUMN], Style(true, false, false), naming)
            == STRUCT_OPEN + ("\n" + naming.fieldName("id") + " " + naming.typeName(GolangInt) + " `" + JsonTag("id") + "`")
  {
    SingleColumnDeclaration("id", ID_COLUMN, Style(true, false, false), naming);
    IdColumnLine(naming);
  }

  /** "id" sorts before "name". */
  lemma OrderExample(idCol: Column, nameCol: Column, style: Style, naming: Naming)
    ensures Declaration(map["name" := nameCol, "id" := idCol], style, naming)
            == STRUCT_OPEN + FieldLine("id", idCol, style, naming) + FieldLine("name", nameCol, style, naming)
  {
    assert LessEq("id", "name");
    TwoColumnDeclaration("id", idCol, "name", nameCol, style, naming);
  }
}
