/** mysqlTypeToGoType: the choice of Go type for one MySQL column, from its
    DATA_TYPE, its COLUMN_TYPE (for the display width), its nullability and the
    style flag that selects the guregu/null wrappers over database/sql's. */
module TypeResolver {

  datatype Option<T> = None | Some(value: T)

  /** The Go type tokens the resolver can return. Apart from the last two, their
      text is defined outside utils_mysql.go and is supplied by the caller of
      `TypeText`. */
  datatype GoType =
    | GolangBool | GolangInt | GolangInt64 | GolangFloat32 | GolangFloat64
    | GolangTime | GolangByteArray
    | SqlNullBool | SqlNullInt | SqlNullInt64 | SqlNullFloat | SqlNullString | SqlNullTime
    | GureguNullInt | GureguNullFloat | GureguNullString
    | OptionalString  // the literal "optional.String"
    | NoType          // the empty string returned for an unlisted native type
  {
    /** A wrapper that can hold SQL NULL. */
    predicate IsNullWrapper() {
      SqlNullBool? || SqlNullInt? || SqlNullInt64? || SqlNullFloat? || SqlNullString? || SqlNullTime?
      || GureguNullInt? || GureguNullFloat? || GureguNullString?
    }

    predicate IsGuregu() {
      GureguNullInt? || GureguNullFloat? || GureguNullString?
    }
  }

  /** The text of a type token, given the texts of the named Go constants. */
  function TypeText(typeName: GoType -> string, t: GoType): (text: string)
    ensures t == OptionalString ==> text == "optional.String"
    ensures t == NoType ==> text == ""
    ensures !t.OptionalString? && !t.NoType? ==> text == typeName(t)
  {
    match t
    case OptionalString => "optional.String"
    case NoType => ""
    case _ => typeName(t)
  }

  /** The case lists of the resolver's switch. */
  datatype Family =
    | IntegerFamily | BigIntFamily | CharacterFamily | TemporalFamily
    | DecimalFamily | FloatFamily | BinaryFamily | Unlisted

  /** Every DATA_TYPE named by a case of the switch. */
  const LISTED_TYPES: set<string> := {
    "tinyint", "int", "smallint", "mediumint", "bigint",
    "char", "enum", "varchar", "longtext", "mediumtext", "text", "tinytext",
    "date", "datetime", "time", "timestamp",
    "decimal", "double", "float",
    "binary", "blob", "longblob", "mediumblob", "varbinary"
  }

  function FamilyOf(mysqlType: string): Family {
    if mysqlType in ["tinyint", "int", "smallint", "mediumint"] then IntegerFamily
    else if mysqlType == "bigint" then BigIntFamily
    else if mysqlType in ["char", "enum", "varchar", "longtext", "mediumtext", "text", "tinytext"] then CharacterFamily
    else if mysqlType in ["date", "datetime", "time", "timestamp"] then TemporalFamily
    else if mysqlType in ["decimal", "double"] then DecimalFamily
    else if mysqlType == "float" then FloatFamily
    else if mysqlType in ["binary", "blob", "longblob", "mediumblob", "varbinary"] then BinaryFamily
    else Unlisted
  }

  /** A DATA_TYPE falls through the switch exactly when no case names it. */
  lemma UnlistedExactly(mysqlType: string)
    ensures FamilyOf(mysqlType) == Unlisted <==> mysqlType !in LISTED_TYPES
  {
  }

  // ---------------------------------------------------------------------------
  // Display width: the digits captured by the regular expression \w+\((\d+)\)
  // in COLUMN_TYPE, read as a decimal number; 0 when the expression does not
  // match.
  //
  // \w+ cannot run across '(' and \d+ must be followed by ')', so a match is
  // fixed by the position p of its '(': a word character right before p, a
  // maximal run of digits right after it, then ')'. Matches for a later '('
  // start after an earlier '(' (which is no word character), so the leftmost
  // match that FindStringSubmatch reports is the one at the least such p.
  // ---------------------------------------------------------------------------

  /** \w in Go's RE2 syntax: ASCII letters, digits and underscore. */
  predicate IsWordChar(c: char) {
    ('a' <= c <= 'z') || ('A' <= c <= 'Z') || ('0' <= c <= '9') || c == '_'
  }

  predicate IsDigit(c: char) {
    '0' <= c <= '9'
  }

  /** The length of the longest run of digits starting at index i. */
  function DigitRun(s: string, i: nat): (n: nat)
    requires i <= |s|
    ensures i + n <= |s|
    ensures forall k :: i <= k < i + n ==> IsDigit(s[k])
    ensures i + n == |s| || !IsDigit(s[i + n])
    decreases |s| - i
  {
    if i < |s| && IsDigit(s[i]) then 1 + DigitRun(s, i + 1) else 0
  }

  /** \w+\((\d+)\) matches with its '(' at index p. */
  predicate MatchAt(s: string, p: int) {
    0 < p < |s| && s[p] == '(' && IsWordChar(s[p - 1]) &&
    var n := DigitRun(s, p + 1);
    n > 0 && p + 1 + n < |s| && s[p + 1 + n] == ')'
  }

  /** The match at p is the leftmost one. */
  predicate IsFirstMatch(s: string, p: int) {
    MatchAt(s, p) && forall q :: 0 <= q < p ==> !MatchAt(s, q)
  }

  /** The submatch: the digits between the parentheses. */
  function Captured(s: string, p: int): (ds: string)
    requires MatchAt(s, p)
    ensures |ds| > 0
    ensures forall k :: 0 <= k < |ds| ==> IsDigit(ds[k])
  {
    s[p + 1..p + 1 + DigitRun(s, p + 1)]
  }

  function Pow10(n: nat): (p: nat)
    ensures p > 0
  {
    if n == 0 then 1 else 10 * Pow10(n - 1)
  }

  /** strconv.Atoi on a string of ASCII digits (no overflow: unbounded). */
  function DecimalValue(ds: string): nat
    requires forall k :: 0 <= k < |ds| ==> IsDigit(ds[k])
  {
    if ds == [] then 0
    else
      assert IsDigit(ds[|ds| - 1]);
      10 * DecimalValue(ds[..|ds| - 1]) + (ds[|ds| - 1] as int - '0' as int)
  }

  /** The index where the run of word characters ending just before p starts. */
  function WordRunStart(s: string, p: nat): (start: nat)
    requires p <= |s|
    ensures start <= p
    ensures forall k :: start <= k < p ==> IsWordChar(s[k])
    ensures start == 0 || !IsWordChar(s[start - 1])
  {
    if p > 0 && IsWordChar(s[p - 1]) then WordRunStart(s, p - 1) else p
  }

  /** What a match at p looks like: a word character, '(', at least one digit,
      and a ')' further on; neither parenthesis is a word character. */
  lemma MatchShape(s: string, p: int)
    requires MatchAt(s, p)
    ensures 0 < p && p + 2 < |s|
    ensures IsWordChar(s[p - 1]) && s[p] == '(' && IsDigit(s[p + 1])
    ensures ')' in s[p + 2..]
    ensures !IsWordChar('(') && !IsWordChar(')')
  {
    var n := DigitRun(s, p + 1);
    assert s[p + 2..][n - 1] == s[p + 1 + n];
  }

  /** The match Go reports is the one whose \w+ starts leftmost. That start is
      the beginning of the word run before the '('. A '(' is no word character,
      so the match for a later '(' starts after an earlier '(' and hence after
      the earlier match's start: the leftmost match is the one with the least '('. */
  lemma MatchStartsInOrder(s: string, p: int, q: int)
    requires MatchAt(s, p) && MatchAt(s, q) && p < q
    ensures WordRunStart(s, p) < p < WordRunStart(s, q)
  {
    MatchShape(s, p);
  }

  /** The value Atoi reads has at most as many decimal digits as the string,
      and its last digit is the string's last digit. */
  lemma {:induction false} DecimalValueDigits(ds: string)
    requires forall k :: 0 <= k < |ds| ==> IsDigit(ds[k])
    ensures DecimalValue(ds) < Pow10(|ds|)
    ensures |ds| > 0 ==> DecimalValue(ds) % 10 == ds[|ds| - 1] as int - '0' as int
  {
    if ds != [] {
      var init := ds[..|ds| - 1];
      var d := ds[|ds| - 1] as int - '0' as int;
      DecimalValueDigits(init);
      assert 0 <= d < 10;
      assert DecimalValue(ds) == 10 * DecimalValue(init) + d;
      assert 10 * DecimalValue(init) + d < 10 * Pow10(|init|) by {
        assert DecimalValue(init) + 1 <= Pow10(|init|);
      }
    }
  }

  lemma ShiftDigit(d0: int, p: int, r: int, d: int)
    ensures 10 * (d0 * p + r) + d == d0 * (10 * p) + (10 * r + d)
  {
  }

  /** Read from the front, Atoi's value is the first digit times 10^(n-1) plus
      the value of the remaining digits: the usual positional reading, which
      `DecimalValue`, peeling digits off the back, agrees with. */
  lemma {:induction false} DecimalValueLeadingDigit(ds: string)
    requires |ds| > 0 && forall k :: 0 <= k < |ds| ==> IsDigit(ds[k])
    ensures DecimalValue(ds) == (ds[0] as int - '0' as int) * Pow10(|ds| - 1) + DecimalValue(ds[1..])
    decreases |ds|
  {
    var d0 := ds[0] as int - '0' as int;
    var d := ds[|ds| - 1] as int - '0' as int;
    var init := ds[..|ds| - 1];
    var tail := ds[1..];
    if |ds| == 1 {
      assert tail == [] && init == [];
    } else {
      DecimalValueLeadingDigit(init);
      assert tail[..|tail| - 1] == init[1..];
      assert tail[|tail| - 1] == ds[|ds| - 1];
      assert init[0] == ds[0];
      var p := Pow10(|init| - 1);
      var r := DecimalValue(init[1..]);
      assert DecimalValue(ds) == 10 * DecimalValue(init) + d;
      assert DecimalValue(tail) == 10 * r + d;
      assert Pow10(|ds| - 1) == 10 * p;
      ShiftDigit(d0, p, r, d);
    }
  }

  /** MatchAt is the plain reading of \w+\((\d+)\) around the '(' at p: a word
      character before it, and only digits, at least one, up to a ')'. */
  lemma MatchAtIff(s: string, p: int)
    ensures MatchAt(s, p) <==>
            && 0 < p < |s| && s[p] == '(' && IsWordChar(s[p - 1])
            && exists e :: p + 1 < e < |s| && s[e] == ')' && forall k :: p < k < e ==> IsDigit(s[k])
  {
    if 0 < p < |s| && s[p] == '(' && IsWordChar(s[p - 1]) {
      var n := DigitRun(s, p + 1);
      if MatchAt(s, p) {
        var e := p + 1 + n;
        assert forall k :: p < k < e ==> IsDigit(s[k]);
      }
      if e :| p + 1 < e < |s| && s[e] == ')' && forall k :: p < k < e ==> IsDigit(s[k]) {
        assert p + 1 + n == e;
      }
    }
  }

  /** The regular expression's search from index `from` on. */
  function FirstMatch(s: string, from: nat): (r: Option<nat>)
    requires from <= |s|
    ensures r.Some? ==> from <= r.value && MatchAt(s, r.value)
    ensures r.Some? ==> forall q :: from <= q < r.value ==> !MatchAt(s, q)
    ensures r.None? ==> forall q :: from <= q < |s| ==> !MatchAt(s, q)
    decreases |s| - from
  {
    if from == |s| then None
    else if MatchAt(s, from) then Some(from)
    else FirstMatch(s, from + 1)
  }

  /** The display width `datalen` of a COLUMN_TYPE. */
  function DisplayWidth(columnType: string): (w: nat)
    ensures (forall p :: 0 <= p < |columnType| ==> !MatchAt(columnType, p)) ==> w == 0
    ensures forall p :: IsFirstMatch(columnType, p) ==> w == DecimalValue(Captured(columnType, p))
  {
    match FirstMatch(columnType, 0)
    case None => 0
    case Some(p) => DecimalValue(Captured(columnType, p))
  }

  // ---------------------------------------------------------------------------
  // The resolver
  // ---------------------------------------------------------------------------

  /** mysqlTypeToGoType. */
  function ResolveGoType(mysqlType: string, columnType: string, nullable: bool, gureguTypes: bool): (t: GoType)
    ensures t == NoType <==> FamilyOf(mysqlType) == Unlisted
    ensures !nullable ==> !t.IsNullWrapper()
    ensures nullable && FamilyOf(mysqlType) != Unlisted && FamilyOf(mysqlType) != BinaryFamily ==> t.IsNullWrapper()
    ensures t.IsGuregu() ==> nullable && gureguTypes
  {
    var datalen := DisplayWidth(columnType);
    match FamilyOf(mysqlType)
    case IntegerFamily =>
      if nullable then
        if gureguTypes then GureguNullInt
        else if datalen == 1 then SqlNullBool
        else SqlNullInt
      else if datalen == 1 then GolangBool
      else GolangInt
    case BigIntFamily =>
      if nullable then
        if gureguTypes then GureguNullInt
        else if datalen >= 18 then SqlNullInt64
        else SqlNullInt
      else GolangInt64
    case CharacterFamily =>
      if nullable then
        if gureguTypes then GureguNullString else SqlNullString
      else OptionalString
    case TemporalFamily =>
      if nullable then SqlNullTime else GolangTime
    case DecimalFamily =>
      if nullable then
        if gureguTypes then GureguNullFloat else SqlNullFloat
      else GolangFloat64
    case FloatFamily =>
      if nullable then
        if gureguTypes then GureguNullFloat else SqlNullFloat
      else GolangFloat32
    case BinaryFamily => GolangByteArray
    case Unlisted => NoType
  }

  // ---------------------------------------------------------------------------
  // Properties of the resolver
  // ---------------------------------------------------------------------------

  /** tinyint, int, smallint and mediumint: a width of 1 means a boolean, except
      that the guregu style has no nullable boolean and uses its nullable int. */
  lemma IntegerFamilyRule(mysqlType: string, columnType: string, nullable: bool, gureguTypes: bool)
    requires mysqlType in ["tinyint", "int", "smallint", "mediumint"]
    ensures var t := ResolveGoType(mysqlType, columnType, nullable, gureguTypes);
            && (t in {GolangBool, SqlNullBool} <==> DisplayWidth(columnType) == 1 && !(nullable && gureguTypes))
            && (!nullable ==> t in {GolangBool, GolangInt})
            && (nullable && gureguTypes ==> t == GureguNullInt)
            && (nullable && !gureguTypes ==> t in {SqlNullBool, SqlNullInt})
  {
  }

  /** bigint: only a nullable column without the guregu style looks at the
      width, and picks the 64-bit wrapper from 18 digits on. */
  lemma BigIntRule(columnType: string, nullable: bool, gureguTypes: bool)
    ensures var t := ResolveGoType("bigint", columnType, nullable, gureguTypes);
            && (t == SqlNullInt64 <==> nullable && !gureguTypes && DisplayWidth(columnType) >= 18)
            && (!nullable ==> t == GolangInt64)
            && (nullable && gureguTypes ==> t == GureguNullInt)
            && (nullable && !gureguTypes ==> t in {SqlNullInt64, SqlNullInt})
  {
  }

  /** Character types: a non-nullable column gets the literal "optional.String". */
  lemma CharacterFamilyRule(mysqlType: string, columnType: string, nullable: bool, gureguTypes: bool)
    requires mysqlType in ["char", "enum", "varchar", "longtext", "mediumtext", "text", "tinytext"]
    ensures var t := ResolveGoType(mysqlType, columnType, nullable, gureguTypes);
            && (!nullable ==> t == OptionalString)
            && (nullable ==> t == if gureguTypes then GureguNullString else SqlNullString)
  {
  }

  /** Temporal types ignore the guregu flag and the width. */
  lemma TemporalIgnoresGuregu(mysqlType: string, columnType: string, nullable: bool, gureguTypes: bool)
    requires mysqlType in ["date", "datetime", "time", "timestamp"]
    ensures ResolveGoType(mysqlType, columnType, nullable, gureguTypes)
            == (if nullable then SqlNullTime else GolangTime)
  {
  }

  /** decimal and double are 64-bit floats, float is 32-bit; both share the
      nullable wrappers. */
  lemma FloatingRule(mysqlType: string, columnType: string, nullable: bool, gureguTypes: bool)
    requires mysqlType in ["decimal", "double", "float"]
    ensures var t := ResolveGoType(mysqlType, columnType, nullable, gureguTypes);
            && (!nullable ==> t == if mysqlType == "float" then GolangFloat32 else GolangFloat64)
            && (nullable ==> t == if gureguTypes then GureguNullFloat else SqlNullFloat)
  {
    if mysqlType == "float" {
      assert FamilyOf(mysqlType) == FloatFamily;
    } else {
      assert FamilyOf(mysqlType) == DecimalFamily;
    }
  }

  /** Binary and blob types are always a byte slice: nullability and style play
      no part. */
  lemma BinaryIgnoresFlags(mysqlType: string, columnType: string, columnType': string,
                           nullable: bool, nullable': bool, gureguTypes: bool, gureguTypes': bool)
    requires mysqlType in ["binary", "blob", "longblob", "mediumblob", "varbinary"]
    ensures ResolveGoType(mysqlType, columnType, nullable, gureguTypes) == GolangByteArray
    ensures ResolveGoType(mysqlType, columnType, nullable, gureguTypes)
            == ResolveGoType(mysqlType, columnType', nullable', gureguTypes')
  {
    assert FamilyOf(mysqlType) == BinaryFamily;
  }

  /** An unlisted native type yields the empty type, and no error. */
  lemma UnlistedIsEmpty(mysqlType: string, columnType: string, nullable: bool, gureguTypes: bool, typeName: GoType -> string)
    requires FamilyOf(mysqlType) == Unlisted
    ensures TypeText(typeName, ResolveGoType(mysqlType, columnType, nullable, gureguTypes)) == ""
  {
  }

  /** The guregu flag only matters for nullable columns. */
  lemma NotNullableIgnoresGuregu(mysqlType: string, columnType: string)
    ensures ResolveGoType(mysqlType, columnType, false, false) == ResolveGoType(mysqlType, columnType, false, true)
  {
  }

  /** COLUMN_TYPE only matters for the integer family and bigint. */
  lemma WidthOnlyForIntegers(mysqlType: string, columnType: string, columnType': string, nullable: bool, gureguTypes: bool)
    requires FamilyOf(mysqlType) !in {IntegerFamily, BigIntFamily}
    ensures ResolveGoType(mysqlType, columnType, nullable, gureguTypes)
            == ResolveGoType(mysqlType, columnType', nullable, gureguTypes)
  {
  }

  // ---------------------------------------------------------------------------
  // Display-width examples
  // ---------------------------------------------------------------------------

  /** No '(' in COLUMN_TYPE: width 0. */
  lemma WidthWithoutParenthesis(columnType: string)
    requires '(' !in columnType
    ensures DisplayWidth(columnType) == 0
  {
    forall p | 0 <= p < |columnType|
      ensures !MatchAt(columnType, p)
    {
      assert columnType[p] in columnType;
    }
  }

  /** "tinyint(1)" has width 1, so a NOT NULL tinyint(1) column is a bool. */
  lemma TinyintOneIsBool(gureguTypes: bool)
    ensures DisplayWidth("tinyint(1)") == 1
    ensures ResolveGoType("tinyint", "tinyint(1)", false, gureguTypes) == GolangBool
  {
    var s := "tinyint(1)";
    assert DigitRun(s, 8) == 1 by {
      assert DigitRun(s, 9) == 0;
    }
    assert MatchAt(s, 7);
    assert forall q :: 0 <= q < 7 ==> s[q] != '(';
    assert IsFirstMatch(s, 7);
    assert Captured(s, 7) == "1";
    assert DecimalValue("1") == 1 by {
      assert "1"[..0] == [];
    }
  }

  /** "int(11)" has width 11, so a NOT NULL int(11) column is a plain int. */
  lemma IntElevenIsInt(gureguTypes: bool)
    ensures DisplayWidth("int(11)") == 11
    ensures ResolveGoType("int", "int(11)", false, gureguTypes) == GolangInt
  {
    var s := "int(11)";
    assert DigitRun(s, 4) == 2 by {
      assert DigitRun(s, 6) == 0;
      assert DigitRun(s, 5) == 1;
    }
    assert MatchAt(s, 3);
    assert forall q :: 0 <= q < 3 ==> s[q] != '(';
    assert IsFirstMatch(s, 3);
    assert Captured(s, 3) == "11";
    assert DecimalValue("11") == 11 by {
      assert "11"[..1] == "1";
      assert "1"[..0] == [];
    }
  }

  /** "decimal(10,2)" does not match the expression (a comma follows the
      digits), so its width is 0. */
  lemma DecimalPrecisionHasNoWidth()
    ensures DisplayWidth("decimal(10,2)") == 0
  {
    var s := "decimal(10,2)";
    assert DigitRun(s, 8) == 2 by {
      assert DigitRun(s, 10) == 0;
      assert DigitRun(s, 9) == 1;
    }
    forall p | 0 <= p < |s|
      ensures !MatchAt(s, p)
    {
      if p != 7 {
        assert s[p] != '(';
      }
    }
  }

  /** A nullable "bigint(20) unsigned" without the guregu style maps to the
      64-bit nullable int. */
  lemma BigIntTwentyIsNullInt64()
    ensures ResolveGoType("bigint", "bigint(20) unsigned", true, false) == SqlNullInt64
  {
    BigIntTwentyWidth();
  }

  lemma BigIntTwentyWidth()
    ensures DisplayWidth("bigint(20) unsigned") == 20
  {
    var s := "bigint(20) unsigned";
    assert IsFirstMatch(s, 6) && Captured(s, 6) == "20" by {
      assert DigitRun(s, 7) == 2 by {
        assert DigitRun(s, 9) == 0;
        assert DigitRun(s, 8) == 1;
      }
      assert forall q :: 0 <= q < 6 ==> s[q] != '(';
    }
    assert DecimalValue("20") == 20 by {
      assert "20"[..1] == "2";
      assert "2"[..0] == [];
    }
  }

  /** A nullable "bigint(11)" without the guregu style maps to the generic
      nullable int: 11 digits are below the threshold of 18. */
  lemma BigIntElevenIsNullInt()
    ensures DisplayWidth("bigint(11)") == 11
    ensures ResolveGoType("bigint", "bigint(11)", true, false) == SqlNullInt
  {
    var u := "bigint(11)";
    assert DigitRun(u, 7) == 2 by {
      assert DigitRun(u, 9) == 0;
      assert DigitRun(u, 8) == 1;
    }
    assert MatchAt(u, 6);
    assert forall q :: 0 <= q < 6 ==> u[q] != '(';
    assert IsFirstMatch(u, 6);
    assert Captured(u, 6) == "11";
    assert DecimalValue("11") == 11 by {
      assert "11"[..1] == "1";
      assert "1"[..0] == [];
    }
  }
}
