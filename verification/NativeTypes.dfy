/**
 * How discovery reads native type names, and what that says about the names compilers write: a column
 * of the type a cast names is discovered as the canonical type that was asked for.
 */
module NativeTypes {
  import opened Common
  import opened Digits
  import opened MappingModel
  import opened SqlText
  import opened SqlTree
  import opened SqlMeaning

  // ---------------------------------------------------------------- discovery

  /** A native name in small letters, without its arguments, and the scale of the column. */
  function MySqlKind(name: string, scale: Option<int>): CanonicalType {
    if name in {"char", "varchar", "text", "tinytext", "mediumtext", "longtext", "enum", "set"} then STRING
    else if name in {"tinyint", "smallint", "mediumint", "int", "integer", "bigint", "year"} then INTEGER
    else if name in {"decimal", "numeric"} then if scale == Some(0) then INTEGER else DECIMAL
    else if name in {"float", "double", "real"} then FLOAT
    else if name in {"bool", "boolean"} then BOOLEAN
    else if name == "date" then DATE
    else if name == "time" then TIME
    else if name in {"datetime", "timestamp"} then TIMESTAMP
    else if name in {"binary", "varbinary", "blob", "tinyblob", "mediumblob", "longblob", "bit"} then BINARY
    else if name == "json" then SEMI_STRUCTURED
    else UNKNOWN
  }

  function PostgreSqlKind(name: string, scale: Option<int>): CanonicalType {
    if name == "array" || (|name| >= 2 && name[|name| - 2..] == "[]") then SEMI_STRUCTURED
    else if name in {"character", "character varying", "varchar", "char", "text", "citext", "name", "uuid", "bpchar"} then
      STRING
    else if name in {"smallint", "integer", "bigint", "smallserial", "serial", "bigserial", "int2", "int4", "int8"} then
      INTEGER
    else if name in {"numeric", "decimal"} then if scale == Some(0) then INTEGER else DECIMAL
    else if name in {"real", "double precision", "float", "float4", "float8"} then FLOAT
    else if name in {"boolean", "bool"} then BOOLEAN
    else if name == "date" then DATE
    else if name in {"time", "time without time zone", "time with time zone", "timetz"} then TIME
    else if name in {"timestamp", "timestamp without time zone"} then TIMESTAMP
    else if name in {"timestamp with time zone", "timestamptz"} then TIMESTAMP_TZ
    else if name == "bytea" then BINARY
    else if name in {"json", "jsonb", "xml", "hstore"} then SEMI_STRUCTURED
    else UNKNOWN
  }

  function SnowflakeKind(name: string, scale: Option<int>): CanonicalType {
    if name in {"varchar", "char", "character", "string", "text"} then STRING
    else if name in {"integer", "int", "bigint", "smallint", "tinyint", "byteint"} then INTEGER
    else if name in {"number", "numeric", "decimal", "dec", "fixed"} then if scale == Some(0) then INTEGER else DECIMAL
    else if name in {"float", "double", "double precision", "real", "float4", "float8"} then FLOAT
    else if name == "boolean" then BOOLEAN
    else if name == "date" then DATE
    else if name == "time" then TIME
    else if name in {"timestamp", "timestamp_ntz", "datetime"} then TIMESTAMP
    else if name in {"timestamp_tz", "timestamp_ltz"} then TIMESTAMP_TZ
    else if name in {"binary", "varbinary"} then BINARY
    else if name in {"variant", "object", "array"} then SEMI_STRUCTURED
    else UNKNOWN
  }

  function Kind(d: Dialect, name: string, scale: Option<int>): CanonicalType {
    match d
    case MySql => MySqlKind(name, scale)
    case PostgreSql => PostgreSqlKind(name, scale)
    case Snowflake => SnowflakeKind(name, scale)
  }

  // ---------------------------------------------------------------- names that are written

  /** The name of a type in small letters, without its arguments. */
  function NameOf(t: SqlType): string {
    Folded(JoinText(" ", t.words))
  }

  /** The scale a type states: its second argument. */
  function ScaleOf(t: SqlType): Option<int> {
    if |t.args| == 2 && AllDigits(t.args[1]) then Some(ValueOf(t.args[1])) else None
  }

  function Discovered(p: Profile, t: SqlType): CanonicalType {
    Kind(p.dialect, NameOf(t), ScaleOf(t))
  }

  lemma {:induction false} OneWord(name: string)
    ensures NameOf(SqlType([name], [])) == Folded(name) && ScaleOf(SqlType([name], [])) == None
  {
    assert [name][1..] == [];
  }

  lemma {:induction false} Scales()
    ensures ScaleOf(SqlType(["NUMBER"], ["38", "0"])) == Some(0)
    ensures ScaleOf(SqlType(["DECIMAL"], ["65", "30"])) == Some(30)
    ensures NameOf(SqlType(["NUMBER"], ["38", "0"])) == Folded("NUMBER")
    ensures NameOf(SqlType(["DECIMAL"], ["65", "30"])) == Folded("DECIMAL")
  {
    assert "0"[..0] == "" && ValueOf("0") == 0;
    assert "30"[..1] == "3" && "3"[..0] == "" && ValueOf("3") == 3 && ValueOf("30") == 30;
    assert ["NUMBER"][1..] == [] && ["DECIMAL"][1..] == [];
  }

  // ---------------------------------------------------------------- Snowflake

  lemma {:induction false} SnowflakeWords()
    ensures SnowflakeKind("number", Some(0)) == INTEGER && SnowflakeKind("number", None) == DECIMAL
    ensures SnowflakeKind("boolean", None) == BOOLEAN && SnowflakeKind("float", None) == FLOAT
    ensures SnowflakeKind("varchar", None) == STRING && SnowflakeKind("date", None) == DATE
  {
  }

  lemma {:induction false} SnowflakeMoreWords()
    ensures SnowflakeKind("time", None) == TIME && SnowflakeKind("timestamp_ntz", None) == TIMESTAMP
    ensures SnowflakeKind("timestamp_tz", None) == TIMESTAMP_TZ && SnowflakeKind("binary", None) == BINARY
    ensures SnowflakeKind("variant", None) == SEMI_STRUCTURED
  {
  }

  lemma {:induction false} SnowflakeSpelled()
    ensures Folded("NUMBER") == "number" && Folded("BOOLEAN") == "boolean" && Folded("FLOAT") == "float"
    ensures Folded("VARCHAR") == "varchar" && Folded("DATE") == "date" && Folded("TIME") == "time"
  {
  }

  lemma {:induction false} SnowflakeMoreSpelled()
    ensures Folded("TIMESTAMP_NTZ") == "timestamp_ntz" && Folded("TIMESTAMP_TZ") == "timestamp_tz"
    ensures Folded("BINARY") == "binary" && Folded("VARIANT") == "variant"
  {
  }

  lemma {:induction false} SnowflakeDiscovered(t: CanonicalType)
    requires SnowflakeType(t).Some?
    ensures SnowflakeKind(NameOf(SnowflakeType(t).value), ScaleOf(SnowflakeType(t).value)) == t
  {
    hide NameOf, ScaleOf, SnowflakeKind, Folded;
    SnowflakeWords();
    SnowflakeMoreWords();
    SnowflakeSpelled();
    SnowflakeMoreSpelled();
    Scales();
    if t != INTEGER { OneWord(SnowflakeType(t).value.words[0]); }
  }

  // ---------------------------------------------------------------- PostgreSQL

  lemma {:induction false} PostgreSqlWords()
    ensures PostgreSqlKind("boolean", None) == BOOLEAN && PostgreSqlKind("bigint", None) == INTEGER
    ensures PostgreSqlKind("numeric", None) == DECIMAL && PostgreSqlKind("decimal", None) == DECIMAL
    ensures PostgreSqlKind("double precision", None) == FLOAT && PostgreSqlKind("text", None) == STRING
  {
  }

  lemma {:induction false} PostgreSqlMoreWords()
    ensures PostgreSqlKind("date", None) == DATE && PostgreSqlKind("time", None) == TIME
    ensures PostgreSqlKind("timestamp", None) == TIMESTAMP && PostgreSqlKind("timestamptz", None) == TIMESTAMP_TZ
    ensures PostgreSqlKind("bytea", None) == BINARY && PostgreSqlKind("jsonb", None) == SEMI_STRUCTURED
  {
  }

  lemma {:induction false} TwoWords()
    ensures NameOf(SqlType(["DOUBLE", "PRECISION"], [])) == "double precision"
    ensures ScaleOf(SqlType(["DOUBLE", "PRECISION"], [])) == None
  {
    assert ["DOUBLE", "PRECISION"][1..] == ["PRECISION"];
    assert "DOUBLE" + " " + "PRECISION" == "DOUBLE PRECISION";
    assert Folded("DOUBLE PRECISION") == "double precision";
  }

  lemma {:induction false} PostgreSqlSpelled()
    ensures Folded("BOOLEAN") == "boolean" && Folded("BIGINT") == "bigint" && Folded("TEXT") == "text"
    ensures Folded("NUMERIC") == "numeric" && Folded("DECIMAL") == "decimal" && Folded("DATE") == "date"
  {
  }

  lemma {:induction false} PostgreSqlMoreSpelled()
    ensures Folded("TIME") == "time" && Folded("TIMESTAMP") == "timestamp" && Folded("TIMESTAMPTZ") == "timestamptz"
    ensures Folded("BYTEA") == "bytea" && Folded("JSONB") == "jsonb"
  {
  }

  lemma {:induction false} PostgreSqlDiscovered(t: CanonicalType, purpose: Purpose)
    requires PostgreSqlType(t, purpose).Some?
    ensures PostgreSqlKind(NameOf(PostgreSqlType(t, purpose).value), ScaleOf(PostgreSqlType(t, purpose).value)) == t
  {
    hide NameOf, ScaleOf, PostgreSqlKind, Folded;
    PostgreSqlWords();
    PostgreSqlMoreWords();
    PostgreSqlSpelled();
    PostgreSqlMoreSpelled();
    TwoWords();
    if t != FLOAT { OneWord(PostgreSqlType(t, purpose).value.words[0]); }
  }

  // ---------------------------------------------------------------- MySQL

  lemma {:induction false} MySqlWords()
    ensures MySqlKind("boolean", None) == BOOLEAN && MySqlKind("bigint", None) == INTEGER
    ensures MySqlKind("decimal", None) == DECIMAL && MySqlKind("decimal", Some(30)) == DECIMAL
    ensures MySqlKind("double", None) == FLOAT && MySqlKind("text", None) == STRING && MySqlKind("char", None) == STRING
  {
  }

  lemma {:induction false} MySqlMoreWords()
    ensures MySqlKind("date", None) == DATE && MySqlKind("time", None) == TIME && MySqlKind("datetime", None) == TIMESTAMP
    ensures MySqlKind("longblob", None) == BINARY && MySqlKind("binary", None) == BINARY
    ensures MySqlKind("json", None) == SEMI_STRUCTURED
  {
  }

  lemma {:induction false} MySqlCastWords()
    ensures MySqlKind("signed", None) == UNKNOWN && MySqlKind("unsigned", None) == UNKNOWN
  {
  }

  lemma {:induction false} MySqlSpelled()
    ensures Folded("BOOLEAN") == "boolean" && Folded("UNSIGNED") == "unsigned"
    ensures Folded("BIGINT") == "bigint" && Folded("SIGNED") == "signed"
    ensures Folded("DECIMAL") == "decimal" && Folded("DOUBLE") == "double"
    ensures Folded("TEXT") == "text" && Folded("CHAR") == "char"
  {
  }

  lemma {:induction false} MySqlMoreSpelled()
    ensures Folded("DATE") == "date" && Folded("TIME") == "time" && Folded("DATETIME") == "datetime"
    ensures Folded("LONGBLOB") == "longblob" && Folded("BINARY") == "binary" && Folded("JSON") == "json"
  {
  }

  lemma {:induction false} MySqlDiscovered(t: CanonicalType, purpose: Purpose)
    requires MySqlType(t, purpose).Some?
    ensures MySqlKind(NameOf(MySqlType(t, purpose).value), ScaleOf(MySqlType(t, purpose).value))
            == if purpose == Validating && (t == BOOLEAN || t == INTEGER) then UNKNOWN else t
  {
    hide NameOf, ScaleOf, MySqlKind, Folded;
    MySqlWords();
    MySqlMoreWords();
    MySqlCastWords();
    MySqlSpelled();
    MySqlMoreSpelled();
    Scales();
    if t != DECIMAL || purpose == Migrating { OneWord(MySqlType(t, purpose).value.words[0]); }
  }

  // ---------------------------------------------------------------- every cast

  /**
   * The type a cast names is the type discovery would read back, in every dialect and in every kind of
   * statement, except for the two names MySQL has for casts alone.
   */
  lemma {:induction false} CastDiscovered(p: Profile, t: CanonicalType)
    requires TypeName(p, t).Some?
    ensures Discovered(p, TypeName(p, t).value) == t
            <==> !(p == Profile(MySql, Validating) && (t == BOOLEAN || t == INTEGER))
  {
    hide NameOf, ScaleOf, MySqlKind, PostgreSqlKind, SnowflakeKind, MySqlType, PostgreSqlType, SnowflakeType;
    match p.dialect
    case MySql => MySqlDiscovered(t, p.purpose);
    case PostgreSql => PostgreSqlDiscovered(t, p.purpose);
    case Snowflake => SnowflakeDiscovered(t);
  }
}
