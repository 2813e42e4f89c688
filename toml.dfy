/**
 * The key/value document layer (core/src/toml.rs): a TOML document is a map
 * from key to item, and the typed getters read one key with a default.
 */
module Toml {
  import opened Wrappers
  import opened Ints

  /** The kinds of TOML value; `Other` stands for floats, datetimes, arrays and inline tables. */
  datatype Value = Str(s: string) | Integer(i: i64) | Boolean(b: bool) | Other

  /** A document entry: a plain value, or a (sub-)table or array of tables, which are not values. */
  datatype Item = Value(v: Value) | Table | ArrayOfTables

  type Document = map<string, Item>

  datatype Error =
    | WrongTypeError(key: string, expected: string)
    | NotAValueError(key: string)
    | DoesNotExist(key: string)

  /** `get_string`: the default when absent, the string when the value is one, an error otherwise. */
  function GetString(table: Document, key: string, default: string): (r: Result<string, Error>)
    ensures key !in table ==> r == Ok(default)
    ensures r.Err? <==> key in table && !(table[key].Value? && table[key].v.Str?)
    ensures r.Err? ==> r.error == (if table[key].Value? then WrongTypeError(key, "String") else NotAValueError(key))
    ensures r.Ok? && key in table ==> table[key] == Value(Str(r.value))
  {
    if key !in table then Ok(default)
    else match table[key]
      case Value(v) => (match v case Str(s) => Ok(s) case _ => Err(WrongTypeError(key, "String")))
      case _ => Err(NotAValueError(key))
  }

  /** `get_boolean`. */
  function GetBoolean(table: Document, key: string, default: bool): (r: Result<bool, Error>)
    ensures key !in table ==> r == Ok(default)
    ensures r.Err? <==> key in table && !(table[key].Value? && table[key].v.Boolean?)
    ensures r.Err? ==> r.error == (if table[key].Value? then WrongTypeError(key, "Boolean") else NotAValueError(key))
    ensures r.Ok? && key in table ==> table[key] == Value(Boolean(r.value))
  {
    if key !in table then Ok(default)
    else match table[key]
      case Value(v) => (match v case Boolean(b) => Ok(b) case _ => Err(WrongTypeError(key, "Boolean")))
      case _ => Err(NotAValueError(key))
  }

  /** `get_integer`. */
  function GetInteger(table: Document, key: string, default: i64): (r: Result<i64, Error>)
    ensures key !in table ==> r == Ok(default)
    ensures r.Err? <==> key in table && !(table[key].Value? && table[key].v.Integer?)
    ensures r.Err? ==> r.error == (if table[key].Value? then WrongTypeError(key, "Integer") else NotAValueError(key))
    ensures r.Ok? && key in table ==> table[key] == Value(Integer(r.value))
  {
    if key !in table then Ok(default)
    else match table[key]
      case Value(v) => (match v case Integer(i) => Ok(i) case _ => Err(WrongTypeError(key, "Integer")))
      case _ => Err(NotAValueError(key))
  }

  /** Writing a value under a key and reading it back with the matching getter returns it, whatever the default. */
  lemma SetThenGet(table: Document, key: string, s: string, b: bool, i: i64, d: string, db: bool, di: i64)
    ensures GetString(table[key := Value(Str(s))], key, d) == Ok(s)
    ensures GetBoolean(table[key := Value(Boolean(b))], key, db) == Ok(b)
    ensures GetInteger(table[key := Value(Integer(i))], key, di) == Ok(i)
  {
  }

  /** Writing one key leaves what the getters read under every other key unchanged. */
  lemma SetOtherKey(table: Document, key: string, other: string, item: Item, d: string, db: bool, di: i64)
    requires other != key
    ensures GetString(table[key := item], other, d) == GetString(table, other, d)
    ensures GetBoolean(table[key := item], other, db) == GetBoolean(table, other, db)
    ensures GetInteger(table[key := item], other, di) == GetInteger(table, other, di)
  {
  }
}
