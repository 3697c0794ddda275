/**
  One SharedPreferences namespace, held in memory and updated synchronously.

  The platform keeps the Java type of every stored value: a key written with
  `putInt` holds an Integer, one written with `putLong` a Long, and so on.
  A typed read of a key that is absent yields the caller's default; a typed
  read of a key that holds a value of another type throws
  ClassCastException, which the model returns as `ClassCast`.
*/
module Prefs {
  import opened Options

  datatype Value =
    | IntValue(i: int)
    | LongValue(l: int)
    | StringValue(s: string)
    | StringSetValue(strings: set<string>)

  /** The key/value content of one namespace. */
  type Store = map<string, Value>

  /** Outcome of a read: the value, or the ClassCastException of a wrong-typed entry. */
  datatype Read<+T> = Ok(value: T) | ClassCast

  /** `getInt(key, default)` */
  function GetInt(p: Store, key: string, default: int): Read<int> {
    if key !in p then Ok(default)
    else if p[key].IntValue? then Ok(p[key].i)
    else ClassCast
  }

  /** `getLong(key, default)` */
  function GetLong(p: Store, key: string, default: int): Read<int> {
    if key !in p then Ok(default)
    else if p[key].LongValue? then Ok(p[key].l)
    else ClassCast
  }

  /** `getString(key, null)`: `None` when the key is absent. */
  function GetString(p: Store, key: string): Read<Option<string>> {
    if key !in p then Ok(None)
    else if p[key].StringValue? then Ok(Some(p[key].s))
    else ClassCast
  }

  /** `getStringSet(key, null)`: `None` when the key is absent. */
  function GetStringSet(p: Store, key: string): Read<Option<set<string>>> {
    if key !in p then Ok(None)
    else if p[key].StringSetValue? then Ok(Some(p[key].strings))
    else ClassCast
  }

  /** `putString(key, v)`: writing null removes the key. */
  function PutString(p: Store, key: string, v: Option<string>): Store {
    match v
    case None => p - {key}
    case Some(s) => p[key := StringValue(s)]
  }
}
