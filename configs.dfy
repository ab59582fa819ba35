/**
 * The configuration dictionaries that physics objects serialise to: `config`
 * builds one and `from_config` reads it back.
 */
module Configs {
  import opened Wrappers

  /** A JSON-like Python value stored in a configuration. */
  datatype Value =
    | NoneValue
    | Int(i: int)
    | Str(s: string)
    | List(items: seq<Value>)
    | Dict(entries: map<string, Value>)

  type Config = map<string, Value>

  /** `config[key]`, raising KeyError for a missing key. */
  function Lookup(c: Config, key: string): (r: Result<Value>)
    ensures r.Ok? <==> key in c
    ensures r.Ok? ==> r.value == c[key]
  {
    if key in c then Ok(c[key]) else Err(KeyError)
  }

  /** `config.get(key)`, which gives None for a missing key. */
  function GetOrNone(c: Config, key: string): (r: Value)
    ensures key in c ==> r == c[key]
    ensures key !in c ==> r == NoneValue
  {
    if key in c then c[key] else NoneValue
  }

  /** `config[key]` where the value is expected to be a string. */
  function LookupStr(c: Config, key: string): (r: Result<string>)
    ensures r.Ok? <==> key in c && c[key].Str?
    ensures r.Ok? ==> c[key] == Str(r.value)
  {
    if key !in c then Err(KeyError)
    else match c[key]
      case Str(s) => Ok(s)
      case _ => Err(TypeError)
  }

  /** `config[key]` where the value is expected to be an integer. */
  function LookupInt(c: Config, key: string): (r: Result<int>)
    ensures r.Ok? <==> key in c && c[key].Int?
    ensures r.Ok? ==> c[key] == Int(r.value)
  {
    if key !in c then Err(KeyError)
    else match c[key]
      case Int(i) => Ok(i)
      case _ => Err(TypeError)
  }
}
