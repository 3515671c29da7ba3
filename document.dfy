/**
 * A parsed YAML/JSON document, and the handful of Python operations the
 * policy loader applies to it (`.get`, `[]`, `in`, iteration, truthiness).
 * Scalars are kept as their text.
 */
module Document {

  import opened Wrappers
  import opened Text
  import Ordered

  datatype Value =
    | VNull
    | VText(text: string)
    | VList(items: seq<Value>)
    | VDict(entries: Ordered.Dict<string, Value>)

  /** Python truthiness: `None`, `""`, `[]` and `{}` are false. */
  predicate Truthy(v: Value)
  {
    match v
    case VNull => false
    case VText(s) => s != []
    case VList(xs) => xs != []
    case VDict(es) => es != []
  }

  /** `v.get(key, default)`; only a mapping has `.get`. */
  function Get(v: Value, key: string, default: Value): (r: Result<Value>)
    ensures r.Err? <==> !v.VDict?
    ensures v.VDict? && !Ordered.HasKey(v.entries, key) ==> r == Ok(default)
  {
    match v
    case VDict(es) => Ok(Ordered.GetOr(es, key, default))
    case _ => Fail(AttributeError, "object has no attribute 'get'")
  }

  /** `v[key]` with a text key. */
  function Index(v: Value, key: string): (r: Result<Value>)
    ensures r.Ok? <==> v.VDict? && Ordered.HasKey(v.entries, key)
  {
    match v
    case VDict(es) =>
      (match Ordered.Get(es, key)
       case Some(x) => Ok(x)
       case None => Fail(KeyError, key))
    case _ => Fail(TypeError, "indices must be integers")
  }

  /** `key in v` with a text key: dictionary keys, list members, or substrings. */
  function Has(v: Value, key: string): (r: Result<bool>)
    ensures r.Err? <==> v.VNull?
  {
    match v
    case VNull => Fail(TypeError, "argument of type 'NoneType' is not iterable")
    case VText(s) => Ok(Contains(s, key))
    case VList(xs) => Ok(VText(key) in xs)
    case VDict(es) => Ok(Ordered.HasKey(es, key))
  }

  /** `for x in v`: list members, dictionary keys or characters. */
  function Iter(v: Value): (r: Result<seq<Value>>)
    ensures r.Err? <==> v.VNull?
    ensures v.VList? ==> r == Ok(v.items)
    ensures r.Ok? ==> |r.value| == 0 <==> !Truthy(v)
  {
    match v
    case VNull => Fail(TypeError, "'NoneType' object is not iterable")
    case VText(s) => Ok(seq(|s|, i requires 0 <= i < |s| => VText([s[i]])))
    case VList(xs) => Ok(xs)
    case VDict(es) => Ok(seq(|es|, i requires 0 <= i < |es| => VText(es[i].0)))
  }

  /** `str(v)` for a scalar; structured values are rendered by a placeholder. */
  function Str(v: Value): (r: string)
    ensures v.VText? ==> r == v.text
  {
    match v
    case VNull => "None"
    case VText(s) => s
    case VList(_) => "[...]"
    case VDict(_) => "{...}"
  }

  /** A value used as a dictionary key. Lists and mappings are unhashable. */
  function HashKey(v: Value): (r: Result<string>)
    ensures r.Ok? <==> v.VNull? || v.VText?
  {
    match v
    case VList(_) => Fail(TypeError, "unhashable type: 'list'")
    case VDict(_) => Fail(TypeError, "unhashable type: 'dict'")
    case _ => Ok(Str(v))
  }

  /** `str.startswith` called on a value: only text has it. */
  function StartsWithText(v: Value, prefix: string): (r: Result<bool>)
    ensures r.Ok? <==> v.VText?
    ensures r.Ok? ==> r.value == StartsWith(v.text, prefix)
  {
    match v
    case VText(s) => Ok(StartsWith(s, prefix))
    case _ => Fail(AttributeError, "object has no attribute 'startswith'")
  }

  /** `float(v)`, given the parser of numeric text. */
  function ToFloat(v: Value, parse: string -> Option<real>): (r: Result<real>)
    ensures r.Ok? ==> v.VText? && parse(v.text) == Some(r.value)
    ensures v.VText? && parse(v.text).Some? ==> r.Ok?
  {
    match v
    case VText(s) =>
      (match parse(s)
       case Some(x) => Ok(x)
       case None => Fail(ValueError, "could not convert string to float"))
    case _ => Fail(TypeError, "float() argument must be a string or a number")
  }
}
