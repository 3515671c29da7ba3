/**
 * The keyword arguments a metric receives from the evaluation context:
 * role names ("target", "prediction", "dimension", ...) bound to column
 * names, the sentinel "MISSING" for a role that could not be bound, and
 * literal parameters such as "average".
 */
module Roles {

  import opened Wrappers
  import Ordered

  type Kwargs = Ordered.Dict<string, string>

  const Missing := "MISSING"

  /** `kwargs.get(name)` */
  function Arg(kw: Kwargs, name: string): Option<string>
  {
    Ordered.Get(kw, name)
  }

  /** `v in [None, "MISSING"]` */
  predicate Unset(v: Option<string>)
  {
    v.None? || v.value == Missing
  }

  /** `not v`: absent or the empty string. */
  predicate Falsy(v: Option<string>)
  {
    v.None? || v.value == ""
  }

  /** `v` is set, not empty, not "MISSING", and names a column among `cols`. */
  predicate BoundTo(v: Option<string>, cols: seq<string>)
  {
    !Falsy(v) && !Unset(v) && v.value in cols
  }
}
