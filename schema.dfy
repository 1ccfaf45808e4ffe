/**
 * The three field rules the two schemas use (`required`, `min`, `max`), applied to a
 * request body. A value of another JSON type than the path's counts as missing.
 */
module Schema {
  import opened Http

  /** One failed rule; `path` names the field. */
  datatype FieldError = Required(path: string) | BelowMin(path: string) | AboveMax(path: string)

  /** The body's field `key` when it holds a number. */
  function GetNumber(body: seq<Member>, key: string): (r: Option<real>)
    ensures r.Some? ==> Get(body, key) == Some(JNum(r.value))
    ensures r.None? ==> forall n :: Get(body, key) != Some(JNum(n))
  {
    match Get(body, key)
    case Some(JNum(n)) => Some(n)
    case _ => None
  }

  /** The body's field `key` when it holds a string. */
  function GetString(body: seq<Member>, key: string): (r: Option<string>)
    ensures r.Some? ==> Get(body, key) == Some(JStr(r.value))
    ensures r.None? ==> forall t :: Get(body, key) != Some(JStr(t))
  {
    match Get(body, key)
    case Some(JStr(s)) => Some(s)
    case _ => None
  }

  /** A required String path: missing, null and the empty string all fail. */
  function RequiredString(path: string, v: Option<string>): (errs: seq<FieldError>)
    ensures errs == [] <==> v.Some? && v.value != ""
    ensures errs != [] ==> errs == [Required(path)]
    ensures forall e :: e in errs ==> e.path == path
  {
    if v.Some? && v.value != "" then [] else [Required(path)]
  }

  /**
   * A required Number path with optional bounds, both inclusive. A missing value only
   * fails `required`; the bounds are checked on a present value.
   */
  function RequiredNumber(path: string, v: Option<real>, min: Option<real>, max: Option<real>): (errs: seq<FieldError>)
    ensures errs == [] <==> v.Some? && (min.Some? ==> min.value <= v.value) && (max.Some? ==> v.value <= max.value)
    ensures |errs| <= 1 && forall e :: e in errs ==> e.path == path
    ensures v.None? ==> errs == [Required(path)]
    ensures v.Some? && min.Some? && v.value < min.value ==> errs == [BelowMin(path)]
    ensures v.Some? && max.Some? && max.value < v.value && (min.Some? ==> min.value <= v.value) ==> errs == [AboveMax(path)]
  {
    if v.None? then [Required(path)]
    else if min.Some? && v.value < min.value then [BelowMin(path)]
    else if max.Some? && max.value < v.value then [AboveMax(path)]
    else []
  }
}
