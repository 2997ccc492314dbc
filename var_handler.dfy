/** Type predicates and boolean conversions over PHP values
    (src/Handler/VarHandler.php). */
module VarHandler {
  import opened PhpValues

  /** `getType`: the name `gettype` gives, except "float" instead of "double". */
  function GetType(v: PhpValue): string {
    match v
    case Null => "NULL"
    case Bool(_) => "boolean"
    case Int(_) => "integer"
    case Float(_) => "float"
    case Str(_) => "string"
    case Arr(_) => "array"
    case Obj(_) => "object"
  }

  predicate SameKind(v: PhpValue, w: PhpValue) {
    || (v.Null? && w.Null?)
    || (v.Bool? && w.Bool?)
    || (v.Int? && w.Int?)
    || (v.Float? && w.Float?)
    || (v.Str? && w.Str?)
    || (v.Arr? && w.Arr?)
    || (v.Obj? && w.Obj?)
  }

  /** The type name tells the kinds of value apart, and "double" never appears. */
  lemma GetTypeNamesKinds(v: PhpValue, w: PhpValue)
    ensures GetType(v) == GetType(w) <==> SameKind(v, w)
    ensures GetType(v) != "double"
    ensures GetType(v) == "float" <==> v.Float?
  {
  }

  predicate IsFloat(v: PhpValue) {
    v.Float?
  }

  predicate IsObject(v: PhpValue) {
    v.Obj?
  }

  predicate IsNull(v: PhpValue) {
    v == Null
  }

  predicate IsArray(v: PhpValue) {
    v.Arr?
  }

  /** `isInt($v)` in its default, strict mode: `is_int`. */
  predicate IsInt(v: PhpValue) {
    v.Int?
  }

  predicate IsString(v: PhpValue) {
    v.Str?
  }

  /** `is_null`, `is_int` and `is_string` hold exactly when `gettype` names
      the matching type. */
  lemma TypePredicatesMatchGetType(v: PhpValue)
    ensures IsNull(v) <==> GetType(v) == "NULL"
    ensures IsInt(v) <==> GetType(v) == "integer"
    ensures IsString(v) <==> GetType(v) == "string"
    ensures IsFloat(v) <==> GetType(v) == "float"
    ensures IsArray(v) <==> GetType(v) == "array"
    ensures IsObject(v) <==> GetType(v) == "object"
  {
  }

  /** The doc-comment tables of `isInt` and `isString`. */
  lemma IsIntAndIsStringDocTables()
    ensures !IsInt(Str("23")) && !IsInt(Float("23.5")) && !IsInt(Str("23.5"))
    ensures !IsInt(Null) && !IsInt(Bool(true)) && !IsInt(Bool(false)) && IsInt(Int(23))
    ensures !IsString(Bool(false)) && !IsString(Bool(true)) && !IsString(Null)
    ensures !IsString(Float("23.5")) && !IsString(Int(23)) && !IsString(Int(0))
    ensures IsString(Str("abc")) && IsString(Str("23")) && IsString(Str("23.5"))
    ensures IsString(Str("")) && IsString(Str(" ")) && IsString(Str("0"))
  {
  }

  /** `isBoolean($v, $strict)`: false, true, 0, 1, '0' and '1' are booleans;
      in strict mode only PHP booleans pass. */
  predicate IsBoolean(v: PhpValue, strict: bool) {
    if strict && !v.Bool? then false
    else v == Bool(false) || v == Int(0) || v == Int(1) || v == Str("0") || v == Str("1") || v == Bool(true)
  }

  /** Strict mode accepts exactly the PHP booleans, and everything strict mode
      accepts the loose mode accepts too. */
  lemma IsBooleanStrictIff(v: PhpValue)
    ensures IsBoolean(v, true) <==> v.Bool?
    ensures IsBoolean(v, true) ==> IsBoolean(v, false)
  {
  }

  /** The doc-comment table of `isBoolean`, both modes. */
  lemma IsBooleanDocTable()
    ensures !IsBoolean(Null, true) && !IsBoolean(Float("0.5"), true) && !IsBoolean(Str("0"), true)
    ensures !IsBoolean(Int(0), true) && !IsBoolean(Int(1), true)
    ensures IsBoolean(Bool(true), true) && IsBoolean(Bool(false), true)
    ensures !IsBoolean(Null, false) && !IsBoolean(Float("0.5"), false) && IsBoolean(Str("0"), false)
    ensures IsBoolean(Int(0), false) && IsBoolean(Int(1), false)
    ensures IsBoolean(Bool(true), false) && IsBoolean(Bool(false), false)
  {
  }

  /** `toString`: 'null' for null, `strval` for the other scalars. Arrays and
      objects go through json_encode, which is not part of this model. */
  function ToString(v: PhpValue): string
    requires IsScalarOrNull(v)
  {
    if IsNull(v) then "null" else Strval(v)
  }

  /** An integer's text reads back as the same integer; booleans become "1"
      and "". */
  lemma ToStringScalars(v: PhpValue)
    requires v.Int? || v.Bool? || v.Null?
    ensures v.Int? ==> IsIntText(ToString(v)) && ParseInt(ToString(v)) == v.i
    ensures v.Bool? ==> ToString(v) == (if v.b then "1" else "")
    ensures v.Null? ==> ToString(v) == "null"
  {
    if v.Int? {
      IntToStringRoundTrip(v.i);
    }
  }

  /** `toBoolean`: false, null, 0, '0' and '' are false, every other value true. */
  predicate ToBoolean(v: PhpValue) {
    !(v == Bool(false) || v == Null || v == Int(0) || v == Str("0") || v == Str(""))
  }

  /** `toBoolean` agrees with PHP's own `(bool)` cast except on a float zero
      and on an empty array, which it calls true. */
  lemma ToBooleanVersusCast(v: PhpValue)
    ensures ToBoolean(v) != Truthy(v) <==> (v.Float? && !Truthy(v)) || v == Arr([])
  {
  }

  /** On the values `isBoolean` accepts, `toBoolean` is true exactly for
      true, 1 and '1'. */
  lemma ToBooleanOnBooleans(v: PhpValue)
    requires IsBoolean(v, false)
    ensures ToBoolean(v) <==> v == Bool(true) || v == Int(1) || v == Str("1")
  {
  }

  /** `toBooleanString`. */
  function ToBooleanString(v: PhpValue): (r: string)
    ensures r == "true" || r == "false"
    ensures r == "true" <==> ToBoolean(v)
  {
    if ToBoolean(v) then "true" else "false"
  }

  /** `toBooleanInt`. */
  function ToBooleanInt(v: PhpValue): (r: int)
    ensures r == 0 || r == 1
    ensures r == 1 <==> ToBoolean(v)
  {
    if ToBoolean(v) then 1 else 0
  }
}
