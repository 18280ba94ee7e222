/**
 * The field validators. Each check takes the field's value and the field's
 * name and returns `None` (JavaScript `null`) or an error message that
 * embeds the name. A parameterised validator such as `maxLength(max)` or
 * `isLength(min, max)` is a check with the parameters as leading arguments,
 * plus a factory that fixes them and returns the validator.
 */
module Validators {
  import opened Wrappers
  import opened JsValues
  import opened Decimal
  import opened Patterns

  /** `(value: any, key: string) => string | null`. */
  type Validator = (Value, string) -> Option<string>

  /** JavaScript truthiness of a `string | null` result: `null` and `""` are falsy. */
  predicate Truthy(r: Option<string>) {
    r.Some? && r.value != ""
  }

  /** `if (error)` after running `v` on `value` under the name `key`. */
  predicate Fails(v: Validator, value: Value, key: string) {
    Truthy(v(value, key))
  }

  // ---------------------------------------------------------------- type checks

  function IsString(value: Value, key: string): (r: Option<string>)
    ensures r.None? <==> value.Str?
    ensures r.Some? ==> r.value == key + " must be a string"
  {
    if TypeOf(value) != "string" then Some(key + " must be a string") else None
  }

  function IsNumber(value: Value, key: string): (r: Option<string>)
    ensures r.None? <==> value.Num?
    ensures r.Some? ==> r.value == key + " must be a number"
  {
    if TypeOf(value) != "number" then Some(key + " must be a number") else None
  }

  function IsBoolean(value: Value, key: string): (r: Option<string>)
    ensures r.None? <==> value.Bool?
    ensures r.Some? ==> r.value == key + " must be a boolean"
  {
    if TypeOf(value) != "boolean" then Some(key + " must be a boolean") else None
  }

  function IsArrayCheck(value: Value, key: string): (r: Option<string>)
    ensures r.None? <==> value.Arr?
    ensures r.Some? ==> r.value == key + " must be an array"
  {
    if !IsArray(value) then Some(key + " must be an array") else None
  }

  /** Plain objects and dates pass; `null` and arrays do not, although their `typeof` is "object". */
  function IsObject(value: Value, key: string): (r: Option<string>)
    ensures r.None? <==> value.Obj? || IsDate(value)
    ensures r.Some? ==> r.value == key + " must be an object"
  {
    if TypeOf(value) != "object" || IsArray(value) || value.Null? then Some(key + " must be an object") else None
  }

  // ------------------------------------------------------------------ presence

  function IsRequired(value: Value, key: string): (r: Option<string>)
    ensures r.None? <==> !value.Undefined? && !value.Null?
    ensures r.Some? ==> r.value == key + " is required"
  {
    if value == Undefined || value == Null then Some(key + " is required") else None
  }

  // ------------------------------------------------------------- string length

  function MaxLength(max: int, value: Value, key: string): (r: Option<string>)
    ensures r.Some? <==> value.Str? && |value.s| > max
    ensures r.Some? ==> r.value == key + " must not exceed " + IntToString(max) + " characters"
  {
    if TypeOf(value) == "string" && |value.s| > max then
      Some(key + " must not exceed " + IntToString(max) + " characters")
    else None
  }

  function MinLength(min: int, value: Value, key: string): (r: Option<string>)
    ensures r.Some? <==> value.Str? && |value.s| < min
    ensures r.Some? ==> r.value == key + " must be at least " + IntToString(min) + " characters"
  {
    if TypeOf(value) == "string" && |value.s| < min then
      Some(key + " must be at least " + IntToString(min) + " characters")
    else None
  }

  function IsLength(min: int, max: int, value: Value, key: string): (r: Option<string>)
    ensures r.Some? <==> value.Str? && (|value.s| < min || |value.s| > max)
    ensures r.Some? ==>
      r.value == key + " must be between " + IntToString(min) + " and " + IntToString(max) + " characters long"
  {
    if TypeOf(value) == "string" && (|value.s| < min || |value.s| > max) then
      Some(key + " must be between " + IntToString(min) + " and " + IntToString(max) + " characters long")
    else None
  }

  // ------------------------------------------------------------- numeric value

  function MinValue(min: int, value: Value, key: string): (r: Option<string>)
    ensures r.Some? <==> value.Num? && value.n < min as real
    ensures r.Some? ==> r.value == key + " must be at least " + IntToString(min)
  {
    if TypeOf(value) == "number" && value.n < min as real then
      Some(key + " must be at least " + IntToString(min))
    else None
  }

  function MaxValue(max: int, value: Value, key: string): (r: Option<string>)
    ensures r.Some? <==> value.Num? && value.n > max as real
    ensures r.Some? ==> r.value == key + " must not exceed " + IntToString(max)
  {
    if TypeOf(value) == "number" && value.n > max as real then
      Some(key + " must not exceed " + IntToString(max))
    else None
  }

  /** `Number.isInteger` on an exact number: it has no fractional part. */
  function IsInteger(value: Value, key: string): (r: Option<string>)
    ensures r.None? <==> value.Num? && value.n == value.n.Floor as real
    ensures r.Some? ==> r.value == key + " must be an integer"
  {
    if TypeOf(value) != "number" || value.n.Floor as real != value.n then
      Some(key + " must be an integer")
    else None
  }

  function IsPositive(value: Value, key: string): (r: Option<string>)
    ensures r.Some? <==> value.Num? && value.n <= 0.0
    ensures r.Some? ==> r.value == key + " must be a positive number"
  {
    if TypeOf(value) == "number" && value.n <= 0.0 then Some(key + " must be a positive number") else None
  }

  function IsNegative(value: Value, key: string): (r: Option<string>)
    ensures r.Some? <==> value.Num? && value.n >= 0.0
    ensures r.Some? ==> r.value == key + " must be a negative number"
  {
    if TypeOf(value) == "number" && value.n >= 0.0 then Some(key + " must be a negative number") else None
  }

  // ---------------------------------------------------- array length, key in object

  function ArrayMaxLength(max: int, value: Value, key: string): (r: Option<string>)
    ensures r.Some? <==> value.Arr? && |value.elems| > max
    ensures r.Some? ==> r.value == key + " must not contain more than " + IntToString(max) + " items"
  {
    if IsArray(value) && |value.elems| > max then
      Some(key + " must not contain more than " + IntToString(max) + " items")
    else None
  }

  function ArrayMinLength(min: int, value: Value, key: string): (r: Option<string>)
    ensures r.Some? <==> value.Arr? && |value.elems| < min
    ensures r.Some? ==> r.value == key + " must contain at least " + IntToString(min) + " items"
  {
    if IsArray(value) && |value.elems| < min then
      Some(key + " must contain at least " + IntToString(min) + " items")
    else None
  }

  /**
   * `requiredKey in value` on a non-null, non-array object: inherited
   * properties count, so `{}` already "contains" `toString`.
   */
  function IsKeyInObject(requiredKey: string, value: Value, key: string): (r: Option<string>)
    ensures r.None? <==> (value.Obj? || IsDate(value)) && HasProperty(value, requiredKey)
    ensures HasOwnProperty(value, requiredKey) ==> r.None?
    ensures r.Some? ==> r.value == key + " must contain the key '" + requiredKey + "'"
  {
    if TypeOf(value) != "object" || IsArray(value) || value.Null? || !HasProperty(value, requiredKey) then
      Some(key + " must contain the key '" + requiredKey + "'")
    else None
  }

  // ------------------------------------------------------------------ patterns

  function IsAlpha(value: Value, key: string): (r: Option<string>)
    ensures r.None? <==> value.Str? && Matches(AlphaPattern, value.s)
    ensures r.None? <==> value.Str? && |value.s| > 0 && forall k :: 0 <= k < |value.s| ==> IsAsciiLetter(value.s[k])
    ensures r.Some? ==> r.value == key + " must only contain alphabetic characters"
  {
    if TypeOf(value) != "string" || !AlphaText(value.s) then
      (if value.Str? then AlphaTextMatches(value.s); Some(key + " must only contain alphabetic characters")
       else Some(key + " must only contain alphabetic characters"))
    else
      AlphaTextMatches(value.s);
      None
  }

  function IsAlphanumeric(value: Value, key: string): (r: Option<string>)
    ensures r.None? <==> value.Str? && Matches(AlphanumericPattern, value.s)
    ensures r.None? <==>
      value.Str? && |value.s| > 0 && forall k :: 0 <= k < |value.s| ==> IsAsciiLetter(value.s[k]) || IsDigit(value.s[k])
    ensures r.Some? ==> r.value == key + " must only contain alphanumeric characters"
  {
    if TypeOf(value) != "string" || !AlphanumericText(value.s) then
      (if value.Str? then AlphanumericTextMatches(value.s); Some(key + " must only contain alphanumeric characters")
       else Some(key + " must only contain alphanumeric characters"))
    else
      AlphanumericTextMatches(value.s);
      None
  }

  function IsEmail(value: Value, key: string): (r: Option<string>)
    ensures r.None? <==> value.Str? && Matches(EmailPattern, value.s)
    ensures r.Some? ==> r.value == key + " must be a valid email"
  {
    if TypeOf(value) != "string" || !EmailText(value.s) then
      (if value.Str? then EmailTextMatches(value.s); Some(key + " must be a valid email")
       else Some(key + " must be a valid email"))
    else
      EmailTextMatches(value.s);
      None
  }

  /**
   * The text `RegExp.test` gets from `String(value)`, for the values whose text
   * can consist of 24 hex digits. `None` stands for every value whose text
   * cannot: "undefined", "null", "true", "false", a number (at most 21 digits,
   * or a text with `e+`, `.`, `-` or letters outside a-f), "[object Object]",
   * a date's text, and an array of two or more elements (its text has a comma).
   * An array of one element prints as that element, `[]`, `[null]` and
   * `[undefined]` as the empty text.
   */
  function CoercedText(v: Value): Option<string> {
    match v
    case Str(s) => Some(s)
    case Arr(elems) =>
      if |elems| == 0 then Some("")
      else if |elems| == 1 then (if elems[0].Undefined? || elems[0].Null? then Some("") else CoercedText(elems[0]))
      else None
    case _ => None
  }

  function IsMongoId(value: Value, key: string): (r: Option<string>)
    ensures r.None? <==> CoercedText(value).Some? && Matches(MongoIdPattern, CoercedText(value).value)
    ensures value.Str? ==>
      (r.None? <==> |value.s| == 24 && forall k :: 0 <= k < |value.s| ==> IsHexDigit(value.s[k]))
    ensures r.Some? ==> r.value == key + " must be a valid MongoDB ID"
  {
    var text := CoercedText(value);
    if text.Some? then
      MongoIdTextMatches(text.value);
      if MongoIdText(text.value) then None else Some(key + " must be a valid MongoDB ID")
    else Some(key + " must be a valid MongoDB ID")
  }

  /** The list `isCountryCode` searches with `indexOf`. */
  const CountryCodes: seq<string> := [
    "AD", "AE", "AF", "AG", "AI", "AL", "AM", "AO", "AQ", "AR", "AS", "AT", "AU", "AW",
    "AX", "AZ", "BA", "BB", "BD", "BE", "BF", "BG", "BH", "BI", "BJ", "BL", "BM", "BN",
    "BO", "BQ", "BR", "BS", "BT", "BV", "BW", "BY", "BZ", "CA", "CC", "CD", "CF", "CG",
    "CH", "CI", "CK", "CL", "CM", "CN", "CO", "CR", "CU", "CV", "CW", "CX", "CY", "CZ",
    "DE", "DJ", "DK", "DM", "DO", "DZ", "EC", "EE", "EG", "EH", "ER", "ES", "ET", "FI",
    "FJ", "FM", "FO", "FR", "GA", "GB", "GD", "GE", "GF", "GG", "GH", "GI", "GL", "GM",
    "GN", "GP", "GQ", "GR", "GT", "GU", "GW", "GY", "HK", "HM", "HN", "HR", "HT", "HU",
    "ID", "IE", "IL", "IM", "IN", "IO", "IQ", "IR", "IS", "IT", "JE", "JM", "JO", "JP",
    "KE", "KG", "KH", "KI", "KM", "KN", "KP", "KR", "KW", "KY", "KZ", "LA", "LB", "LC",
    "LI", "LK", "LR", "LS", "LT", "LU", "LV", "LY", "MA", "MC", "MD", "ME", "MF", "MG",
    "MH", "MK", "ML", "MM", "MN", "MO", "MP", "MQ", "MR", "MS", "MT", "MU", "MV", "MW",
    "MX", "MY", "MZ", "NA", "NC", "NE", "NF", "NG", "NI", "NL", "NO", "NP", "NR", "NU",
    "NZ", "OM", "PA", "PE", "PF", "PG", "PH", "PK", "PL", "PM", "PN", "PR", "PT", "PW",
    "PY", "QA", "RE", "RO", "RS", "RU", "RW", "SA", "SB", "SC", "SD", "SE", "SG", "SH",
    "SI", "SJ", "SK", "SL", "SM", "SN", "SO", "SR", "SS", "ST", "SV", "SX", "SY", "SZ",
    "TC", "TD", "TF", "TG", "TH", "TJ", "TK", "TL", "TM", "TN", "TO", "TR", "TT", "TV",
    "TZ", "UA", "UG", "US", "UY", "UZ", "VA", "VC", "VE", "VG", "VI", "VN", "VU", "WF",
    "WS", "YE", "YT", "ZA", "ZM", "ZW"
  ]

  /** `indexOf` compares with `===`, so only a string equal to a listed code is found. */
  function IsCountryCode(value: Value, key: string): (r: Option<string>)
    ensures r.None? <==> value.Str? && value.s in CountryCodes
    ensures r.Some? ==> r.value == key + " must be a valid country code (e.g. US, IN, GB)"
  {
    if !(exists i :: 0 <= i < |CountryCodes| && value == Str(CountryCodes[i])) then
      Some(key + " must be a valid country code (e.g. US, IN, GB)")
    else None
  }

  // --------------------------------------------------------------------- dates

  /** `isDate`: a `Date` whose time value is not NaN. */
  function IsValidDate(value: Value, key: string): (r: Option<string>)
    ensures r.None? <==> value.DateV?
    ensures r.Some? ==> r.value == key + " must be a valid date"
  {
    if !IsDate(value) || value.InvalidDate? then Some(key + " must be a valid date") else None
  }

  /** `isFutureDate`, with the clock reading `now` (milliseconds) as a parameter. */
  function IsFutureDate(now: int, value: Value, key: string): (r: Option<string>)
    ensures r.Some? <==> value.DateV? && value.time <= now
    ensures r.Some? ==> r.value == key + " must be a future date"
  {
    if value.DateV? && value.time <= now then Some(key + " must be a future date") else None
  }

  /** `isPastDate`, with the clock reading `now` as a parameter. */
  function IsPastDate(now: int, value: Value, key: string): (r: Option<string>)
    ensures r.Some? <==> value.DateV? && value.time >= now
    ensures r.Some? ==> r.value == key + " must be a past date"
  {
    if value.DateV? && value.time >= now then Some(key + " must be a past date") else None
  }

  /** `isBeforeDate(date)`; `iso` renders a time value as `toISOString()` does. */
  function IsBeforeDate(date: int, iso: int -> string, value: Value, key: string): (r: Option<string>)
    ensures r.Some? <==> value.DateV? && value.time >= date
    ensures r.Some? ==> r.value == key + " must be before " + iso(date)
  {
    if value.DateV? && value.time >= date then Some(key + " must be before " + iso(date)) else None
  }

  /** `isDateInRange(startDate, endDate)`; both ends are inclusive. */
  function IsDateInRange(start: int, end: int, iso: int -> string, value: Value, key: string): (r: Option<string>)
    ensures r.Some? <==> value.DateV? && (value.time < start || value.time > end)
    ensures r.Some? ==> r.value == key + " must be between " + iso(start) + " and " + iso(end)
  {
    if value.DateV? && (value.time < start || value.time > end) then
      Some(key + " must be between " + iso(start) + " and " + iso(end))
    else None
  }

  // ---------------------------------------------------------------- combinators

  /** `customValidator(fn)`: a truthy message from `fn` is prefixed with the field name. */
  function Custom(fn: Value -> Option<string>, value: Value, key: string): (r: Option<string>)
    ensures r.None? <==> !Truthy(fn(value))
    ensures r.Some? ==> r.value == key + ": " + fn(value).value
  {
    var error := fn(value);
    if Truthy(error) then Some(key + ": " + error.value) else None
  }

  /** The name `${key}[${i}]` an array element is validated under. */
  function IndexedKey(key: string, i: nat): string {
    key + "[" + NatToString(i) + "]"
  }

  /** The name `${key}.${objectKey}` an object property is validated under. */
  function NestedKey(key: string, name: string): string {
    key + "." + name
  }

  /** Index of the first validator in `vs` whose result on `value` is truthy. */
  function FirstFailure(vs: seq<Validator>, value: Value, key: string): (r: Option<nat>)
    ensures r.Some? ==> r.value < |vs| && Fails(vs[r.value], value, key)
    ensures r.Some? ==> forall j :: 0 <= j < r.value ==> !Fails(vs[j], value, key)
    ensures r.None? <==> forall j :: 0 <= j < |vs| ==> !Fails(vs[j], value, key)
    decreases |vs|
  {
    if vs == [] then None
    else if Fails(vs[0], value, key) then Some(0)
    else match FirstFailure(vs[1..], value, key)
      case None => None
      case Some(j) => Some(j + 1)
  }

  /**
   * Run `vs` in order on one value and return the first truthy result: the
   * inner loop of both `arrayElementsValidator` and the middleware.
   */
  function FirstError(vs: seq<Validator>, value: Value, key: string): (r: Option<string>)
    ensures r.None? <==> forall j :: 0 <= j < |vs| ==> !Fails(vs[j], value, key)
    ensures r.Some? ==> Truthy(r)
    ensures r.Some? ==>
      FirstFailure(vs, value, key).Some? && r == vs[FirstFailure(vs, value, key).value](value, key)
  {
    match FirstFailure(vs, value, key)
    case None => None
    case Some(j) => vs[j](value, key)
  }

  /** The outer loop of `arrayElementsValidator`, from element `from` on. */
  function ScanElements(vs: seq<Validator>, elems: seq<Value>, key: string, from: nat): (r: Option<string>)
    requires from <= |elems|
    ensures r.None? <==> forall i :: from <= i < |elems| ==> FirstError(vs, elems[i], IndexedKey(key, i)).None?
    ensures r.Some? ==> Truthy(r)
    decreases |elems| - from
  {
    if from == |elems| then None
    else
      var error := FirstError(vs, elems[from], IndexedKey(key, from));
      if error.Some? then error else ScanElements(vs, elems, key, from + 1)
  }

  /** `arrayElementsValidator(elementValidators)`. */
  function ArrayElements(vs: seq<Validator>, value: Value, key: string): (r: Option<string>)
    ensures !value.Arr? ==> r == Some(key + " must be an array")
    ensures value.Arr? ==> (r.None? <==>
      forall i, j :: 0 <= i < |value.elems| && 0 <= j < |vs| ==> !Fails(vs[j], value.elems[i], IndexedKey(key, i)))
    ensures r.Some? ==> Truthy(r)
  {
    if !IsArray(value) then Some(key + " must be an array")
    else ScanElements(vs, value.elems, key, 0)
  }

  /** The properties `for...in` visits that `hasOwnProperty` keeps: an array's are its indices. */
  function OwnEntries(v: Value): seq<Prop> {
    match v
    case Obj(props) => props
    case Arr(elems) => seq(|elems|, i requires 0 <= i < |elems| => Prop(NatToString(i), elems[i]))
    case _ => []
  }

  /** The property has a sub-validator, and that sub-validator's result is truthy. */
  predicate EntryFails(kvs: map<string, Validator>, p: Prop, key: string) {
    p.name in kvs && Fails(kvs[p.name], p.value, NestedKey(key, p.name))
  }

  /** The loop of `objectKeysValidator` over the remaining properties `ps`. */
  function ScanEntries(kvs: map<string, Validator>, ps: seq<Prop>, key: string): (r: Option<string>)
    ensures r.None? <==> forall i :: 0 <= i < |ps| ==> !EntryFails(kvs, ps[i], key)
    ensures r.Some? ==> Truthy(r)
    decreases |ps|
  {
    if ps == [] then None
    else if EntryFails(kvs, ps[0], key) then kvs[ps[0].name](ps[0].value, NestedKey(key, ps[0].name))
    else ScanEntries(kvs, ps[1..], key)
  }

  /** `objectKeysValidator(keyValidators)`; arrays and dates pass the `typeof` test. */
  function ObjectKeys(kvs: map<string, Validator>, value: Value, key: string): (r: Option<string>)
    ensures !(value.Obj? || value.Arr? || IsDate(value)) ==> r == Some(key + " must be an object")
    ensures value.Obj? ==> (r.None? <==>
      forall p :: p in value.props && p.name in kvs ==> !Fails(kvs[p.name], p.value, NestedKey(key, p.name)))
    ensures value.Arr? ==> (r.None? <==>
      forall i :: 0 <= i < |value.elems| && NatToString(i) in kvs ==>
        !Fails(kvs[NatToString(i)], value.elems[i], NestedKey(key, NatToString(i))))
    ensures IsDate(value) ==> r.None?
    ensures r.Some? ==> Truthy(r)
  {
    if TypeOf(value) != "object" || value.Null? then Some(key + " must be an object")
    else
      var ps := OwnEntries(value);
      var r := ScanEntries(kvs, ps, key);
      assert value.Obj? ==> forall p :: p in value.props ==> exists i :: 0 <= i < |ps| && ps[i] == p;
      assert value.Arr? ==> forall i :: 0 <= i < |value.elems| ==> ps[i] == Prop(NatToString(i), value.elems[i]);
      r
  }

  // ------------------------------------------------------------------ factories

  function MaxLengthValidator(max: int): Validator { (v, k) => MaxLength(max, v, k) }
  function MinLengthValidator(min: int): Validator { (v, k) => MinLength(min, v, k) }
  function LengthValidator(min: int, max: int): Validator { (v, k) => IsLength(min, max, v, k) }
  function MinValueValidator(min: int): Validator { (v, k) => MinValue(min, v, k) }
  function MaxValueValidator(max: int): Validator { (v, k) => MaxValue(max, v, k) }
  function ArrayMaxLengthValidator(max: int): Validator { (v, k) => ArrayMaxLength(max, v, k) }
  function ArrayMinLengthValidator(min: int): Validator { (v, k) => ArrayMinLength(min, v, k) }
  function KeyInObjectValidator(requiredKey: string): Validator { (v, k) => IsKeyInObject(requiredKey, v, k) }
  function FutureDateValidator(now: int): Validator { (v, k) => IsFutureDate(now, v, k) }
  function PastDateValidator(now: int): Validator { (v, k) => IsPastDate(now, v, k) }
  function BeforeDateValidator(date: int, iso: int -> string): Validator { (v, k) => IsBeforeDate(date, iso, v, k) }
  function DateInRangeValidator(start: int, end: int, iso: int -> string): Validator {
    (v, k) => IsDateInRange(start, end, iso, v, k)
  }
  function CustomValidator(fn: Value -> Option<string>): Validator { (v, k) => Custom(fn, v, k) }
  function ArrayElementsValidator(vs: seq<Validator>): Validator { (v, k) => ArrayElements(vs, v, k) }
  function ObjectKeysValidator(kvs: map<string, Validator>): Validator { (v, k) => ObjectKeys(kvs, v, k) }
}
