# express-routes-validator in Dafny

This project models the core of `express-routes-validator`: the field
validators of `src/validators.ts` and the request handler built by
`validateRequest` in `src/middleware.ts`.

A validator receives a field's value and the field's name. It returns
either `null` or an error message that embeds the name. The handler
first picks the request section named by `options.target`: `body` by
default, or `query` or `params`. It then runs every schema field's
validators in order, keeping the first truthy message per field. Finally
it either answers 400 with `{errors}` or calls `next()`.

Modules:

- `Wrappers` (`wrappers.dfy`): `Option`.
- `Decimal` (`decimal.dfy`): the `${n}` rendering of integers, with its reading direction.
- `JsValues` (`js_values.dfy`): the JavaScript values a validator can see, plus `typeof`,
  `Array.isArray`, property lookup and the `in` operator.
- `Patterns` (`patterns.dfy`): a small semantics of anchored regular expressions that gives
  the validators' four fixed patterns their meaning, and the character-level predicates the
  validators evaluate, proved equal to those patterns.
- `Validators` (`validators.dfy`): every validator as a pure function.
  - A parameterised validator is a check with leading parameters plus a factory closure.
  - The inner loops of `arrayElementsValidator` and `objectKeysValidator` are recursive
    functions.
- `ValidatorLaws` (`validator_laws.dfy`): which failure the combinators report, that every
  message names its field, and how the rules relate.
- `Middleware` (`middleware.dfy`): the handler.
  - The method `ValidateRequest` is proved against the function `Validate`.
  - Its two loops are the methods `CollectErrors`, over the schema, and `RunValidators`,
    over one field's validators.
- `MiddlewareLaws` (`middleware_laws.dfy`): which fields the 400 answer lists and with which
  message, when `next()` is called, and how schemas and options combine.

Modelling choices:

- A validator is a total function `(Value, string) -> Option<string>`. `None` is `null`.
- The truthiness test `if (error)` is `Truthy`: `null` and `""` are falsy.
- Numbers are exact reals.
- Bounds passed to the length and value validators are integers. They render in messages
  through `Decimal.IntToString`.
- The clock (`new Date()`) is the parameter `now` of `IsFutureDate` and `IsPastDate`.
- `Date.prototype.toISOString` is the parameter `iso` of `IsBeforeDate` and `IsDateInRange`.
- A request is an immutable value. The handler therefore cannot change it, and its only
  effects are the outcome (`Respond400(errors)` or `Next`).
- The ghost map `ran` counts, per field, how many validators were called.
- A schema is a map from field names to `Single(v)` or `Many(vs)`.

## Model

| member | source | states |
|---|---|---|
| Decimal.NatToString | src/validators.ts:113 | the index text `${i}` is a non-empty string of decimal digits with no leading zero (only `0` itself starts with `0`) |
| Decimal.IntToString | src/validators.ts:24-31 | the `${max}` text of a bound is non-empty, starts with a minus sign exactly when the bound is negative, is decimal digits after that optional sign, and reads back as the bound |
| Decimal.NatToStringRoundTrip | src/validators.ts:113 | reading back the digits of the index text `${i}` gives `i` |
| Decimal.NatToStringInjective | src/validators.ts:113 | distinct element indices get distinct names `key[i]` |
| Patterns.PlusClass | src/validators.ts:194-199 | a `[...]+` class pattern matches exactly the non-empty strings of class members |
| Patterns.RepeatClass | src/validators.ts:559-565 | a `[...]{n}` class pattern matches exactly the strings of `n` class members |
| Patterns.AlphaTextMatches | src/validators.ts:194-199 | `/^[A-Za-z]+$/` matches exactly the non-empty strings of ASCII letters |
| Patterns.AlphanumericTextMatches | src/validators.ts:201-206 | `/^[A-Za-z0-9]+$/` matches exactly the non-empty strings of ASCII letters and digits |
| Patterns.MongoIdTextMatches | src/validators.ts:559-565 | `/^[a-f\d]{24}$/i` matches exactly the strings of 24 hexadecimal digits in either case |
| Patterns.EmailDomainTextMatches | src/validators.ts:42-48 | the part after `@` matches exactly when it has no white space or `@` and a dot with at least one character on each side |
| Patterns.EmailTextMatches | src/validators.ts:42-48 | the email pattern matches exactly when there is a non-empty local part, the first `@`, and such a domain |
| Validators.IsString | src/validators.ts:3-8 | fails exactly on non-strings, with "`key` must be a string" |
| Validators.IsNumber | src/validators.ts:10-15 | fails exactly on non-numbers, with "`key` must be a number" |
| Validators.IsRequired | src/validators.ts:17-22 | fails exactly on `undefined` and `null`; empty strings, `0` and `false` pass |
| Validators.MaxLength | src/validators.ts:24-31 | fails exactly on strings longer than `max`; non-strings pass; the message renders `max` in decimal |
| Validators.MinLength | src/validators.ts:33-40 | fails exactly on strings shorter than `min`; non-strings pass |
| Validators.IsEmail | src/validators.ts:42-48 | passes exactly the strings the email pattern matches; every non-string fails |
| Validators.MinValue | src/validators.ts:50-57 | fails exactly on numbers below `min`; non-numbers pass |
| Validators.MaxValue | src/validators.ts:59-66 | fails exactly on numbers above `max`; non-numbers pass |
| Validators.Custom | src/validators.ts:77-87 | fails exactly when `fn`'s result is truthy, and the message is "`key`: " followed by that result |
| Validators.IsArrayCheck | src/validators.ts:89-94 | fails exactly on non-arrays |
| Validators.FirstFailure | src/validators.ts:112-117 | the index of the first validator whose result is truthy: it fails and none before it does; none at all exactly when every validator passes |
| Validators.FirstError | src/middleware.ts:42-49 | no error exactly when every validator passes; otherwise the truthy result of the first failing validator |
| Validators.ScanElements | src/validators.ts:111-119 | no error exactly when no element from `from` on has an error under its name `key[i]`; any error is truthy |
| Validators.ArrayElements | src/validators.ts:103-121 | non-arrays get "`key` must be an array"; an array passes exactly when no validator fails on any element under `key[i]` |
| Validators.ScanEntries | src/validators.ts:131-143 | no error exactly when no property with a sub-validator fails under `key.name` |
| Validators.ObjectKeys | src/validators.ts:123-146 | primitives and `null` get "`key` must be an object"; an object passes exactly when no validated own property fails; an array is scanned by its indices; a date has no own properties and passes |
| Validators.IsBoolean | src/validators.ts:148-153 | fails exactly on non-booleans |
| Validators.IsObject | src/validators.ts:155-160 | passes exactly plain objects and dates; `null` and arrays fail |
| Validators.ArrayMaxLength | src/validators.ts:162-169 | fails exactly on arrays with more than `max` items; non-arrays pass |
| Validators.ArrayMinLength | src/validators.ts:171-178 | fails exactly on arrays with fewer than `min` items; non-arrays pass |
| Validators.IsKeyInObject | src/validators.ts:180-192 | passes exactly the objects and dates that have the key as an own or inherited property; an own property always passes |
| Validators.IsAlpha | src/validators.ts:194-199 | passes exactly the strings the pattern matches, i.e. the non-empty strings of ASCII letters |
| Validators.IsAlphanumeric | src/validators.ts:201-206 | passes exactly the non-empty strings of ASCII letters and digits, as the pattern says |
| Validators.IsLength | src/validators.ts:222-232 | fails exactly on strings whose length lies outside `[min, max]` |
| Validators.IsInteger | src/validators.ts:234-239 | passes exactly the numbers without a fractional part |
| Validators.IsPositive | src/validators.ts:241-246 | fails exactly on numbers `<= 0`; non-numbers pass |
| Validators.IsNegative | src/validators.ts:248-253 | fails exactly on numbers `>= 0`; non-numbers pass |
| Validators.IsValidDate | src/validators.ts:255-260 | passes exactly the dates whose time value is a number |
| Validators.IsFutureDate | src/validators.ts:262-267 | fails exactly on valid dates not after `now`; other values pass |
| Validators.IsPastDate | src/validators.ts:269-274 | fails exactly on valid dates not before `now`; other values pass |
| Validators.IsBeforeDate | src/validators.ts:276-283 | fails exactly on valid dates at or after `date`, naming `date` in ISO form |
| Validators.IsDateInRange | src/validators.ts:296-303 | fails exactly on valid dates outside the inclusive range |
| Validators.IsCountryCode | src/validators.ts:305-557 | passes exactly the strings in the list of 244 codes |
| Validators.IsMongoId | src/validators.ts:559-565 | passes exactly when `String(value)` matches the 24-hex-digit pattern; a string passes exactly when it is 24 hex digits |
| ValidatorLaws.ScanElementsFirst | src/validators.ts:111-118 | a failing scan returns the error of the first element that has one |
| ValidatorLaws.ArrayElementsFirstFailure | src/validators.ts:103-121 | a failing array reports the first failing (element, validator) pair: elements in index order, validators in order within an element |
| ValidatorLaws.ScanEntriesFirst | src/validators.ts:131-142 | a failing scan returns the result of the first property whose sub-validator fails |
| ValidatorLaws.ObjectKeysFirstFailure | src/validators.ts:123-146 | a failing object reports the first own property, in enumeration order, whose sub-validator fails under `key.name` |
| ValidatorLaws.ScanEntriesIgnoresUnvalidated | src/validators.ts:131-142 | dropping the properties without a sub-validator does not change the scan's result |
| ValidatorLaws.ObjectKeysIgnoresUnvalidated | src/validators.ts:133-135 | properties without a sub-validator never influence `objectKeysValidator` |
| ValidatorLaws.SimpleChecksNameField | src/validators.ts:3-565 | every failing message of the fixed validators begins with the field name |
| ValidatorLaws.ParameterisedChecksNameField | src/validators.ts:24-303 | every failing message of every parameterised validator, for all parameters, begins with the field name |
| ValidatorLaws.ArrayElementsNamesField | src/validators.ts:103-121 | if the element validators name their field, so does `arrayElementsValidator`, because `key[i]` begins with `key` |
| ValidatorLaws.ObjectKeysNamesField | src/validators.ts:123-146 | if the sub-validators name their field, so does `objectKeysValidator`, because `key.name` begins with `key` |
| ValidatorLaws.TypeChecksExclusive | src/validators.ts:3-160 | at most one of the five type checks accepts a value, and `undefined` and `null` pass none |
| ValidatorLaws.LengthIsMinAndMax | src/validators.ts:222-232 | `isLength(min, max)` rejects exactly what `minLength(min)` or `maxLength(max)` rejects |
| ValidatorLaws.PositiveNegativeDisjoint | src/validators.ts:241-253 | no number passes both `isPositive` and `isNegative`, and zero passes neither |
| ValidatorLaws.AlphaAndMongoIdAreAlphanumeric | src/validators.ts:194-206 | alphabetic text passes `isAlphanumeric`, and so does a string that passes `isMongoId` |
| ValidatorLaws.MongoIdAcceptsWrappedId | src/validators.ts:559-565 | a one-element array holding a string passes exactly when the string does |
| ValidatorLaws.ArrayElementsExample | src/validators.ts:103-121 | `[1, "x", 3]` under `[isNumber]` reports "tags[1] must be a number" |
| ValidatorLaws.ObjectKeysExample | src/validators.ts:123-146 | `{name: 1, age: "x"}` under `{age: isNumber}` reports "user.age must be a number" |
| Middleware.Errors | src/middleware.ts:27-51 | the error map has no key outside the schema |
| Middleware.Validate | src/middleware.ts:17-60 | an invalid target answers 400 with the target error, and a 400 answer never has an empty error map |
| Middleware.Attempts | src/middleware.ts:42-49 | the validators run on a field are those up to and including the first failure, or all of them |
| Middleware.FirstFailureAt | src/middleware.ts:45-47 | the `break` happens at the first failing validator |
| Middleware.ErrorsOnStep | src/middleware.ts:46 | processing one more field adds its first error, if it has one, and nothing else |
| Middleware.AttemptsOnStep | src/middleware.ts:42-49 | processing one more field records its call count and changes no other field's |
| Middleware.RunValidators | src/middleware.ts:42-49 | the loop returns the first truthy result and makes exactly `Attempts` calls |
| Middleware.CollectErrors | src/middleware.ts:27-51 | after the loop over the schema, the error map is `Errors` and each field's call count is recorded |
| Middleware.ValidateRequest | src/middleware.ts:17-60 | the handler's outcome is `Validate`'s; no validator runs when the target is invalid, and otherwise each field runs exactly its `Attempts` |
| MiddlewareLaws.ErrorKeysAreFailingFields | src/middleware.ts:30-51 | a field appears in the 400 answer exactly when one of its validators fails, with the non-empty message of the first failing one |
| MiddlewareLaws.NextIffAllPass | src/middleware.ts:53-59 | `next()` is called exactly when the target is valid and no validator of any field fails |
| MiddlewareLaws.FieldsAreIndependent | src/middleware.ts:30-51 | the errors of two schemas with disjoint fields are the union of their errors |
| MiddlewareLaws.SameValidatorsSameErrors | src/middleware.ts:34-40 | schemas giving each field the same validator list have the same errors |
| MiddlewareLaws.SingleIsOneElementList | src/middleware.ts:34-40 | a single validator behaves exactly like a one-element array of it |
| MiddlewareLaws.DefaultTargetIsBody | src/middleware.ts:15-19 | no options, a missing target, and `target: "body"` all validate the body |
| MiddlewareLaws.UnknownTargetIsRefused | src/middleware.ts:20-24 | `target: "headers"` answers 400 with "Invalid target specified" |
| MiddlewareLaws.MissingFieldsExample | src/middleware.ts:13-61 | `{name: isRequired, age: isNumber}` against an empty body reports both fields with their own messages |

## Left out

- `matchesPattern` (src/validators.ts:68-75) takes an arbitrary `RegExp`. Modelling it would need a full regular-expression engine. The semantics here covers only the four fixed patterns.
- `isLowercase` and `isUppercase` (src/validators.ts:208-220) compare with `toLowerCase`/`toUpperCase`, whose Unicode case mapping is not modelled.
- `trimString` and `capitalizeString` (src/validators.ts:96-101, 567-572) return the transformed value rather than an error. Used as validators, any non-empty result is truthy and would be reported as an error message. Their string transformations are not modelled.
- `isEmailUnique` (src/validators.ts:285-294) is asynchronous. Its signature `(key, value, existingEmails)` is not a validator's, and the handler never calls it.
- The `.flat()` call (src/middleware.ts:36) flattens nested validator arrays by one level. A schema entry here is a single validator or a flat list, so nested lists are not modelled.
- Lengths are counted in characters (Dafny `char`), whereas `String.length` counts UTF-16 code units. The two differ only for characters outside the Basic Multilingual Plane.
- Length and value bounds are integers. A fractional bound would render through JavaScript's number formatting, which is not modelled.
- `Decimal.IntToString` writes the positional form, which JavaScript uses only for magnitudes below 10^21.
- Numbers are exact reals: `NaN`, the infinities and floating-point rounding are not modelled.
- `JsValues.Lookup`: `targetData[key]` (src/middleware.ts:43) also finds inherited names such as `constructor` or `toString`. Here a key that is not an own property of the request section reads as `undefined`.
- `Validators.ObjectKeys`: `keyValidators[objectKey]` (src/validators.ts:133) also finds inherited names, which the model reads as missing. So a client property that the schema does not validate can still select a prototype method as its sub-validator:
  - `constructor` selects `Object`, and the "error" is the object `Object(value)`, so the answer is 400;
  - `toString` selects `Object.prototype.toString`, and the "error" is `"[object Undefined]"`, so the answer is 400;
  - `valueOf`, `__proto__` and the other prototype names make the call throw.
  The model passes every such property.
- `Middleware.TargetData`: a request section that the framework left `undefined` (so `targetData[key]` would throw) is not modelled. All three sections are maps.
- `res.status(400).json(...)` and `next()` are the outcome values `Respond400` and `Next`. Serialisation of the error object, including its key order, is not modelled.
- `Middleware.CollectErrors`: fields are taken in an arbitrary order. Each field's result depends only on that field, so the order cannot change the error map.
- The clock behind `isFutureDate`/`isPastDate` and the ISO rendering of `isBeforeDate`/`isDateInRange` are parameters. Their exact text is not modelled.
- `Validators.IsBeforeDate`: the bound `date` is an integer time value, so an invalid `Date` bound cannot be expressed. In the source every `value >= date` against an invalid bound is false, so `isBeforeDate` (src/validators.ts:276-283) never fails.
- `Validators.IsDateInRange`: the bounds are integer time values, so an invalid `startDate` or `endDate` cannot be expressed. In the source the comparison against an invalid bound is false, but a valid date beyond the other bound still takes the error branch. Building that message calls `toISOString()` on the invalid bound (src/validators.ts:296-303), which throws a RangeError. The model has no thrown outcome.
- `Validators.IsMongoId`: `String(value)` is computed only for strings and arrays that print as a single string. Every other value is treated as text that cannot be 24 hex digits. Numbers, dates and plain objects with the default `toString` do print with characters outside `[0-9a-f]` or with too few digits. An object with its own non-function `toString` (parsed JSON such as `{"toString": 1}`, or `[{"toString": 1}]`) makes `mongoIdPattern.test(value)` (src/validators.ts:561) throw "Cannot convert object to primitive value". The model has no thrown outcome and reports "… must be a valid MongoDB ID" instead. An own `toString` that is a function is not modelled either.
- `Validators.ObjectKeys`: the properties of an object are its own enumerable string-keyed properties in `for...in` order. Integer-like keys, which JavaScript enumerates first, are assumed to be already in that position in the list.
- `Validators.ObjectKeys`: an object with an own property named `hasOwnProperty` (parsed JSON such as `{"hasOwnProperty": 1}`) makes `value.hasOwnProperty(objectKey)` (src/validators.ts:132) throw a TypeError, which the framework turns into a 500 answer. The model has no thrown outcome and scans such an object like any other.
- `Middleware.Errors`: a schema with an own key `"__proto__"` stores its error through `errors[key] = error` (src/middleware.ts:46), which invokes the `__proto__` setter and adds no key. `Object.keys(errors)` then omits that field, and `next()` runs when it is the only failing field. The model records the error under `"__proto__"` like any other key and answers 400.
