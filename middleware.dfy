/**
 * `validateRequest(schema, options)`: the request handler that picks the
 * target section of the request, runs every field's validators and either
 * answers 400 with the collected errors or passes control on with `next()`.
 */
module Middleware {
  import opened Wrappers
  import opened JsValues
  import opened Validators

  /** A schema entry, `Validator | Validator[]`. */
  datatype Entry = Single(validator: Validator) | Many(validators: seq<Validator>)

  /** The list the handler iterates: an array as it is, a single validator wrapped. */
  function ValidatorList(e: Entry): seq<Validator> {
    match e
    case Single(v) => [v]
    case Many(vs) => vs
  }

  /** `MiddlewareOptions`; a `target` that is `undefined` or `null` is `None`. */
  datatype MiddlewareOptions = MiddlewareOptions(target: Option<string>)

  /** The parsed sections of a request that validation can read. */
  datatype Request = Request(body: map<string, Value>, query: map<string, Value>, params: map<string, Value>)

  /** What the handler does: `res.status(400).json({errors})`, or `next()`. */
  datatype Outcome = Respond400(errors: map<string, string>) | Next

  /** `options.target ?? "body"`, where a missing `options` defaults to `{target: "body"}`. */
  function TargetName(options: Option<MiddlewareOptions>): string {
    match options
    case None => "body"
    case Some(o) => if o.target.Some? then o.target.value else "body"
  }

  predicate IsTargetName(t: string) {
    t in ["body", "query", "params"]
  }

  /** The body of the 400 answer to a misconfigured target. */
  const InvalidTarget: map<string, string> := map["target" := "Invalid target specified"]

  /** `req[target]`. */
  function TargetData(req: Request, t: string): map<string, Value>
    requires IsTargetName(t)
  {
    if t == "body" then req.body else if t == "query" then req.query else req.params
  }

  /** The error recorded for one schema field: the first truthy validator result. */
  function FieldError(schema: map<string, Entry>, data: map<string, Value>, key: string): Option<string>
    requires key in schema
  {
    FirstError(ValidatorList(schema[key]), Lookup(data, key), key)
  }

  /** The map from each key of `keys` that `check` reports on to its report. */
  function Reports(keys: set<string>, check: string -> Option<string>): (m: map<string, string>)
    ensures m.Keys <= keys
    ensures forall k :: k in m ==> check(k) == Some(m[k])
  {
    map k | k in keys && check(k).Some? :: check(k).value
  }

  /** The errors of the schema fields in `keys`: one entry per field that has a failing validator. */
  function ErrorsOn(schema: map<string, Entry>, data: map<string, Value>, keys: set<string>): (errors: map<string, string>)
    ensures errors.Keys <= keys * schema.Keys
  {
    Reports(keys * schema.Keys, k => if k in schema then FieldError(schema, data, k) else None)
  }

  /** The error map of the whole schema. */
  function Errors(schema: map<string, Entry>, data: map<string, Value>): (errors: map<string, string>)
    ensures errors.Keys <= schema.Keys
  {
    ErrorsOn(schema, data, schema.Keys)
  }

  /** What the handler does with one request, stated over whole maps. */
  function Validate(schema: map<string, Entry>, options: Option<MiddlewareOptions>, req: Request): (r: Outcome)
    ensures !IsTargetName(TargetName(options)) ==> r == Respond400(InvalidTarget)
    ensures r.Respond400? ==> |r.errors| > 0
  {
    var t := TargetName(options);
    if !IsTargetName(t) then Respond400(InvalidTarget)
    else
      var errors := Errors(schema, TargetData(req, t));
      if |errors| > 0 then Respond400(errors) else Next
  }

  /**
   * How many of `vs` run on a field: every one up to and including the first
   * failure, and all of them when none fails.
   */
  function Attempts(vs: seq<Validator>, value: Value, key: string): (n: nat)
    ensures n <= |vs|
    ensures forall j :: 0 <= j < n - 1 ==> !Fails(vs[j], value, key)
    ensures n < |vs| ==> 0 < n && Fails(vs[n - 1], value, key)
    ensures (exists j :: 0 <= j < |vs| && Fails(vs[j], value, key)) ==> 0 < n && Fails(vs[n - 1], value, key)
  {
    match FirstFailure(vs, value, key)
    case Some(j) => j + 1
    case None => |vs|
  }

  /** The first failure of a field is at `i` when `i` fails and nothing before it does. */
  lemma FirstFailureAt(vs: seq<Validator>, value: Value, key: string, i: nat)
    requires i < |vs| && Fails(vs[i], value, key)
    requires forall j :: 0 <= j < i ==> !Fails(vs[j], value, key)
    ensures FirstFailure(vs, value, key) == Some(i)
  {
  }

  /** How many validators run on each of the schema fields in `keys`. */
  ghost function AttemptsOn(schema: map<string, Entry>, data: map<string, Value>, keys: set<string>): (m: map<string, nat>)
    ensures m.Keys == keys * schema.Keys
  {
    map k | k in keys * schema.Keys :: CallCount(schema, data, k)
  }

  ghost function CallCount(schema: map<string, Entry>, data: map<string, Value>, key: string): nat {
    if key in schema then Attempts(ValidatorList(schema[key]), Lookup(data, key), key) else 0
  }

  /** Taking one more key into account adds its report, if it has one, and nothing else. */
  lemma ReportsAdd(keys: set<string>, check: string -> Option<string>, key: string)
    ensures check(key).Some? ==> Reports(keys + {key}, check) == Reports(keys, check)[key := check(key).value]
    ensures check(key).None? ==> Reports(keys + {key}, check) == Reports(keys, check)
  {
    var after, before := Reports(keys + {key}, check), Reports(keys, check);
    if check(key).Some? {
      assert after.Keys == before.Keys + {key};
    } else {
      assert after.Keys == before.Keys;
    }
  }

  /** Checks that agree on every key give the same reports. */
  lemma ReportsAgree(keys: set<string>, check1: string -> Option<string>, check2: string -> Option<string>)
    requires forall k :: k in keys ==> check1(k) == check2(k)
    ensures Reports(keys, check1) == Reports(keys, check2)
  {
    assert Reports(keys, check1).Keys == Reports(keys, check2).Keys;
  }

  /** The reports on two sets of keys together are the union of the reports on each. */
  lemma ReportsUnion(keys1: set<string>, keys2: set<string>, check: string -> Option<string>)
    ensures Reports(keys1 + keys2, check) == Reports(keys1, check) + Reports(keys2, check)
  {
    assert Reports(keys1 + keys2, check).Keys == Reports(keys1, check).Keys + Reports(keys2, check).Keys;
  }

  /** Processing one more field adds its error, if it has one, and nothing else. */
  lemma ErrorsOnStep(schema: map<string, Entry>, data: map<string, Value>, keys: set<string>, key: string, error: Option<string>)
    requires key in schema && error == FieldError(schema, data, key)
    ensures ErrorsOn(schema, data, keys + {key}) ==
      if error.Some? then ErrorsOn(schema, data, keys)[key := error.value] else ErrorsOn(schema, data, keys)
  {
    var check := k => if k in schema then FieldError(schema, data, k) else None;
    assert (keys + {key}) * schema.Keys == keys * schema.Keys + {key};
    ReportsAdd(keys * schema.Keys, check, key);
  }

  lemma AttemptsOnStep(schema: map<string, Entry>, data: map<string, Value>, keys: set<string>, key: string, calls: nat)
    requires key in schema && calls == CallCount(schema, data, key)
    ensures AttemptsOn(schema, data, keys + {key}) == AttemptsOn(schema, data, keys)[key := calls]
  {
    assert AttemptsOn(schema, data, keys + {key}).Keys == AttemptsOn(schema, data, keys).Keys + {key};
  }

  /**
   * The inner loop of the handler for one field: call the validators in
   * order and stop at the first truthy result. `calls` counts the calls made.
   */
  method RunValidators(validators: seq<Validator>, value: Value, key: string)
    returns (error: Option<string>, ghost calls: nat)
    ensures error == FirstError(validators, value, key)
    ensures calls == Attempts(validators, value, key)
  {
    calls := 0;
    var i := 0;
    while i < |validators|
      invariant 0 <= i <= |validators|
      invariant calls == i
      invariant forall j :: 0 <= j < i ==> !Fails(validators[j], value, key)
    {
      var result := validators[i](value, key);
      calls := calls + 1;
      if Truthy(result) {
        FirstFailureAt(validators, value, key, i);
        return result, calls;
      }
      i := i + 1;
    }
    return None, calls;
  }

  /**
   * The loop of the handler over the schema fields: every field's first
   * error is recorded under its key. `ran` counts the validator calls per field.
   */
  method CollectErrors(schema: map<string, Entry>, data: map<string, Value>)
    returns (errors: map<string, string>, ghost ran: map<string, nat>)
    ensures errors == Errors(schema, data)
    ensures ran == AttemptsOn(schema, data, schema.Keys)
  {
    errors, ran := map[], map[];
    var todo := schema.Keys;
    ghost var done: set<string> := {};
    while todo != {}
      invariant todo + done == schema.Keys && todo !! done
      invariant errors == ErrorsOn(schema, data, done)
      invariant ran == AttemptsOn(schema, data, done)
      decreases todo
    {
      var key :| key in todo;
      var error, calls := RunValidators(ValidatorList(schema[key]), Lookup(data, key), key);
      if error.Some? {
        errors := errors[key := error.value];
      }
      ErrorsOnStep(schema, data, done, key, error);
      ran := ran[key := calls];
      AttemptsOnStep(schema, data, done, key, calls);
      todo, done := todo - {key}, done + {key};
    }
  }

  /**
   * The handler. `ran` records, per field, how many validators were called:
   * none at all when the target is invalid.
   */
  method ValidateRequest(schema: map<string, Entry>, options: Option<MiddlewareOptions>, req: Request)
    returns (outcome: Outcome, ghost ran: map<string, nat>)
    ensures outcome == Validate(schema, options, req)
    ensures !IsTargetName(TargetName(options)) ==> ran == map[]
    ensures IsTargetName(TargetName(options)) ==>
      ran == AttemptsOn(schema, TargetData(req, TargetName(options)), schema.Keys)
  {
    var target := TargetName(options);
    if !IsTargetName(target) {
      return Respond400(InvalidTarget), map[];
    }
    var errors;
    errors, ran := CollectErrors(schema, TargetData(req, target));
    if |errors| > 0 {
      outcome := Respond400(errors);
    } else {
      outcome := Next;
    }
  }
}
