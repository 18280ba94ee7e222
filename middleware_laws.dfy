/**
 * What `validateRequest` promises about the 400 answer as a whole: which
 * fields appear in it, with which message, when control passes on, and how
 * schemas and options combine.
 */
module MiddlewareLaws {
  import opened Wrappers
  import opened JsValues
  import opened Validators
  import opened Middleware

  /**
   * A field is reported exactly when one of its validators fails on its value,
   * and the report is the non-empty message of the first validator that fails.
   */
  lemma ErrorKeysAreFailingFields(schema: map<string, Entry>, data: map<string, Value>, key: string)
    ensures key in Errors(schema, data) <==>
      key in schema &&
      exists j :: 0 <= j < |ValidatorList(schema[key])| && Fails(ValidatorList(schema[key])[j], Lookup(data, key), key)
    ensures key in Errors(schema, data) ==>
      var vs, value := ValidatorList(schema[key]), Lookup(data, key);
      Errors(schema, data)[key] != "" &&
      FirstFailure(vs, value, key).Some? &&
      vs[FirstFailure(vs, value, key).value](value, key) == Some(Errors(schema, data)[key])
  {
    var errors := Errors(schema, data);
    if key in schema {
      var vs, value := ValidatorList(schema[key]), Lookup(data, key);
      var error := FieldError(schema, data, key);
      assert key in errors <==> error.Some?;
      if error.Some? {
        var j := FirstFailure(vs, value, key).value;
        assert Fails(vs[j], value, key);
        assert errors[key] == error.value;
      }
    }
  }

  /** `next()` is called exactly when the target is valid and no validator of any field fails. */
  lemma NextIffAllPass(schema: map<string, Entry>, options: Option<MiddlewareOptions>, req: Request)
    ensures Validate(schema, options, req) == Next <==>
      IsTargetName(TargetName(options)) &&
      forall key, j :: key in schema && 0 <= j < |ValidatorList(schema[key])| ==>
        !Fails(ValidatorList(schema[key])[j], Lookup(TargetData(req, TargetName(options)), key), key)
  {
    var t := TargetName(options);
    if IsTargetName(t) {
      var data := TargetData(req, t);
      var errors := Errors(schema, data);
      if errors == map[] {
        forall key, j | key in schema && 0 <= j < |ValidatorList(schema[key])|
          ensures !Fails(ValidatorList(schema[key])[j], Lookup(data, key), key)
        {
          ErrorKeysAreFailingFields(schema, data, key);
        }
      } else {
        var key :| key in errors;
        ErrorKeysAreFailingFields(schema, data, key);
      }
    }
  }

  /** Fields are validated independently: the errors of two disjoint schemas are the union of their errors. */
  lemma FieldsAreIndependent(s1: map<string, Entry>, s2: map<string, Entry>, data: map<string, Value>)
    requires s1.Keys !! s2.Keys
    ensures Errors(s1 + s2, data) == Errors(s1, data) + Errors(s2, data)
  {
    var s := s1 + s2;
    var check := k => if k in s then FieldError(s, data, k) else None;
    var check1 := k => if k in s1 then FieldError(s1, data, k) else None;
    var check2 := k => if k in s2 then FieldError(s2, data, k) else None;
    forall k | k in s1.Keys
      ensures check(k) == check1(k)
    {
      assert s[k] == s1[k];
    }
    forall k | k in s2.Keys
      ensures check(k) == check2(k)
    {
      assert s[k] == s2[k];
    }
    assert s.Keys * s.Keys == s1.Keys + s2.Keys;
    ReportsUnion(s1.Keys, s2.Keys, check);
    ReportsAgree(s1.Keys, check, check1);
    ReportsAgree(s2.Keys, check, check2);
    assert s1.Keys * s1.Keys == s1.Keys && s2.Keys * s2.Keys == s2.Keys;
  }

  /** Two schemas that give every field the same validators in the same order have the same errors. */
  lemma SameValidatorsSameErrors(s1: map<string, Entry>, s2: map<string, Entry>, data: map<string, Value>)
    requires s1.Keys == s2.Keys
    requires forall k :: k in s1 ==> ValidatorList(s1[k]) == ValidatorList(s2[k])
    ensures Errors(s1, data) == Errors(s2, data)
  {
    var check1 := k => if k in s1 then FieldError(s1, data, k) else None;
    var check2 := k => if k in s2 then FieldError(s2, data, k) else None;
    forall k | k in s1.Keys
      ensures check1(k) == check2(k)
    {
      assert ValidatorList(s1[k]) == ValidatorList(s2[k]);
    }
    ReportsAgree(s1.Keys, check1, check2);
    assert s1.Keys * s1.Keys == s1.Keys;
  }

  /** A single validator behaves exactly like a one-element validator array. */
  lemma SingleIsOneElementList(schema: map<string, Entry>, key: string, v: Validator, options: Option<MiddlewareOptions>, req: Request)
    ensures Validate(schema[key := Single(v)], options, req) == Validate(schema[key := Many([v])], options, req)
  {
    var t := TargetName(options);
    if IsTargetName(t) {
      SameValidatorsSameErrors(schema[key := Single(v)], schema[key := Many([v])], TargetData(req, t));
    }
  }

  /**
   * Without options, with an empty `target`, and with `target: "body"` the
   * handler validates the request body.
   */
  lemma DefaultTargetIsBody(schema: map<string, Entry>, req: Request)
    ensures Validate(schema, None, req) == Validate(schema, Some(MiddlewareOptions(None)), req)
    ensures Validate(schema, None, req) == Validate(schema, Some(MiddlewareOptions(Some("body"))), req)
    ensures Validate(schema, None, req) == if Errors(schema, req.body) == map[] then Next else Respond400(Errors(schema, req.body))
  {
  }

  /** A target outside `body`, `query` and `params` is refused without running any validator. */
  lemma UnknownTargetIsRefused(schema: map<string, Entry>, req: Request)
    ensures Validate(schema, Some(MiddlewareOptions(Some("headers"))), req) == Respond400(InvalidTarget)
  {
    assert "headers" != "body" && "headers" != "query" && "headers" != "params";
  }

  /** One validator alone reports exactly its own truthy result. */
  lemma OneValidator(v: Validator, value: Value, key: string)
    ensures FirstError([v], value, key) == if Truthy(v(value, key)) then v(value, key) else None
  {
    if Truthy(v(value, key)) {
      assert FirstFailure([v], value, key) == Some(0);
    }
  }

  lemma NameIsRequired()
    ensures IsRequired(Undefined, "name") == Some("name is required")
  {
    assert "name" + " is required" == "name is required";
  }

  lemma AgeMustBeANumber()
    ensures IsNumber(Undefined, "age") == Some("age must be a number")
  {
    assert "age" + " must be a number" == "age must be a number";
  }

  /**
   * A required `name` and a numeric `age` against an empty body: both fields
   * are reported, each with its own message.
   */
  lemma MissingFieldsExample(req: Request)
    requires req.body == map[]
    ensures Validate(map["name" := Single(IsRequired), "age" := Single(IsNumber)], None, req) ==
      Respond400(map["name" := "name is required", "age" := "age must be a number"])
  {
    var schema := map["name" := Single(IsRequired), "age" := Single(IsNumber)];
    assert Lookup(req.body, "name") == Undefined && Lookup(req.body, "age") == Undefined;
    NameIsRequired();
    AgeMustBeANumber();
    OneValidator(IsRequired, Undefined, "name");
    OneValidator(IsNumber, Undefined, "age");
    var errors := Errors(schema, req.body);
    assert errors.Keys == {"name", "age"};
    assert errors == map["name" := "name is required", "age" := "age must be a number"];
    assert "name" in errors;
  }
}
