/**
 * What the validators promise beyond one call: which failure the combinators
 * report, that every message names its field, and how the rules relate.
 */
module ValidatorLaws {
  import opened Wrappers
  import opened JsValues
  import opened Decimal
  import opened Patterns
  import opened Validators

  // --------------------------------------------- arrayElementsValidator's first failure

  /** The element `ScanElements` stops at: the first whose validators report an error. */
  lemma {:induction false} ScanElementsFirst(vs: seq<Validator>, elems: seq<Value>, key: string, from: nat)
    returns (i: nat)
    requires from <= |elems| && ScanElements(vs, elems, key, from).Some?
    ensures from <= i < |elems|
    ensures ScanElements(vs, elems, key, from) == FirstError(vs, elems[i], IndexedKey(key, i))
    ensures forall i' :: from <= i' < i ==> FirstError(vs, elems[i'], IndexedKey(key, i')).None?
    decreases |elems| - from
  {
    if FirstError(vs, elems[from], IndexedKey(key, from)).None? {
      assert ScanElements(vs, elems, key, from) == ScanElements(vs, elems, key, from + 1);
      i := ScanElementsFirst(vs, elems, key, from + 1);
      forall i' | from <= i' < i
        ensures FirstError(vs, elems[i'], IndexedKey(key, i')).None?
      {
        if i' > from {
          assert from + 1 <= i' < i;
        }
      }
    } else {
      i := from;
    }
  }

  /**
   * A failing array reports the error of the first failing (element, validator)
   * pair: elements in index order, validators in order within an element, each
   * run under the name `key[i]`.
   */
  lemma ArrayElementsFirstFailure(vs: seq<Validator>, value: Value, key: string) returns (i: nat, j: nat)
    requires value.Arr? && ArrayElements(vs, value, key).Some?
    ensures i < |value.elems| && j < |vs|
    ensures Fails(vs[j], value.elems[i], IndexedKey(key, i))
    ensures ArrayElements(vs, value, key) == vs[j](value.elems[i], IndexedKey(key, i))
    ensures forall i', j' :: 0 <= i' < i && 0 <= j' < |vs| ==> !Fails(vs[j'], value.elems[i'], IndexedKey(key, i'))
    ensures forall j' :: 0 <= j' < j ==> !Fails(vs[j'], value.elems[i], IndexedKey(key, i))
  {
    i := ScanElementsFirst(vs, value.elems, key, 0);
    j := FirstFailure(vs, value.elems[i], IndexedKey(key, i)).value;
  }

  // --------------------------------------------- objectKeysValidator's first failure

  /** The property `ScanEntries` stops at: the first whose sub-validator reports an error. */
  lemma {:induction false} ScanEntriesFirst(kvs: map<string, Validator>, ps: seq<Prop>, key: string)
    returns (i: nat)
    requires ScanEntries(kvs, ps, key).Some?
    ensures i < |ps| && EntryFails(kvs, ps[i], key)
    ensures ScanEntries(kvs, ps, key) == kvs[ps[i].name](ps[i].value, NestedKey(key, ps[i].name))
    ensures forall i' :: 0 <= i' < i ==> !EntryFails(kvs, ps[i'], key)
    decreases |ps|
  {
    if EntryFails(kvs, ps[0], key) {
      i := 0;
    } else {
      var k := ScanEntriesFirst(kvs, ps[1..], key);
      i := k + 1;
      assert forall i' :: 1 <= i' < i ==> ps[i'] == ps[1..][i' - 1];
    }
  }

  /**
   * A failing object (or array) reports the first own property, in enumeration
   * order, whose sub-validator fails under the name `key.name`; properties
   * without a sub-validator are skipped.
   */
  lemma ObjectKeysFirstFailure(kvs: map<string, Validator>, value: Value, key: string) returns (i: nat)
    requires (value.Obj? || value.Arr?) && ObjectKeys(kvs, value, key).Some?
    ensures var ps := OwnEntries(value);
      i < |ps| && ps[i].name in kvs &&
      Fails(kvs[ps[i].name], ps[i].value, NestedKey(key, ps[i].name)) &&
      ObjectKeys(kvs, value, key) == kvs[ps[i].name](ps[i].value, NestedKey(key, ps[i].name)) &&
      forall i' :: 0 <= i' < i ==> !EntryFails(kvs, ps[i'], key)
  {
    i := ScanEntriesFirst(kvs, OwnEntries(value), key);
  }

  /** The properties of `ps` that have a sub-validator. */
  function Validated(kvs: map<string, Validator>, ps: seq<Prop>): (r: seq<Prop>)
    ensures forall p :: p in r <==> p in ps && p.name in kvs
    decreases |ps|
  {
    if ps == [] then []
    else if ps[0].name in kvs then [ps[0]] + Validated(kvs, ps[1..])
    else Validated(kvs, ps[1..])
  }

  lemma {:induction false} ScanEntriesIgnoresUnvalidated(kvs: map<string, Validator>, ps: seq<Prop>, key: string)
    ensures ScanEntries(kvs, ps, key) == ScanEntries(kvs, Validated(kvs, ps), key)
    decreases |ps|
  {
    if ps != [] {
      ScanEntriesIgnoresUnvalidated(kvs, ps[1..], key);
      if ps[0].name in kvs {
        assert ([ps[0]] + Validated(kvs, ps[1..]))[1..] == Validated(kvs, ps[1..]);
      }
    }
  }

  /** Properties without a sub-validator never influence `objectKeysValidator`. */
  lemma ObjectKeysIgnoresUnvalidated(kvs: map<string, Validator>, props: seq<Prop>, key: string)
    ensures ObjectKeys(kvs, Obj(props), key) == ObjectKeys(kvs, Obj(Validated(kvs, props)), key)
  {
    ScanEntriesIgnoresUnvalidated(kvs, props, key);
  }

  // ------------------------------------------------------- every message names its field

  /** Whenever `v` fails, its message begins with the field name it was given. */
  ghost predicate NamesField(v: Validator) {
    forall value, key :: Fails(v, value, key) ==> key <= v(value, key).value
  }

  lemma PrefixTransitive(a: string, b: string, c: string)
    requires a <= b && b <= c
    ensures a <= c
  {
    assert c[..|a|] == c[..|b|][..|a|];
  }

  lemma SimpleChecksNameField()
    ensures NamesField(IsString) && NamesField(IsNumber) && NamesField(IsBoolean)
    ensures NamesField(IsArrayCheck) && NamesField(IsObject) && NamesField(IsRequired)
    ensures NamesField(IsInteger) && NamesField(IsPositive) && NamesField(IsNegative)
    ensures NamesField(IsAlpha) && NamesField(IsAlphanumeric) && NamesField(IsEmail)
    ensures NamesField(IsMongoId) && NamesField(IsCountryCode) && NamesField(IsValidDate)
  {
  }

  lemma ParameterisedChecksNameField()
    ensures forall max :: NamesField(MaxLengthValidator(max))
    ensures forall min :: NamesField(MinLengthValidator(min))
    ensures forall min, max :: NamesField(LengthValidator(min, max))
    ensures forall min :: NamesField(MinValueValidator(min))
    ensures forall max :: NamesField(MaxValueValidator(max))
    ensures forall max :: NamesField(ArrayMaxLengthValidator(max))
    ensures forall min :: NamesField(ArrayMinLengthValidator(min))
    ensures forall k :: NamesField(KeyInObjectValidator(k))
    ensures forall now :: NamesField(FutureDateValidator(now))
    ensures forall now :: NamesField(PastDateValidator(now))
    ensures forall date, iso :: NamesField(BeforeDateValidator(date, iso))
    ensures forall start, end, iso :: NamesField(DateInRangeValidator(start, end, iso))
    ensures forall fn :: NamesField(CustomValidator(fn))
  {
  }

  /** Element validators that name their field make `arrayElementsValidator` name its field. */
  lemma ArrayElementsNamesField(vs: seq<Validator>)
    requires forall j :: 0 <= j < |vs| ==> NamesField(vs[j])
    ensures NamesField(ArrayElementsValidator(vs))
  {
    forall value, key | Fails(ArrayElementsValidator(vs), value, key)
      ensures key <= ArrayElementsValidator(vs)(value, key).value
    {
      if value.Arr? {
        var i, j := ArrayElementsFirstFailure(vs, value, key);
        PrefixTransitive(key, IndexedKey(key, i), ArrayElements(vs, value, key).value);
      }
    }
  }

  /** Sub-validators that name their field make `objectKeysValidator` name its field. */
  lemma ObjectKeysNamesField(kvs: map<string, Validator>)
    requires forall name :: name in kvs ==> NamesField(kvs[name])
    ensures NamesField(ObjectKeysValidator(kvs))
  {
    forall value, key | Fails(ObjectKeysValidator(kvs), value, key)
      ensures key <= ObjectKeysValidator(kvs)(value, key).value
    {
      if value.Obj? || value.Arr? {
        var i := ObjectKeysFirstFailure(kvs, value, key);
        var ps := OwnEntries(value);
        PrefixTransitive(key, NestedKey(key, ps[i].name), ObjectKeys(kvs, value, key).value);
      }
    }
  }

  // ------------------------------------------------------------- how the rules relate

  /** At most one of the five type checks accepts a value; `undefined` and `null` pass none. */
  lemma TypeChecksExclusive(value: Value, key: string)
    ensures var accepted := [IsString(value, key).None?, IsNumber(value, key).None?,
      IsBoolean(value, key).None?, IsArrayCheck(value, key).None?, IsObject(value, key).None?];
      forall a, b :: 0 <= a < b < 5 ==> !(accepted[a] && accepted[b])
    ensures value.Undefined? || value.Null? ==>
      IsString(value, key).Some? && IsNumber(value, key).Some? && IsBoolean(value, key).Some? &&
      IsArrayCheck(value, key).Some? && IsObject(value, key).Some?
  {
  }

  /** `isLength(min, max)` rejects exactly what `minLength(min)` or `maxLength(max)` rejects. */
  lemma LengthIsMinAndMax(min: int, max: int, value: Value, key: string)
    ensures IsLength(min, max, value, key).None? <==>
      MinLength(min, value, key).None? && MaxLength(max, value, key).None?
  {
  }

  /** No number is both positive and negative, and zero is neither. */
  lemma PositiveNegativeDisjoint(value: Value, key: string)
    ensures value.Num? ==> IsPositive(value, key).Some? || IsNegative(value, key).Some?
    ensures value == Num(0.0) ==> IsPositive(value, key).Some? && IsNegative(value, key).Some?
  {
  }

  /** Alphabetic text is alphanumeric, and so is a Mongo ID. */
  lemma AlphaAndMongoIdAreAlphanumeric(value: Value, key: string)
    ensures IsAlpha(value, key).None? ==> IsAlphanumeric(value, key).None?
    ensures value.Str? && IsMongoId(value, key).None? ==> IsAlphanumeric(value, key).None?
  {
    if value.Str? && IsMongoId(value, key).None? {
      assert forall k :: 0 <= k < |value.s| ==> IsHexDigit(value.s[k]);
    }
  }

  /** `String(["…"])` is the element's text, so a one-element array holding an ID passes. */
  lemma MongoIdAcceptsWrappedId(id: string, key: string)
    ensures IsMongoId(Arr([Str(id)]), key).None? <==> IsMongoId(Str(id), key).None?
  {
  }

  // ----------------------------------------------------------------------- examples

  lemma SecondTagMessage()
    ensures IsNumber(Str("x"), IndexedKey("tags", 1)) == Some("tags[1] must be a number")
  {
    assert NatToString(1) == "1";
    assert IndexedKey("tags", 1) == "tags[1]";
    assert "tags[1]" + " must be a number" == "tags[1] must be a number";
  }

  /** `arrayElementsValidator([isNumber])` on `[1, "x", 3]` names element 1. */
  lemma ArrayElementsExample()
    ensures ArrayElements([IsNumber], Arr([Num(1.0), Str("x"), Num(3.0)]), "tags") == Some("tags[1] must be a number")
  {
    var elems := [Num(1.0), Str("x"), Num(3.0)];
    assert FirstFailure([IsNumber], elems[0], IndexedKey("tags", 0)) == None;
    SecondTagMessage();
    assert FirstFailure([IsNumber], elems[1], IndexedKey("tags", 1)) == Some(0);
    assert ScanElements([IsNumber], elems, "tags", 1) == Some("tags[1] must be a number");
  }

  /** `objectKeysValidator({age: isNumber})` checks `age` and ignores `name`. */
  lemma ObjectKeysExample()
    ensures ObjectKeys(map["age" := IsNumber], Obj([Prop("name", Num(1.0)), Prop("age", Str("x"))]), "user")
      == Some("user.age must be a number")
  {
    var kvs := map["age" := IsNumber];
    var ps := [Prop("name", Num(1.0)), Prop("age", Str("x"))];
    assert !EntryFails(kvs, ps[0], "user");
    assert NestedKey("user", "age") == "user.age";
    assert "user.age" + " must be a number" == "user.age must be a number";
    assert IsNumber(Str("x"), "user.age") == Some("user.age must be a number");
    assert EntryFails(kvs, ps[1], "user");
    assert ScanEntries(kvs, ps[1..], "user") == Some("user.age must be a number");
  }
}
