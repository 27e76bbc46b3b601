/**
 * types.go: the argonaut type checkers. A checker is handed a decoded JSON value and
 * whether the field was present at all, and returns the list of errors (an empty list
 * is Go's nil). Checkers confirm a type; they never convert a value.
 */
module TypeCheck {
  import opened Wrappers
  import opened Json
  import opened Strconv

  /** The `TypeChecker` implementations; `Array` holds an optional element checker. */
  datatype Checker =
    | Any
    | Integer(required: bool)
    | Number(required: bool)
    | Boolean(required: bool)
    | String(required: bool, maxLength: int)
    | Array(elemType: Option<Checker>)

  const FieldRequired := "Field is required"

  predicate IsScalar(t: Checker) {
    t.Integer? || t.Number? || t.Boolean? || t.String?
  }

  /** Whether `raw` has the Go dynamic type the scalar checker asserts. */
  predicate KindMatches(t: Checker, raw: Json)
    requires IsScalar(t)
  {
    match t
    case Integer(_) => raw.JNumber?
    case Number(_) => raw.JNumber?
    case Boolean(_) => raw.JBool?
    case String(_, _) => raw.JString?
  }

  function KindMessage(t: Checker): string
    requires IsScalar(t)
  {
    match t
    case Integer(_) => "Field must be an integer"
    case Number(_) => "Field must be a number"
    case Boolean(_) => "Field must be a boolean"
    case String(_, _) => "Field must be a string"
  }

  function TooLong(maxLength: int): string {
    "Field cannot be longer than " + FormatInt(maxLength) + " characters"
  }

  /**
   * The scalar checks: an optional field that is absent or null passes; a required
   * absent field is "required"; a present value of another kind is one kind error;
   * a string must also be non-empty and, under a positive limit, no longer than it.
   */
  function ScalarErrors(t: Checker, raw: Json, present: bool): (r: seq<string>)
    requires IsScalar(t)
    ensures |r| <= 1
    ensures r == [] <==>
      || (!t.required && (!present || raw.JNull?))
      || (present && KindMatches(t, raw)
          && (t.String? ==> |raw.s| > 0 && !(t.maxLength > 0 && |raw.s| > t.maxLength)))
    ensures t.required && !present ==> r == [FieldRequired]
    ensures present && (t.required || !raw.JNull?) && !KindMatches(t, raw) ==> r == [KindMessage(t)]
    ensures present && (t.Integer? || t.Number?) && raw.JNumber? ==> r == []
    ensures t.String? && present && raw == JString("") ==> r == [FieldRequired]
    ensures t.String? && present && raw.JString? && |raw.s| > 0 && t.maxLength > 0 && |raw.s| > t.maxLength
            ==> r == [TooLong(t.maxLength)]
  {
    if !t.required && (!present || raw.JNull?) then []
    else if t.required && !present then [FieldRequired]
    else if !KindMatches(t, raw) then [KindMessage(t)]
    else if t.String? && |raw.s| == 0 then [FieldRequired]
    else if t.String? && t.maxLength > 0 && |raw.s| > t.maxLength then [TooLong(t.maxLength)]
    else []
  }

  /** What `t.Check(raw, present)` returns, for every checker. */
  function Errors(t: Checker, raw: Json, present: bool): (r: seq<string>)
    decreases t, 0
  {
    match t
    case Any => []
    case Array(elemType) =>
      if !present then []
      else if !raw.JArray? then ["Field must be an array"]
      else if elemType.None? then []
      else ElemErrors(elemType.value, raw.elems)
    case _ => ScalarErrors(t, raw, present)
  }

  /** The errors of every element, each checked as present, in element order. */
  function ElemErrors(t: Checker, elems: seq<Json>): (r: seq<string>)
    decreases t, |elems|
  {
    if elems == [] then []
    else ElemErrors(t, elems[..|elems| - 1]) + Errors(t, elems[|elems| - 1], true)
  }

  /** Any passes everything; an absent array passes; a non-array is one error. */
  lemma ErrorsOfAnyAndArray(elemType: Option<Checker>, raw: Json, present: bool)
    ensures Errors(Any, raw, present) == []
    ensures !present ==> Errors(Array(elemType), raw, present) == []
    ensures present && !raw.JArray? ==> Errors(Array(elemType), raw, present) == ["Field must be an array"]
    ensures present && raw.JArray? && elemType.None? ==> Errors(Array(elemType), raw, present) == []
  {
  }

  /** Element errors concatenate: the errors of a split array are the two halves' errors in order. */
  lemma {:induction false} ElemErrorsAppend(t: Checker, xs: seq<Json>, ys: seq<Json>)
    ensures ElemErrors(t, xs + ys) == ElemErrors(t, xs) + ElemErrors(t, ys)
    decreases |ys|
  {
    if ys != [] {
      var zs := ys[..|ys| - 1];
      assert (xs + ys)[..|xs + ys| - 1] == xs + zs;
      ElemErrorsAppend(t, xs, zs);
    } else {
      assert xs + ys == xs;
    }
  }

  /** A typed array passes exactly when every element passes on its own. */
  lemma {:induction false} ElemErrorsEmptyIff(t: Checker, elems: seq<Json>)
    ensures ElemErrors(t, elems) == [] <==> forall i :: 0 <= i < |elems| ==> Errors(t, elems[i], true) == []
    decreases |elems|
  {
    if elems != [] {
      var init := elems[..|elems| - 1];
      ElemErrorsEmptyIff(t, init);
      assert forall i :: 0 <= i < |init| ==> init[i] == elems[i];
    }
  }

  /**
   * `Check`: scalar checkers are the case analysis above; an array with an element
   * checker checks each element as present and appends its errors one by one.
   */
  method Check(t: Checker, raw: Json, present: bool) returns (errs: seq<string>)
    ensures errs == Errors(t, raw, present)
    decreases t
  {
    if !t.Array? || !present || !raw.JArray? || t.elemType.None? {
      return Errors(t, raw, present);
    }
    var elemType := t.elemType.value;
    var elements := raw.elems;
    errs := [];
    var i := 0;
    while i < |elements|
      invariant 0 <= i <= |elements|
      invariant errs == ElemErrors(elemType, elements[..i])
    {
      var elemErrors := Check(elemType, elements[i], true);
      ghost var before := errs;
      var j := 0;
      while j < |elemErrors|
        invariant 0 <= j <= |elemErrors|
        invariant errs == before + elemErrors[..j]
      {
        errs := errs + [elemErrors[j]];
        j := j + 1;
      }
      assert elements[..i + 1][..i] == elements[..i];
      i := i + 1;
    }
    assert elements[..i] == elements;
  }

  /** The integer and boolean cases of the package's own checker tests; a fraction passes as an integer. */
  lemma NumberAndBooleanExamples()
    ensures Errors(Integer(false), JNumber(10.0), true) == []
    ensures Errors(Integer(false), JNull, false) == []
    ensures Errors(Integer(false), JString("What"), true) == ["Field must be an integer"]
    ensures Errors(Integer(true), JNull, false) == [FieldRequired]
    ensures Errors(Integer(true), JNumber(2.5), true) == []
    ensures Errors(Boolean(true), JBool(false), true) == []
    ensures Errors(Boolean(false), JNumber(10.0), true) == ["Field must be a boolean"]
  {
  }

  /** The string cases of the package's own checker tests, maximum length included. */
  lemma StringExamples()
    ensures Errors(String(false, 0), JNumber(10.0), true) == ["Field must be a string"]
    ensures Errors(String(true, 0), JString("What"), true) == []
    ensures Errors(String(false, 10), JString("What"), true) == []
    ensures Errors(String(false, 10), JString("Longer than Max"), true) == ["Field cannot be longer than 10 characters"]
  {
    assert Digits(10) == Digits(1) + ['0'] == "10";
    assert TooLong(10) == "Field cannot be longer than 10 characters";
  }
}
