/**
  Spring's Errors object as the validators use it: a list of field errors,
  each a field path and an error code, and a nested path with its stack,
  under which rejected field names are recorded.
 */
module ValidationErrors {
  import opened Wrappers
  import opened Strings

  datatype FieldError = FieldError(field: string, code: string)

  const NESTED_PATH_SEPARATOR: char := '.'

  /** The error codes, in order. */
  function Codes(errors: seq<FieldError>): (r: seq<string>)
    ensures |r| == |errors|
    ensures forall i :: 0 <= i < |errors| ==> r[i] == errors[i].code
  {
    if errors == [] then [] else [errors[0].code] + Codes(errors[1..])
  }

  lemma CodesConcat(a: seq<FieldError>, b: seq<FieldError>)
    ensures Codes(a + b) == Codes(a) + Codes(b)
  {
    assert |Codes(a + b)| == |Codes(a) + Codes(b)|;
    forall i | 0 <= i < |a + b|
      ensures Codes(a + b)[i] == (Codes(a) + Codes(b))[i]
    {
      if i < |a| {
        assert (a + b)[i] == a[i];
      } else {
        assert (a + b)[i] == b[i - |a|];
      }
    }
  }

  /** Regrouping errors appended by consecutive validation steps. */
  lemma AppendTwo<T>(a: seq<T>, b: seq<T>, c: seq<T>)
    ensures a + b + c == a + (b + c)
  {
  }

  lemma AppendThree<T>(a: seq<T>, b: seq<T>, c: seq<T>, d: seq<T>)
    ensures a + b + c + d == a + (b + c + d)
  {
  }

  /** The error rejectValue records for a field under a nested path. */
  function Rejection(path: string, field: string, code: string): seq<FieldError> {
    [FieldError(path + field, code)]
  }

  function RejectionIf(condition: bool, path: string, field: string, code: string): seq<FieldError> {
    if condition then Rejection(path, field, code) else []
  }

  /** What rejectIfEmpty treats as empty: null, or a value whose text is "". */
  predicate IsEmptyValue(value: Option<string>) {
    value.None? || value.value == ""
  }

  /** A nested path is empty or ends with the separator. */
  predicate IsNestedPath(path: string) {
    path == [] || path[|path| - 1] == NESTED_PATH_SEPARATOR
  }

  /** How a nested path is stored: a separator is appended unless it is empty or has one. */
  function NestedPath(path: string): (r: string)
    ensures IsNestedPath(r)
    ensures r == path || r == path + [NESTED_PATH_SEPARATOR]
    ensures IsNestedPath(path) ==> r == path
  {
    if IsNestedPath(path) then path else path + [NESTED_PATH_SEPARATOR]
  }

  class Errors {
    var nestedPath: string
    var nestedPathStack: seq<string>
    var fieldErrors: seq<FieldError>

    predicate Valid()
      reads this
    {
      IsNestedPath(nestedPath) &&
      forall i :: 0 <= i < |nestedPathStack| ==> IsNestedPath(nestedPathStack[i])
    }

    predicate HasErrors()
      reads this
    {
      fieldErrors != []
    }

    constructor ()
      ensures Valid()
      ensures nestedPath == "" && nestedPathStack == [] && fieldErrors == []
    {
      nestedPath := "";
      nestedPathStack := [];
      fieldErrors := [];
    }

    /** rejectValue: records the field under the current nested path. */
    method RejectValue(field: string, code: string)
      requires field != ""
      modifies this`fieldErrors
      ensures fieldErrors == old(fieldErrors) + Rejection(nestedPath, field, code)
    {
      fieldErrors := fieldErrors + [FieldError(nestedPath + field, code)];
    }

    /** pushNestedPath: the current path is saved and the sub-path appended to it. */
    method PushNestedPath(subPath: string)
      requires Valid()
      modifies this`nestedPath, this`nestedPathStack
      ensures Valid()
      ensures nestedPathStack == old(nestedPathStack) + [old(nestedPath)]
      ensures nestedPath == NestedPath(old(nestedPath) + subPath)
    {
      nestedPathStack := nestedPathStack + [nestedPath];
      nestedPath := NestedPath(nestedPath + subPath);
    }

    /**
      popNestedPath: the last saved path comes back; with nothing saved it
      fails (an IllegalStateException) and nothing changes.
     */
    method PopNestedPath() returns (popped: bool)
      requires Valid()
      modifies this`nestedPath, this`nestedPathStack
      ensures Valid()
      ensures popped <==> old(nestedPathStack) != []
      ensures popped ==> nestedPathStack == old(nestedPathStack)[..|old(nestedPathStack)| - 1]
      ensures popped ==> nestedPath == old(nestedPathStack)[|old(nestedPathStack)| - 1]
      ensures !popped ==> nestedPath == old(nestedPath) && nestedPathStack == old(nestedPathStack)
    {
      if nestedPathStack == [] {
        popped := false;
      } else {
        var former := nestedPathStack[|nestedPathStack| - 1];
        nestedPathStack := nestedPathStack[..|nestedPathStack| - 1];
        nestedPath := NestedPath(former);
        popped := true;
      }
    }
  }

  /** ValidationUtils.rejectIfEmpty, given the value the Errors object reads for the field. */
  method RejectIfEmpty(errors: Errors, field: string, code: string, value: Option<string>)
    requires field != ""
    modifies errors`fieldErrors
    ensures errors.fieldErrors == old(errors.fieldErrors) + RejectionIf(IsEmptyValue(value), errors.nestedPath, field, code)
  {
    if IsEmptyValue(value) {
      errors.RejectValue(field, code);
    }
  }

  /**
    The text rule the validators share: a present value is rejected with the
    empty code when it is "" and with the too-long code when its length
    (String.length, in UTF-16 code units) exceeds the maximum.
   */
  function TextErrors(value: Option<string>, path: string, field: string, emptyCode: string, tooLongCode: string, maxLength: nat): seq<FieldError> {
    if value.None? then []
    else
      RejectionIf(value.value == "", path, field, emptyCode) +
      RejectionIf(Utf16Length(value.value) > maxLength, path, field, tooLongCode)
  }

  /** What the text rule demands: absent, or non-empty and at most the maximum long. */
  predicate IsValidText(value: Option<string>, maxLength: nat) {
    value.None? || (value.value != "" && Utf16Length(value.value) <= maxLength)
  }

  lemma TextErrorsEmptyIff(value: Option<string>, path: string, field: string, emptyCode: string, tooLongCode: string, maxLength: nat)
    ensures TextErrors(value, path, field, emptyCode, tooLongCode, maxLength) == [] <==> IsValidText(value, maxLength)
  {
  }

  /** Each code of the text rule is reported exactly when its half of the rule is broken, and only for the field. */
  lemma TextErrorsMembers(value: Option<string>, path: string, field: string, emptyCode: string, tooLongCode: string, maxLength: nat)
    requires emptyCode != tooLongCode
    ensures FieldError(path + field, emptyCode) in TextErrors(value, path, field, emptyCode, tooLongCode, maxLength) <==>
      value == Some("")
    ensures FieldError(path + field, tooLongCode) in TextErrors(value, path, field, emptyCode, tooLongCode, maxLength) <==>
      value.Some? && Utf16Length(value.value) > maxLength
    ensures forall e :: e in TextErrors(value, path, field, emptyCode, tooLongCode, maxLength) ==> e.field == path + field
  {
  }

  /** An error outside the other two parts is in the concatenation exactly when it is in the first. */
  lemma InFirstGroup(x: FieldError, a: seq<FieldError>, b: seq<FieldError>, c: seq<FieldError>)
    requires x !in b && x !in c
    ensures x in a + b + c <==> x in a
  {
  }

  lemma InSecondGroup(x: FieldError, a: seq<FieldError>, b: seq<FieldError>, c: seq<FieldError>)
    requires x !in a && x !in c
    ensures x in a + b + c <==> x in b
  {
  }

  lemma InThirdGroup(x: FieldError, a: seq<FieldError>, b: seq<FieldError>, c: seq<FieldError>)
    requires x !in a && x !in b
    ensures x in a + b + c <==> x in c
  {
  }

  /** A present value: rejectIfEmpty, then the length check. */
  method ValidateText(errors: Errors, value: Option<string>, field: string, emptyCode: string, tooLongCode: string, maxLength: nat)
    requires field != ""
    modifies errors`fieldErrors
    ensures errors.fieldErrors ==
      old(errors.fieldErrors) + TextErrors(value, errors.nestedPath, field, emptyCode, tooLongCode, maxLength)
  {
    if value.Some? {
      RejectIfEmpty(errors, field, emptyCode, value);
      if Utf16Length(value.value) > maxLength {
        errors.RejectValue(field, tooLongCode);
      }
    }
  }

  // ---------------------------------------------------------------------
  // The errors of repeated steps
  // ---------------------------------------------------------------------

  /** The error lists of consecutive steps, appended in order. */
  function Flatten(parts: seq<seq<FieldError>>): seq<FieldError> {
    if parts == [] then [] else Flatten(parts[..|parts| - 1]) + parts[|parts| - 1]
  }

  lemma FlattenSnoc(parts: seq<seq<FieldError>>, last: seq<FieldError>)
    ensures Flatten(parts + [last]) == Flatten(parts) + last
  {
    assert (parts + [last])[..|parts|] == parts;
  }

  /** One more step appends its errors. */
  lemma FlattenStep(parts: seq<seq<FieldError>>, i: nat)
    requires i < |parts|
    ensures Flatten(parts[..i + 1]) == Flatten(parts[..i]) + parts[i]
  {
    assert parts[..i + 1] == parts[..i] + [parts[i]];
    FlattenSnoc(parts[..i], parts[i]);
  }

  /** No step recorded an error exactly when the whole run recorded none. */
  lemma {:induction false} FlattenEmptyIff(parts: seq<seq<FieldError>>)
    ensures Flatten(parts) == [] <==> forall k :: 0 <= k < |parts| ==> parts[k] == []
  {
    if parts != [] {
      var init := parts[..|parts| - 1];
      FlattenEmptyIff(init);
      assert forall k :: 0 <= k < |init| ==> init[k] == parts[k];
    }
  }

  /** Every error of a step is an error of the run. */
  lemma {:induction false} FlattenMembers(parts: seq<seq<FieldError>>)
    ensures forall k, e :: 0 <= k < |parts| && e in parts[k] ==> e in Flatten(parts)
  {
    if parts != [] {
      var init := parts[..|parts| - 1];
      FlattenMembers(init);
      assert forall k :: 0 <= k < |init| ==> init[k] == parts[k];
    }
  }

  /** Every error of the run comes from one of the steps. */
  lemma {:induction false} FlattenOrigin(parts: seq<seq<FieldError>>)
    ensures forall e :: e in Flatten(parts) ==> exists k :: 0 <= k < |parts| && e in parts[k]
  {
    if parts != [] {
      var init := parts[..|parts| - 1];
      FlattenOrigin(init);
      assert forall k :: 0 <= k < |init| ==> init[k] == parts[k];
    }
  }
}
