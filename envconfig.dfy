/**
 * Process: fills the fields of a struct from environment variables, one
 * field at a time, recursing into nested structs.
 */
module EnvConfig {
  import opened Options
  import opened Schema
  import opened Errors
  import Strconv
  import Text

  /** The variable name of a field: "<prefix>_<tag>", upper-cased. */
  function Key(prefix: string, tag: string): (r: string)
    ensures Text.IsUpper(r)
    ensures |r| == |prefix| + 1 + |tag|
    ensures r[|prefix|] == '_'
  {
    Text.ToUpperIsUpper(prefix + "_" + tag);
    Text.ToUpper(prefix + "_" + tag)
  }

  /** The value a field is given: the environment's, or the default tag when that is empty. */
  function Resolve(value: string, def: string): (r: string)
    ensures value != "" ==> r == value
    ensures value == "" ==> r == def
  {
    if def != "" && value == "" then def else value
  }

  /** What processing one field does to the target and to the error list. */
  datatype Step =
    | Skip                  // field left as it was, nothing recorded
    | Set(v: Value)         // field assigned v
    | Fail(e: FieldError)   // field left as it was, e appended to the errors
    | Abort(err: Error)     // Process returns err at once

  /** The result of a call: the target's new value and the returned error (None for nil). */
  datatype Outcome = Outcome(value: Value, err: Option<Error>)

  /** The state of the field loop after some fields: still going, or returned early. */
  datatype WalkState =
    | Walking(vals: seq<Value>, errs: seq<FieldError>)
    | Aborted(vals: seq<Value>, err: Error)

  /** A value a call of Process can start from: a struct value has one value per field. */
  predicate Shaped(v: Value, typ: Kind) {
    typ.Struct? ==> v.StructVal? && |v.fields| == |typ.fields|
  }

  /** The whole call Process(prefix, &v) on a target of type typ. */
  function ProcessSpec(lib: Library, env: Env, prefix: string, typ: Kind, v: Value): (out: Outcome)
    requires Shaped(v, typ)
    ensures Shaped(out.value, typ)
    decreases typ, 1
  {
    if !typ.Struct? then Outcome(v, Some(InvalidSpecification))
    else
      match Walk(lib, env, prefix, typ, v.fields, |typ.fields|)
      case Aborted(vs, err) => Outcome(StructVal(vs), Some(err))
      case Walking(vs, errs) => Outcome(StructVal(vs), if |errs| > 0 then Some(MultiError(errs)) else None)
  }

  /** The field loop of Process over the first n fields of the struct type typ. */
  function Walk(lib: Library, env: Env, prefix: string, typ: Kind, vals: seq<Value>, n: nat): (st: WalkState)
    requires typ.Struct? && n <= |typ.fields| == |vals|
    ensures |st.vals| == |vals|
    ensures st.Walking? ==> |st.errs| <= n
    decreases typ, 0, n
  {
    if n == 0 then Walking(vals, [])
    else Next(Walk(lib, env, prefix, typ, vals, n - 1), n - 1, FieldStep(lib, env, prefix, typ.fields[n - 1]))
  }

  /** The loop state after field i has taken the given step. */
  function Next(st: WalkState, i: nat, step: Step): (r: WalkState)
    requires i < |st.vals|
    ensures |r.vals| == |st.vals|
    ensures r.Walking? ==> st.Walking? && |st.errs| <= |r.errs| <= |st.errs| + 1
  {
    match st
    case Aborted(_, _) => st
    case Walking(vs, errs) =>
      match step
      case Skip => st
      case Set(v) => Walking(vs[i := v], errs)
      case Fail(e) => Walking(vs, errs + [e])
      case Abort(err) => Aborted(vs, err)
  }

  /** One pass of the loop body: settable and tagged, key, lookup, default, required, conversion. */
  function FieldStep(lib: Library, env: Env, prefix: string, f: Field): (r: Step)
    ensures (!f.settable || f.envconfig == "") ==> r == Skip
    ensures r.Fail? ==> r.e.keyName == Key(prefix, f.envconfig)
    ensures r.Abort? ==> f.kind.Struct?
    decreases f, 1
  {
    if !f.settable || f.envconfig == "" then Skip
    else
      var key := Key(prefix, f.envconfig);
      var value := Resolve(Getenv(env, key), f.default);
      if value == "" && !f.kind.Struct? then
        if f.required == "true" then Fail(RequiredError(key)) else Skip
      else
        Convert(lib, env, key, f, value)
  }

  /**
   * The kinds listed in the unsigned case of the switch: Uint, Uint8,
   * Uint16 and Uint64.  Uint32 is not among them.
   */
  predicate InUnsignedCase(k: Kind) {
    k.Uint? || k.Uint8? || k.Uint16? || k.Uint64?
  }

  /** The switch on the field's kind. */
  function Convert(lib: Library, env: Env, key: string, f: Field, value: string): (r: Step)
    ensures r.Fail? ==> r.e == ParseError(key, f.envconfig, f.typeName, value)
    ensures r.Abort? ==> f.kind.Struct?
    ensures r.Set? ==> !f.kind.Other? && !f.kind.Uint32?
    decreases f, 0
  {
    var parseError := ParseError(key, f.envconfig, f.typeName, value);
    if f.kind.String? then Set(StringVal(value))
    else if IsSignedKind(f.kind) then
      (match Strconv.ParseInt(value, Bits(f.kind))
       case Some(n) => Set(IntVal(n))
       case None => Fail(parseError))
    else if InUnsignedCase(f.kind) then
      (match Strconv.ParseUint(value, Bits(f.kind))
       case Some(n) => Set(UintVal(n))
       case None => Fail(parseError))
    else if f.kind.Struct? then
      var out := ProcessSpec(lib, env, key, f.kind, Zero(f.kind));
      if out.err.Some? then Abort(out.err.value) else Set(out.value)
    else if f.kind.Bool? then
      (match Strconv.ParseBool(value)
       case Some(b) => Set(BoolVal(b))
       case None => Fail(parseError))
    else if IsFloatKind(f.kind) then
      (match lib.parseFloat(value, Bits(f.kind))
       case Some(x) => Set(FloatVal(x))
       case None => Fail(parseError))
    else if f.kind.Ptr? then
      if IsUrlPtr(f.kind) && lib.urlParses(value) then Set(UrlPtrVal(Some(Url(value)))) else Skip
    else
      Skip
  }

  /** Once the loop has returned, later fields change nothing. */
  lemma {:induction false} AbortedStays(lib: Library, env: Env, prefix: string, typ: Kind, vals: seq<Value>, m: nat, n: nat)
    requires typ.Struct? && m <= n <= |typ.fields| == |vals|
    requires Walk(lib, env, prefix, typ, vals, m).Aborted?
    ensures Walk(lib, env, prefix, typ, vals, n) == Walk(lib, env, prefix, typ, vals, m)
    decreases n
  {
    if n > m {
      AbortedStays(lib, env, prefix, typ, vals, m, n - 1);
    }
  }

  /** A value a field is assigned fits the field's kind. */
  lemma {:induction false} StepConforms(lib: Library, env: Env, prefix: string, f: Field)
    ensures FieldStep(lib, env, prefix, f).Set? ==> Conforms(FieldStep(lib, env, prefix, f).v, f.kind)
    decreases f, 1
  {
    if f.settable && f.envconfig != "" {
      var key := Key(prefix, f.envconfig);
      ConvertConforms(lib, env, key, f, Resolve(Getenv(env, key), f.default));
    }
  }

  lemma {:induction false} ConvertConforms(lib: Library, env: Env, key: string, f: Field, value: string)
    ensures Convert(lib, env, key, f, value).Set? ==> Conforms(Convert(lib, env, key, f, value).v, f.kind)
    decreases f, 0
  {
    if f.kind.Struct? {
      ProcessConforms(lib, env, key, f.kind, Zero(f.kind));
    }
  }

  /** Process keeps the target well typed. */
  lemma {:induction false} ProcessConforms(lib: Library, env: Env, prefix: string, typ: Kind, v: Value)
    requires Conforms(v, typ)
    ensures Conforms(ProcessSpec(lib, env, prefix, typ, v).value, typ)
    decreases typ, 1
  {
    if typ.Struct? {
      WalkConforms(lib, env, prefix, typ, v.fields, |typ.fields|);
    }
  }

  lemma {:induction false} WalkConforms(lib: Library, env: Env, prefix: string, typ: Kind, vals: seq<Value>, n: nat)
    requires typ.Struct? && n <= |typ.fields| == |vals|
    requires forall i :: 0 <= i < |vals| ==> Conforms(vals[i], typ.fields[i].kind)
    ensures var vs := Walk(lib, env, prefix, typ, vals, n).vals;
      forall i :: 0 <= i < |vs| ==> Conforms(vs[i], typ.fields[i].kind)
    decreases typ, 0, n
  {
    if n > 0 {
      WalkConforms(lib, env, prefix, typ, vals, n - 1);
      StepConforms(lib, env, prefix, typ.fields[n - 1]);
      assert typ.fields[n - 1] < typ;
    }
  }

  /** The target of Process: a pointer to a value of a given type. */
  class Spec {
    const typ: Kind
    var value: Value

    /** A struct target holds one value per field. */
    ghost predicate Valid()
      reads this
    {
      Shaped(value, typ)
    }

    constructor (typ: Kind, value: Value)
      requires Shaped(value, typ)
      ensures Valid() && this.typ == typ && this.value == value
    {
      this.typ := typ;
      this.value := value;
    }

    /** Assignment to field i through reflection (SetString, SetInt, ..., Set). */
    method SetField(i: nat, v: Value)
      requires Valid() && typ.Struct? && i < |typ.fields|
      modifies this
      ensures Valid()
      ensures value == StructVal(old(value).fields[i := v])
    {
      value := StructVal(value.fields[i := v]);
    }
  }

  /**
   * Process(prefix, spec): assigns the target's fields in declaration
   * order and returns nil, the first nested error, or the collected errors.
   */
  method Process(lib: Library, env: Env, prefix: string, spec: Spec) returns (err: Option<Error>)
    requires spec.Valid()
    modifies spec
    ensures spec.Valid()
    ensures Outcome(spec.value, err) == ProcessSpec(lib, env, prefix, spec.typ, old(spec.value))
    decreases spec.typ, 2
  {
    if !spec.typ.Struct? {
      return Some(InvalidSpecification);
    }
    var errors: seq<FieldError> := [];
    var fields := spec.typ.fields;
    ghost var start := spec.value.fields;
    for i := 0 to |fields|
      invariant spec.Valid()
      invariant Walk(lib, env, prefix, spec.typ, start, i) == Walking(spec.value.fields, errors)
    {
      var nestedErr;
      errors, nestedErr := ProcessField(lib, env, prefix, spec, i, errors);
      if nestedErr.Some? {
        AbortedStays(lib, env, prefix, spec.typ, start, i + 1, |fields|);
        return nestedErr;
      }
    }
    if |errors| > 0 {
      return Some(MultiError(errors));
    }
    return None;
  }

  /**
   * The body of the field loop for field i.  A `continue` of the loop is a
   * return with no error; the early return of a nested error is a return
   * with that error.
   */
  method ProcessField(lib: Library, env: Env, prefix: string, spec: Spec, i: nat, errors: seq<FieldError>)
      returns (errors': seq<FieldError>, nestedErr: Option<Error>)
    requires spec.Valid() && spec.typ.Struct? && i < |spec.typ.fields|
    modifies spec
    ensures spec.Valid()
    ensures Next(Walking(old(spec.value).fields, errors), i, FieldStep(lib, env, prefix, spec.typ.fields[i]))
      == if nestedErr.Some? then Aborted(spec.value.fields, nestedErr.value) else Walking(spec.value.fields, errors')
    decreases spec.typ, 1
  {
    errors', nestedErr := errors, None;
    var f := spec.typ.fields[i];
    if f.settable {
      var fieldName := f.envconfig;
      if fieldName == "" {
        return;
      }
      var key := Text.ToUpper(prefix + "_" + fieldName);
      var value := Getenv(env, key);
      var def := f.default;
      if def != "" && value == "" {
        value := def;
      }
      var req := f.required;
      assert key == Key(prefix, fieldName) && value == Resolve(Getenv(env, key), def);
      if value == "" && !f.kind.Struct? {
        if req == "true" {
          errors' := errors' + [RequiredError(key)];
        }
        return;
      }
      errors', nestedErr := AssignValue(lib, env, key, spec, i, value, errors);
    }
  }

  /** The switch on the field's kind: convert the value and assign it, or record why not. */
  method AssignValue(lib: Library, env: Env, key: string, spec: Spec, i: nat, value: string, errors: seq<FieldError>)
      returns (errors': seq<FieldError>, nestedErr: Option<Error>)
    requires spec.Valid() && spec.typ.Struct? && i < |spec.typ.fields|
    modifies spec
    ensures spec.Valid()
    ensures Next(Walking(old(spec.value).fields, errors), i, Convert(lib, env, key, spec.typ.fields[i], value))
      == if nestedErr.Some? then Aborted(spec.value.fields, nestedErr.value) else Walking(spec.value.fields, errors')
    decreases spec.typ, 0
  {
    errors', nestedErr := errors, None;
    var f := spec.typ.fields[i];
    var parseError := ParseError(key, f.envconfig, f.typeName, value);
    if f.kind.String? {
      spec.SetField(i, StringVal(value));
    } else if IsSignedKind(f.kind) {
      var intValue := Strconv.ParseInt(value, Bits(f.kind));
      if intValue.None? {
        errors' := errors' + [parseError];
        return;
      }
      spec.SetField(i, IntVal(intValue.value));
    } else if InUnsignedCase(f.kind) {
      var uintValue := Strconv.ParseUint(value, Bits(f.kind));
      if uintValue.None? {
        errors' := errors' + [parseError];
        return;
      }
      spec.SetField(i, UintVal(uintValue.value));
    } else if f.kind.Struct? {
      var structPtr := new Spec(f.kind, Zero(f.kind));
      var err := Process(lib, env, key, structPtr);
      if err.Some? {
        return errors', err;
      }
      spec.SetField(i, structPtr.value);
    } else if f.kind.Bool? {
      var boolValue := Strconv.ParseBool(value);
      if boolValue.None? {
        errors' := errors' + [parseError];
        return;
      }
      spec.SetField(i, BoolVal(boolValue.value));
    } else if IsFloatKind(f.kind) {
      var floatValue := lib.parseFloat(value, Bits(f.kind));
      if floatValue.None? {
        errors' := errors' + [parseError];
        return;
      }
      spec.SetField(i, FloatVal(floatValue.value));
    } else if f.kind.Ptr? {
      if IsUrlPtr(f.kind) {
        if lib.urlParses(value) {
          spec.SetField(i, UrlPtrVal(Some(Url(value))));
        }
      }
    }
  }
}
