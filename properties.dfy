/**
 * What Process promises, stated over its specification: which fields
 * change, which errors come back and in what order, how keys nest, and
 * how a nested failure cuts the call short.
 */
module Properties {
  import opened Options
  import opened Schema
  import opened Errors
  import opened EnvConfig
  import Strconv
  import Text

  // ---------------------------------------------------------------------
  // Keys

  /**
   * A nested struct is processed with the key of its field as prefix, so
   * the key of an inner field is the outer prefix, the outer tag and the
   * inner tag joined by "_" and upper-cased once.
   */
  lemma KeyNesting(prefix: string, outer: string, inner: string)
    ensures Key(Key(prefix, outer), inner) == Text.ToUpper(prefix + "_" + outer + "_" + inner)
  {
    var p := prefix + "_" + outer;
    Text.ToUpperAppend(Text.ToUpper(p), "_" + inner);
    Text.ToUpperIdempotent(p);
    Text.ToUpperAppend(p, "_" + inner);
    assert p + ("_" + inner) == prefix + "_" + outer + "_" + inner;
    assert Text.ToUpper(p) + ("_" + inner) == Text.ToUpper(p) + "_" + inner;
  }

  /**
   * With an upper-case prefix and upper-case tags the nested key is the
   * three joined by "_" as they are: prefix APP, outer tag DB and inner
   * tag HOST name the variable APP_DB_HOST.
   */
  lemma KeyNestingUpper(prefix: string, outer: string, inner: string)
    requires Text.IsUpper(prefix) && Text.IsUpper(outer) && Text.IsUpper(inner)
    ensures Key(Key(prefix, outer), inner) == prefix + "_" + outer + "_" + inner
  {
    KeyNesting(prefix, outer, inner);
    var s := prefix + "_" + outer + "_" + inner;
    assert Text.IsUpper(s) by {
      forall i | 0 <= i < |s|
        ensures !('a' <= s[i] <= 'z')
      {
        if i < |prefix| {
          assert s[i] == prefix[i];
        } else if i == |prefix| || i == |prefix| + 1 + |outer| {
          assert s[i] == '_';
        } else if i < |prefix| + 1 + |outer| {
          assert s[i] == outer[i - |prefix| - 1];
        } else {
          assert s[i] == inner[i - |prefix| - 2 - |outer|];
        }
      }
    }
    Text.ToUpperOfUpper(s);
  }

  // ---------------------------------------------------------------------
  // One field

  /** A field reflection cannot set, or one without an envconfig tag, is left alone without an error. */
  lemma UntaggedFieldSkipped(lib: Library, env: Env, prefix: string, f: Field)
    requires !f.settable || f.envconfig == ""
    ensures FieldStep(lib, env, prefix, f) == Skip
  {
  }

  /**
   * A field whose value resolves to "" (and is not a struct) is left
   * alone; it yields one RequiredError for its key exactly when its
   * required tag is the text "true".
   */
  lemma EmptyValueStep(lib: Library, env: Env, prefix: string, f: Field)
    requires f.settable && f.envconfig != "" && !f.kind.Struct?
    requires Getenv(env, Key(prefix, f.envconfig)) == "" && f.default == ""
    ensures FieldStep(lib, env, prefix, f) ==
      if f.required == "true" then Fail(RequiredError(Key(prefix, f.envconfig))) else Skip
  {
  }

  /**
   * When the variable is empty, the default tag is converted as if it had
   * been the variable's value.
   */
  lemma DefaultAsValue(lib: Library, env: Env, prefix: string, f: Field)
    requires f.settable && f.envconfig != "" && !f.kind.Struct?
    requires Getenv(env, Key(prefix, f.envconfig)) == ""
    ensures FieldStep(lib, env, prefix, f)
      == FieldStep(lib, env[Key(prefix, f.envconfig) := f.default], prefix, f)
  {
    var key := Key(prefix, f.envconfig);
    assert Getenv(env[key := f.default], key) == f.default;
  }

  /** Kinds whose conversion can fail with a ParseError. */
  predicate ParsedKind(k: Kind) {
    IsSignedKind(k) || InUnsignedCase(k) || k.Bool? || IsFloatKind(k)
  }

  /** Whether the library conversion for kind k accepts a text. */
  predicate Parses(lib: Library, k: Kind, value: string)
    requires ParsedKind(k)
  {
    if IsSignedKind(k) then Strconv.ParseInt(value, Bits(k)).Some?
    else if InUnsignedCase(k) then Strconv.ParseUint(value, Bits(k)).Some?
    else if k.Bool? then Strconv.ParseBool(value).Some?
    else lib.parseFloat(value, Bits(k)).Some?
  }

  /**
   * A value an int, uint, bool or float field cannot take leaves the field
   * alone and yields one ParseError carrying the key, the envconfig tag
   * (not the Go field name), the type name and the raw value.
   */
  lemma ParseFailureStep(lib: Library, env: Env, prefix: string, f: Field)
    requires f.settable && f.envconfig != "" && ParsedKind(f.kind)
    requires Resolve(Getenv(env, Key(prefix, f.envconfig)), f.default) != ""
    ensures var value := Resolve(Getenv(env, Key(prefix, f.envconfig)), f.default);
      !Parses(lib, f.kind, value) <==>
        FieldStep(lib, env, prefix, f) == Fail(ParseError(Key(prefix, f.envconfig), f.envconfig, f.typeName, value))
  {
  }

  /**
   * A uint32 field is never assigned and never yields a ParseError: the
   * unsigned case of the switch does not list it.
   */
  lemma Uint32NeverSet(lib: Library, env: Env, prefix: string, f: Field)
    requires f.kind == Uint32
    ensures FieldStep(lib, env, prefix, f) == Skip
      || FieldStep(lib, env, prefix, f) == Fail(RequiredError(Key(prefix, f.envconfig)))
  {
  }

  /**
   * A field of a kind the switch has no case for (a map, slice, interface,
   * a pointer to anything but url.URL, ...) is never assigned and never
   * yields a ParseError.
   */
  lemma UnhandledKindSilent(lib: Library, env: Env, prefix: string, f: Field)
    requires f.kind.Other? || (f.kind.Ptr? && !IsUrlPtr(f.kind))
    ensures FieldStep(lib, env, prefix, f) == Skip
      || FieldStep(lib, env, prefix, f) == Fail(RequiredError(Key(prefix, f.envconfig)))
  {
  }

  /** A *url.URL field whose value url.Parse rejects is left alone, silently. */
  lemma UrlParseFailureSilent(lib: Library, env: Env, prefix: string, f: Field)
    requires f.settable && f.envconfig != "" && IsUrlPtr(f.kind)
    requires !lib.urlParses(Resolve(Getenv(env, Key(prefix, f.envconfig)), f.default))
    ensures FieldStep(lib, env, prefix, f) == Skip
      || FieldStep(lib, env, prefix, f) == Fail(RequiredError(Key(prefix, f.envconfig)))
  {
  }

  /**
   * A struct field is processed whatever its variable holds: a fresh zero
   * struct goes through Process under the field's key, and either becomes
   * the field's value or its error ends the outer call.
   */
  lemma StructFieldStep(lib: Library, env: Env, prefix: string, f: Field)
    requires f.settable && f.envconfig != "" && f.kind.Struct?
    ensures var out := ProcessSpec(lib, env, Key(prefix, f.envconfig), f.kind, Zero(f.kind));
      FieldStep(lib, env, prefix, f) == if out.err.Some? then Abort(out.err.value) else Set(out.value)
  {
  }

  /** A string field takes the value of its variable as it is. */
  lemma StringFieldRoundTrip(lib: Library, env: Env, prefix: string, f: Field, s: string)
    requires f.settable && f.envconfig != "" && f.kind == String
    requires s != "" && env == env[Key(prefix, f.envconfig) := s]
    ensures FieldStep(lib, env, prefix, f) == Set(StringVal(s))
  {
    assert Getenv(env, Key(prefix, f.envconfig)) == s;
  }

  /**
   * A signed field whose variable holds the decimal text of n takes the
   * value n when n fits the field's width, and yields a ParseError otherwise.
   */
  lemma IntFieldRoundTrip(lib: Library, env: Env, prefix: string, f: Field, n: int)
    requires f.settable && f.envconfig != "" && IsSignedKind(f.kind)
    requires env == env[Key(prefix, f.envconfig) := Strconv.FormatInt(n)]
    ensures var key := Key(prefix, f.envconfig);
      FieldStep(lib, env, prefix, f) ==
        if -(Strconv.Pow2(Bits(f.kind) - 1) as int) <= n < Strconv.Pow2(Bits(f.kind) - 1) then Set(IntVal(n))
        else Fail(ParseError(key, f.envconfig, f.typeName, Strconv.FormatInt(n)))
  {
    var key := Key(prefix, f.envconfig);
    assert Getenv(env, key) == Strconv.FormatInt(n);
    assert Strconv.FormatInt(n) != "" by {
      if n < 0 {
        assert Strconv.FormatInt(n)[0] == '-';
      }
    }
    Strconv.IntRoundTrip(n, Bits(f.kind));
  }

  /**
   * An unsigned field (other than uint32) whose variable holds the decimal
   * text of n takes the value n when n fits, and yields a ParseError otherwise.
   */
  lemma UintFieldRoundTrip(lib: Library, env: Env, prefix: string, f: Field, n: nat)
    requires f.settable && f.envconfig != "" && InUnsignedCase(f.kind)
    requires env == env[Key(prefix, f.envconfig) := Strconv.FormatUint(n)]
    ensures var key := Key(prefix, f.envconfig);
      FieldStep(lib, env, prefix, f) ==
        if n < Strconv.Pow2(Bits(f.kind)) then Set(UintVal(n))
        else Fail(ParseError(key, f.envconfig, f.typeName, Strconv.FormatUint(n)))
  {
    var key := Key(prefix, f.envconfig);
    assert Getenv(env, key) == Strconv.FormatUint(n);
    Strconv.UintRoundTrip(n, Bits(f.kind));
  }

  /** A bool field whose variable holds "true" or "false" takes that value. */
  lemma BoolFieldRoundTrip(lib: Library, env: Env, prefix: string, f: Field, b: bool)
    requires f.settable && f.envconfig != "" && f.kind == Bool
    requires env == env[Key(prefix, f.envconfig) := Strconv.FormatBool(b)]
    ensures FieldStep(lib, env, prefix, f) == Set(BoolVal(b))
  {
    assert Getenv(env, Key(prefix, f.envconfig)) == Strconv.FormatBool(b);
    Strconv.BoolRoundTrip(b);
  }

  /** A float field takes exactly the number the float parser reads from its value. */
  lemma FloatFieldStep(lib: Library, env: Env, prefix: string, f: Field, x: Float)
    requires f.settable && f.envconfig != "" && IsFloatKind(f.kind)
    requires Resolve(Getenv(env, Key(prefix, f.envconfig)), f.default) != ""
    ensures var value := Resolve(Getenv(env, Key(prefix, f.envconfig)), f.default);
      (FieldStep(lib, env, prefix, f) == Set(FloatVal(x)) <==> lib.parseFloat(value, Bits(f.kind)) == Some(x))
  {
  }

  /** A *url.URL field whose value url.Parse accepts points at the URL parsed from that value. */
  lemma UrlFieldStep(lib: Library, env: Env, prefix: string, f: Field)
    requires f.settable && f.envconfig != "" && IsUrlPtr(f.kind)
    requires Resolve(Getenv(env, Key(prefix, f.envconfig)), f.default) != ""
    ensures var value := Resolve(Getenv(env, Key(prefix, f.envconfig)), f.default);
      (lib.urlParses(value) <==> FieldStep(lib, env, prefix, f) == Set(UrlPtrVal(Some(Url(value)))))
  {
  }

  // ---------------------------------------------------------------------
  // The whole call

  /** Passing something that is not a struct returns ErrInvalidSpecification and changes nothing. */
  lemma NotAStruct(lib: Library, env: Env, prefix: string, typ: Kind, v: Value)
    requires !typ.Struct?
    ensures ProcessSpec(lib, env, prefix, typ, v) == Outcome(v, Some(InvalidSpecification))
  {
  }

  /** The step each field would take, in declaration order. */
  function Steps(lib: Library, env: Env, prefix: string, fields: seq<Field>): (r: seq<Step>)
    ensures |r| == |fields|
    ensures forall j :: 0 <= j < |fields| ==> r[j] == FieldStep(lib, env, prefix, fields[j])
  {
    seq(|fields|, j requires 0 <= j < |fields| => FieldStep(lib, env, prefix, fields[j]))
  }

  /** The index of the first field whose step ends the call, or the number of steps if none does. */
  function FirstAbort(steps: seq<Step>): (k: nat)
    ensures k <= |steps|
    ensures forall j :: 0 <= j < k ==> !steps[j].Abort?
    ensures k < |steps| ==> steps[k].Abort?
  {
    if steps == [] then 0
    else
      var k := FirstAbort(steps[..|steps| - 1]);
      if k < |steps| - 1 then k
      else if steps[|steps| - 1].Abort? then |steps| - 1
      else |steps|
  }

  /** The field values after the steps before index k have been applied. */
  function Applied(steps: seq<Step>, vals: seq<Value>, k: nat): (r: seq<Value>)
    requires |steps| == |vals| && k <= |steps|
    ensures |r| == |vals|
  {
    seq(|vals|, j requires 0 <= j < |vals| => if j < k && steps[j].Set? then steps[j].v else vals[j])
  }

  /** The errors recorded by the steps, in order. */
  function Collected(steps: seq<Step>): (r: seq<FieldError>)
    ensures |r| <= |steps|
  {
    if steps == [] then []
    else
      var last := steps[|steps| - 1];
      Collected(steps[..|steps| - 1]) + if last.Fail? then [last.e] else []
  }

  /** FirstAbort and Collected of a prefix one step longer. */
  lemma PrefixStep(steps: seq<Step>, n: nat)
    requires 0 < n <= |steps|
    ensures FirstAbort(steps[..n]) ==
      var k0 := FirstAbort(steps[..n - 1]);
      if k0 < n - 1 then k0 else if steps[n - 1].Abort? then n - 1 else n
    ensures Collected(steps[..n]) ==
      Collected(steps[..n - 1]) + if steps[n - 1].Fail? then [steps[n - 1].e] else []
  {
    assert steps[..n][..n - 1] == steps[..n - 1];
  }

  /** Applying the steps before n is applying those before n - 1, then step n - 1. */
  lemma AppliedStep(steps: seq<Step>, vals: seq<Value>, n: nat)
    requires 0 < n <= |steps| == |vals|
    ensures Applied(steps, vals, n) ==
      if steps[n - 1].Set? then Applied(steps, vals, n - 1)[n - 1 := steps[n - 1].v]
      else Applied(steps, vals, n - 1)
  {
  }

  /** The field loop over any sequence of steps. */
  function Fold(steps: seq<Step>, vals: seq<Value>, n: nat): (st: WalkState)
    requires n <= |steps| == |vals|
    ensures |st.vals| == |vals|
  {
    if n == 0 then Walking(vals, []) else Next(Fold(steps, vals, n - 1), n - 1, steps[n - 1])
  }

  /** The field loop of Process is the fold of its fields' steps. */
  lemma {:induction false} WalkIsFold(lib: Library, env: Env, prefix: string, typ: Kind, vals: seq<Value>, n: nat)
    requires typ.Struct? && n <= |typ.fields| == |vals|
    ensures Walk(lib, env, prefix, typ, vals, n) == Fold(Steps(lib, env, prefix, typ.fields), vals, n)
  {
    if n > 0 {
      WalkIsFold(lib, env, prefix, typ, vals, n - 1);
    }
  }

  lemma {:induction false} FoldCharacterized(steps: seq<Step>, vals: seq<Value>, n: nat)
    requires n <= |steps| == |vals|
    ensures var k := FirstAbort(steps[..n]);
      var st := Fold(steps, vals, n);
      && st.vals == Applied(steps, vals, k)
      && (k < n ==> st == Aborted(st.vals, steps[k].err))
      && (k == n ==> st == Walking(st.vals, Collected(steps[..n])))
  {
    if n == 0 {
      assert Applied(steps, vals, 0) == vals;
    } else {
      FoldCharacterized(steps, vals, n - 1);
      PrefixStep(steps, n);
      if FirstAbort(steps[..n - 1]) == n - 1 {
        AppliedStep(steps, vals, n);
      }
    }
  }

  /**
   * The whole call, field by field.  Let k be the first field whose nested
   * struct failed (or the number of fields).  The fields before k that had
   * a value to assign take it and every other field keeps its value; the
   * result is the nested error of field k if there is one, otherwise nil
   * when no field recorded an error and the MultiError of all recorded
   * errors, in field order, when some did.
   */
  lemma ProcessCharacterized(lib: Library, env: Env, prefix: string, typ: Kind, v: Value)
    requires typ.Struct? && Shaped(v, typ)
    ensures var steps := Steps(lib, env, prefix, typ.fields);
      var k := FirstAbort(steps);
      var out := ProcessSpec(lib, env, prefix, typ, v);
      && out.value == StructVal(Applied(steps, v.fields, k))
      && (k < |steps| ==> out.err == Some(steps[k].err))
      && (k == |steps| ==> out.err == if Collected(steps) == [] then None else Some(MultiError(Collected(steps))))
  {
    var steps := Steps(lib, env, prefix, typ.fields);
    WalkIsFold(lib, env, prefix, typ, v.fields, |typ.fields|);
    FoldCharacterized(steps, v.fields, |steps|);
    assert steps[..|steps|] == steps;
  }

  /** Process returns nil exactly when no field recorded an error and no nested struct failed. */
  lemma NilIffNoErrors(lib: Library, env: Env, prefix: string, typ: Kind, v: Value)
    requires typ.Struct? && Shaped(v, typ)
    ensures var steps := Steps(lib, env, prefix, typ.fields);
      (ProcessSpec(lib, env, prefix, typ, v).err == None <==>
        FirstAbort(steps) == |steps| && Collected(steps) == [])
  {
    ProcessCharacterized(lib, env, prefix, typ, v);
  }

  /** A field that cannot be set or carries no envconfig tag keeps its value. */
  lemma UntaggedFieldKept(lib: Library, env: Env, prefix: string, typ: Kind, v: Value, j: nat)
    requires typ.Struct? && Shaped(v, typ) && j < |typ.fields|
    requires !typ.fields[j].settable || typ.fields[j].envconfig == ""
    ensures ProcessSpec(lib, env, prefix, typ, v).value.fields[j] == v.fields[j]
  {
    ProcessCharacterized(lib, env, prefix, typ, v);
  }

  /** Every error Process returns from a struct is a MultiError with at least one entry. */
  lemma {:induction false} ProcessErrorShape(lib: Library, env: Env, prefix: string, typ: Kind, v: Value)
    requires typ.Struct? && Shaped(v, typ)
    ensures var out := ProcessSpec(lib, env, prefix, typ, v);
      out.err.Some? ==> out.err.value.MultiError? && out.err.value.errors != []
    decreases typ, 1
  {
    WalkErrorShape(lib, env, prefix, typ, v.fields, |typ.fields|);
  }

  lemma {:induction false} WalkErrorShape(lib: Library, env: Env, prefix: string, typ: Kind, vals: seq<Value>, n: nat)
    requires typ.Struct? && n <= |typ.fields| == |vals|
    ensures var st := Walk(lib, env, prefix, typ, vals, n);
      st.Aborted? ==> st.err.MultiError? && st.err.errors != []
    decreases typ, 0, n
  {
    if n > 0 {
      WalkErrorShape(lib, env, prefix, typ, vals, n - 1);
      StepErrorShape(lib, env, prefix, typ.fields[n - 1]);
    }
  }

  /**
   * A nested struct can only fail with its own MultiError, never with
   * ErrInvalidSpecification; the outer call returns that list as it is.
   */
  lemma {:induction false} StepErrorShape(lib: Library, env: Env, prefix: string, f: Field)
    ensures var step := FieldStep(lib, env, prefix, f);
      step.Abort? ==> step.err.MultiError? && step.err.errors != []
    decreases f
  {
    if f.settable && f.envconfig != "" && f.kind.Struct? {
      ProcessErrorShape(lib, env, Key(prefix, f.envconfig), f.kind, Zero(f.kind));
    }
  }
}
