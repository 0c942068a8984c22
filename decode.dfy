/** The decoder: hook dispatch and assignment for one key (assignToStruct,
    callFormMethod), map assignment (assignToMap), the destination dispatch
    (findIn), and the driver over all keys (walk, Unmarshal). */
module Decode {
  import opened Wrappers
  import opened Errors
  import opened Schema
  import opened Tags
  import opened Coercion

  /** One entry of the submitted url.Values: a key and its values. */
  type Pair = (string, seq<string>)

  /** url.Values is a map: no key occurs twice. The sequence order is the
      (unspecified) order in which Go's map iteration visits the keys. */
  predicate DistinctKeys(kvs: seq<Pair>)
  {
    forall i, j :: 0 <= i < j < |kvs| ==> kvs[i].0 != kvs[j].0
  }

  /** Hooks are found by the declared field name, not the tag name. */
  function ValidatorName(field: string): string { "FormValidate" + field }
  function SetterName(field: string): string { "FormSet" + field }

  const NoHook := HookResult(None, map[])

  /** What calling the method `name` would give, or nothing when the struct
      has no such method. */
  function CallIfPresent(ty: StructType, name: string, vs: seq<string>, s: seq<Value>): (h: HookResult)
    ensures name !in ty.methods ==> h.err.None? && h.writes == map[]
  {
    if name in ty.methods then ty.methods[name](vs, s) else NoHook
  }

  /** callFormMethod: call a hook on the record and pass its error result
      on; the hook's assignments to the record take effect. */
  method CallFormMethod(rec: Record, hook: Hook, vs: seq<string>) returns (err: Option<Error>)
    requires rec.Valid()
    modifies rec
    ensures rec.Valid()
    ensures var h := hook(vs, old(rec.values));
      err == h.err && rec.values == ApplyWrites(old(rec.values), h.writes)
  {
    var h := hook(vs, rec.values);
    rec.values := ApplyWrites(rec.values, h.writes);
    err := h.err;
  }

  /** The effect on a struct holding `s` of submitting `vs` for field `i`:
      its validator first, stopping on an error; then its setter if it has
      one; otherwise built-in coercion, whose errors are dropped (a panic
      still unwinds). */
  function FieldEffect(ty: StructType, s: seq<Value>, i: nat, vs: seq<string>): (r: (Option<Error>, seq<Value>))
    requires |s| == |ty.fields| && i < |s|
    ensures |r.1| == |s|
    ensures ty.methods == map[] ==> r.0.None? || r.0.value.Panic?
    ensures ty.methods == map[] ==> forall j :: 0 <= j < |s| && j != i ==> r.1[j] == s[j]
  {
    var f := ty.fields[i];
    var v := CallIfPresent(ty, ValidatorName(f.name), vs, s);
    var s1 := ApplyWrites(s, v.writes);
    if v.err.Some? then (v.err, s1)
    else if SetterName(f.name) in ty.methods then
      var h := ty.methods[SetterName(f.name)](vs, s1);
      (h.err, ApplyWrites(s1, h.writes))
    else
      var c := Coerce(f.kind, vs, s1[i]);
      (if c.err.Some? && c.err.value.Panic? then c.err else None, s1[i := c.value])
  }

  /** The effect of assignToStruct: the first field answering to `key`
      takes the values; a key no field answers to changes nothing. */
  function StructEffect(ty: StructType, s: seq<Value>, key: string, vs: seq<string>): (r: (Option<Error>, seq<Value>))
    requires |s| == |ty.fields|
    ensures |r.1| == |s|
    ensures FindField(ty.fields, key).None? ==> r == (None, s)
    ensures ty.methods == map[] ==> r.0.None? || r.0.value.Panic?
  {
    match FindField(ty.fields, key)
    case None => (None, s)
    case Some(i) => FieldEffect(ty, s, i, vs)
  }

  /** assignToStruct */
  method AssignToStruct(rec: Record, key: string, vs: seq<string>) returns (err: Option<Error>)
    requires rec.Valid()
    modifies rec
    ensures rec.Valid()
    ensures (err, rec.values) == StructEffect(rec.ty, old(rec.values), key, vs)
  {
    var fields := rec.ty.fields;
    for i := 0 to |fields|
      invariant rec.values == old(rec.values)
      invariant forall j :: 0 <= j < i ==> ResolvedName(fields[j]) != key
    {
      var f := fields[i];
      var tag := ParseTag(f.tag);
      if !tag.ignore && tag.name == "" {
        tag := tag.(name := f.name);
      }
      if tag.name == key {
        assert FindField(fields, key) == Some(i);
        var validator, setter := ValidatorName(f.name), SetterName(f.name);
        if validator in rec.ty.methods {
          var e := CallFormMethod(rec, rec.ty.methods[validator], vs);
          if e.Some? {
            return e;
          }
        } else {
          assert rec.values == ApplyWrites(rec.values, NoHook.writes);
        }
        if setter in rec.ty.methods {
          err := CallFormMethod(rec, rec.ty.methods[setter], vs);
          return;
        } else {
          var e := AssignToStructField(rec, i, vs);
          if e.Some? && e.value.Panic? {
            return e;
          }
          return None;
        }
      }
    }
    return None;
  }

  /** The effect of assignToMap on a map's entries. Storing a value of the
      wrong element type panics inside the function, which recovers and
      leaves the map as it was; it always returns nil. */
  function MapEffect(elem: MapElem, entries: map<string, Value>, key: string, vs: seq<string>): (r: map<string, Value>)
    ensures r.Keys <= entries.Keys + {key}
    ensures forall k :: k in entries && k != key ==> k in r && r[k] == entries[k]
  {
    if |vs| == 1 && (elem.StringElem? || elem.AnyElem?) then entries[key := Str(vs[0])]
    else if |vs| > 1 && (elem.StringsElem? || elem.AnyElem?) then entries[key := StrList(vs)]
    else entries
  }

  /** assignToMap */
  method AssignToMap(m: StringMap, key: string, vs: seq<string>) returns (err: Option<Error>)
    modifies m
    ensures err == None && m.entries == MapEffect(m.elem, old(m.entries), key, vs)
  {
    if |vs| == 1 {
      if m.elem.StringElem? || m.elem.AnyElem? {
        m.entries := m.entries[key := Str(vs[0])];
      }
    } else if |vs| > 1 {
      if m.elem.StringsElem? || m.elem.AnyElem? {
        m.entries := m.entries[key := StrList(vs)];
      }
    }
    return None;
  }

  /** findIn only assigns into a map handed over as a map[string]interface{}
      value; a pointer to a map fails the type assertion. */
  predicate IsAnyMap(t: Target)
  {
    t.Direct? && t.v.MapObj? && t.v.m.elem.AnyElem?
  }

  /** reflect.Type.Name: pointer and map types are unnamed. */
  function TypeName(t: Target): string
  {
    match t
    case Direct(StructObj(r)) => r.ty.name
    case Direct(OtherObj(n)) => n
    case _ => ""
  }

  function CannotStore(typeName: string): string
  {
    "object " + typeName + " cannot be used to store values"
  }

  /** findIn: send the key to the struct or map the target designates. */
  method FindIn(t: Target, key: string, vs: seq<string>) returns (err: Option<Error>)
    requires TargetValid(t)
    modifies Footprint(t)
    ensures TargetValid(t)
    ensures IsStruct(t) ==>
      (err, StructOf(t).values) == StructEffect(StructOf(t).ty, old(StructOf(t).values), key, vs)
    ensures IsAnyMap(t) ==> err == None && t.v.m.entries == MapEffect(AnyElem, old(t.v.m.entries), key, vs)
    ensures !IsStruct(t) && !IsAnyMap(t) ==>
      err == Some(Failure(CannotStore(TypeName(t)))) && unchanged(Footprint(t))
  {
    if IsStruct(t) {
      err := AssignToStruct(StructOf(t), key, vs);
    } else if IsAnyMap(t) {
      err := AssignToMap(t.v.m, key, vs);
    } else {
      err := Some(Failure(CannotStore(TypeName(t))));
    }
  }

  /** Where the driver stands after some keys: still running with the
      validation errors met so far, or stopped by another error. */
  datatype Progress =
    | Running(values: seq<Value>, verrs: seq<ValidationError>)
    | Stopped(err: Error, values: seq<Value>)

  /** One key more. */
  function Advance(ty: StructType, st: Progress, p: Pair): (r: Progress)
    requires |st.values| == |ty.fields|
    ensures |r.values| == |st.values|
    ensures st.Stopped? ==> r == st
    ensures st.Running? && r.Running? ==> st.verrs <= r.verrs && |r.verrs| <= |st.verrs| + 1
    ensures st.Running? && r.Stopped? ==> !IsValidation(r.err)
  {
    match st
    case Stopped(_, _) => st
    case Running(s, verrs) =>
      var (e, s') := StructEffect(ty, s, p.0, p.1);
      if e.None? then Running(s', verrs)
      else if IsValidation(e.value) then Running(s', verrs + [e.value.ve])
      else Stopped(e.value, s')
  }

  /** The keys `kvs`, in order, from `st`. */
  function Run(ty: StructType, st: Progress, kvs: seq<Pair>): (r: Progress)
    requires |st.values| == |ty.fields|
    ensures |r.values| == |st.values|
    ensures st.Running? && r.Running? ==> st.verrs <= r.verrs && |r.verrs| <= |st.verrs| + |kvs|
    ensures st.Running? && r.Stopped? ==> !IsValidation(r.err)
  {
    if kvs == [] then st
    else Advance(ty, Run(ty, st, kvs[..|kvs| - 1]), kvs[|kvs| - 1])
  }

  /** What walk returns once it stands at `st`. */
  function Outcome(st: Progress): (e: Option<Error>)
    ensures e.None? <==> st.Running? && st.verrs == []
    ensures st.Running? && e.Some? ==> e.value.Compound? && e.value.c.errs == st.verrs
  {
    match st
    case Stopped(e, _) => Some(e)
    case Running(_, verrs) =>
      if |verrs| > 0 then Some(Compound(CompoundValidationError(verrs))) else None
  }

  /** walk over a struct holding `s0`. */
  function Decoded(ty: StructType, s0: seq<Value>, kvs: seq<Pair>): (r: Progress)
    requires |s0| == |ty.fields|
    ensures |r.values| == |s0|
    ensures r.Running? ==> |r.verrs| <= |kvs|
    ensures r.Stopped? ==> !IsValidation(r.err)
    ensures Outcome(r).Some? ==> !IsValidation(Outcome(r).value)
  {
    Run(ty, Running(s0, []), kvs)
  }

  /** walk over a map[string]interface{}. */
  function MapRun(entries: map<string, Value>, kvs: seq<Pair>): (r: map<string, Value>)
    ensures forall k :: k in entries && (forall j :: 0 <= j < |kvs| ==> kvs[j].0 != k) ==> k in r && r[k] == entries[k]
    ensures forall k :: k in r ==> k in entries || exists j :: 0 <= j < |kvs| && kvs[j].0 == k
  {
    if kvs == [] then entries
    else MapEffect(AnyElem, MapRun(entries, kvs[..|kvs| - 1]), kvs[|kvs| - 1].0, kvs[|kvs| - 1].1)
  }

  /** walk: every key in turn; validation errors are collected, any other
      error ends the walk at once. */
  method Walk(t: Target, kvs: seq<Pair>) returns (err: Option<Error>)
    requires TargetValid(t) && DistinctKeys(kvs)
    modifies Footprint(t)
    ensures TargetValid(t)
    ensures IsStruct(t) ==>
      var p := Decoded(StructOf(t).ty, old(StructOf(t).values), kvs);
      err == Outcome(p) && StructOf(t).values == p.values
    ensures IsAnyMap(t) ==> err == None && t.v.m.entries == MapRun(old(t.v.m.entries), kvs)
    ensures !IsStruct(t) && !IsAnyMap(t) ==>
      err == (if kvs == [] then None else Some(Failure(CannotStore(TypeName(t))))) &&
      unchanged(Footprint(t))
  {
    var verrs: seq<ValidationError> := [];
    for i := 0 to |kvs|
      invariant TargetValid(t)
      invariant IsStruct(t) ==>
        Decoded(StructOf(t).ty, old(StructOf(t).values), kvs[..i]) == Running(StructOf(t).values, verrs)
      invariant IsAnyMap(t) ==> t.v.m.entries == MapRun(old(t.v.m.entries), kvs[..i])
      invariant !IsStruct(t) ==> verrs == []
      invariant !IsStruct(t) && !IsAnyMap(t) ==> i == 0 && unchanged(Footprint(t))
    {
      assert kvs[..i + 1][..i] == kvs[..i];
      var e := FindIn(t, kvs[i].0, kvs[i].1);
      if e.Some? {
        if IsValidation(e.value) {
          verrs := verrs + [e.value.ve];
        } else {
          if IsStruct(t) {
            ghost var r := StructOf(t);
            StoppedAt(r.ty, Running(old(r.values), []), kvs, i);
          }
          return e;
        }
      }
    }
    assert kvs[..|kvs|] == kvs;
    if |verrs| > 0 {
      return Some(Compound(CompoundValidationError(verrs)));
    }
    return None;
  }

  /** Running the keys of `a` and then those of `b` is running `a + b`. */
  lemma {:induction false} RunAppend(ty: StructType, st: Progress, a: seq<Pair>, b: seq<Pair>)
    requires |st.values| == |ty.fields|
    ensures Run(ty, st, a + b) == Run(ty, Run(ty, st, a), b)
  {
    if b == [] {
      assert a + b == a;
    } else {
      assert (a + b)[..|a + b| - 1] == a + b[..|b| - 1];
      RunAppend(ty, st, a, b[..|b| - 1]);
    }
  }

  lemma {:induction false} StoppedStaysStopped(ty: StructType, st: Progress, b: seq<Pair>)
    requires |st.values| == |ty.fields| && st.Stopped?
    ensures Run(ty, st, b) == st
  {
    if b != [] {
      StoppedStaysStopped(ty, st, b[..|b| - 1]);
    }
  }

  /** Once a key has produced an error that is not a validation error, no
      later key is processed: the outcome and the fields are those at that
      key. */
  lemma FatalErrorStops(ty: StructType, st: Progress, a: seq<Pair>, b: seq<Pair>)
    requires |st.values| == |ty.fields| && Run(ty, st, a).Stopped?
    ensures Run(ty, st, a + b) == Run(ty, st, a)
  {
    RunAppend(ty, st, a, b);
    StoppedStaysStopped(ty, Run(ty, st, a), b);
  }

  /** A walk that has stopped after key `j` ends there. */
  lemma {:induction false} StoppedAt(ty: StructType, st: Progress, kvs: seq<Pair>, j: nat)
    requires |st.values| == |ty.fields| && j < |kvs| && Run(ty, st, kvs[..j + 1]).Stopped?
    ensures Run(ty, st, kvs) == Run(ty, st, kvs[..j + 1])
  {
    assert kvs == kvs[..j + 1] + kvs[j + 1..];
    FatalErrorStops(ty, st, kvs[..j + 1], kvs[j + 1..]);
  }

  const NeedsPointer := "unmarshal requires a pointer to a receiver"

  /** Unmarshal: decode the submitted values into what `t` points to. */
  method Unmarshal(kvs: seq<Pair>, t: Target) returns (err: Option<Error>)
    requires TargetValid(t) && DistinctKeys(kvs)
    modifies Footprint(t)
    ensures TargetValid(t)
    ensures !t.Pointer? ==> err == Some(Failure(NeedsPointer)) && unchanged(Footprint(t))
    ensures t.Pointer? && IsStruct(t) ==>
      var p := Decoded(StructOf(t).ty, old(StructOf(t).values), kvs);
      err == Outcome(p) && StructOf(t).values == p.values
    ensures t.Pointer? && !IsStruct(t) ==>
      err == (if kvs == [] then None else Some(Failure(CannotStore(""))))
  {
    if !t.Pointer? {
      return Some(Failure(NeedsPointer));
    }
    err := Walk(t, kvs);
  }
}
