/** Properties of the decoder stated over its specification functions:
    key resolution, hook dispatch, map assignment and the driver over many
    keys. */
module DecodeFacts {
  import opened Wrappers
  import opened Errors
  import opened Schema
  import opened Tags
  import opened Coercion
  import opened Decode

  /** Field `i` is the first, in declaration order, that answers to `key`. */
  predicate FirstAnswering(fields: seq<Field>, key: string, i: nat)
  {
    i < |fields| && ResolvedName(fields[i]) == key &&
    forall j :: 0 <= j < i ==> ResolvedName(fields[j]) != key
  }

  /** A key reaches the first field answering to it, and a key no field
      answers to leaves the struct unchanged without error. */
  lemma KeyResolution(ty: StructType, s: seq<Value>, key: string, vs: seq<string>, i: nat)
    requires |s| == |ty.fields|
    ensures (forall j :: 0 <= j < |ty.fields| ==> ResolvedName(ty.fields[j]) != key) ==>
      StructEffect(ty, s, key, vs) == (None, s)
    ensures FirstAnswering(ty.fields, key, i) ==> StructEffect(ty, s, key, vs) == FieldEffect(ty, s, i, vs)
  {
    if FirstAnswering(ty.fields, key, i) {
      var r := FindField(ty.fields, key);
      assert r.Some?;
      assert !(r.value < i) && !(i < r.value);
    }
  }

  /** The methods of `methods` whose names are in `names`. */
  function OnlyMethods(methods: map<string, Hook>, names: set<string>): map<string, Hook>
  {
    map k | k in methods && k in names :: methods[k]
  }

  /** Only the validator and setter named after the field's declared
      identifier are consulted, and the tag plays no part once the field is
      chosen. */
  lemma HooksByDeclaredName(ty: StructType, s: seq<Value>, i: nat, vs: seq<string>, otherTag: string)
    requires |s| == |ty.fields| && i < |s|
    ensures var n := ty.fields[i].name;
      FieldEffect(ty, s, i, vs)
        == FieldEffect(StructType(ty.name, ty.fields, OnlyMethods(ty.methods, {ValidatorName(n), SetterName(n)})), s, i, vs)
    ensures FieldEffect(ty, s, i, vs)
        == FieldEffect(StructType(ty.name, ty.fields[i := ty.fields[i].(tag := otherTag)], ty.methods), s, i, vs)
  {
  }

  /** "FormValidate" and "FormSet" names never clash. */
  lemma HookNamesDiffer(a: string, b: string)
    ensures ValidatorName(a) != SetterName(b)
  {
    assert ValidatorName(a)[4] == 'V' && SetterName(b)[4] == 'S';
  }

  /** Different fields have different hooks. */
  lemma HookNamesInjective(a: string, b: string)
    ensures ValidatorName(a) == ValidatorName(b) ==> a == b
    ensures SetterName(a) == SetterName(b) ==> a == b
  {
    assert ValidatorName(a)[12..] == a && ValidatorName(b)[12..] == b;
    assert SetterName(a)[7..] == a && SetterName(b)[7..] == b;
  }

  /** A failing validator ends the key: its error is returned and no
      coercion happens; a validator that assigns nothing leaves the struct
      unchanged. */
  lemma ValidatorFailureStops(ty: StructType, s: seq<Value>, i: nat, vs: seq<string>)
    requires |s| == |ty.fields| && i < |s|
    requires ValidatorName(ty.fields[i].name) in ty.methods
    requires ty.methods[ValidatorName(ty.fields[i].name)](vs, s).err.Some?
    ensures var h := ty.methods[ValidatorName(ty.fields[i].name)](vs, s);
      && FieldEffect(ty, s, i, vs) == (h.err, ApplyWrites(s, h.writes))
      && (h.writes == map[] ==> FieldEffect(ty, s, i, vs).1 == s)
  {
  }

  /** After a failing validator the setter is never called: removing it
      changes nothing. */
  lemma ValidatorFailureSkipsSetter(ty: StructType, s: seq<Value>, i: nat, vs: seq<string>)
    requires |s| == |ty.fields| && i < |s|
    requires ValidatorName(ty.fields[i].name) in ty.methods
    requires ty.methods[ValidatorName(ty.fields[i].name)](vs, s).err.Some?
    ensures var n := ty.fields[i].name;
      FieldEffect(ty, s, i, vs) == FieldEffect(StructType(ty.name, ty.fields, ty.methods - {SetterName(n)}), s, i, vs)
  {
    var n := ty.fields[i].name;
    HookNamesDiffer(n, n);
  }

  /** When the field has a setter (and validation passed), the setter's
      result is the key's result and the field's kind plays no part: no
      built-in coercion happens. */
  lemma SetterReplacesCoercion(ty: StructType, s: seq<Value>, i: nat, vs: seq<string>, k: Kind)
    requires |s| == |ty.fields| && i < |s|
    requires CallIfPresent(ty, ValidatorName(ty.fields[i].name), vs, s).err.None?
    requires SetterName(ty.fields[i].name) in ty.methods
    ensures var n := ty.fields[i].name;
      var s1 := ApplyWrites(s, CallIfPresent(ty, ValidatorName(n), vs, s).writes);
      var h := ty.methods[SetterName(n)](vs, s1);
      && FieldEffect(ty, s, i, vs) == (h.err, ApplyWrites(s1, h.writes))
      && FieldEffect(ty, s, i, vs)
           == FieldEffect(StructType(ty.name, ty.fields[i := ty.fields[i].(kind := k)], ty.methods), s, i, vs)
  {
  }

  /** Without a setter, built-in coercion stores its value and its errors
      are dropped: the key reports nothing, unless indexing an empty list
      panicked (a string or bool field given no value). */
  lemma CoercionErrorsDropped(ty: StructType, s: seq<Value>, i: nat, vs: seq<string>)
    requires |s| == |ty.fields| && i < |s|
    requires CallIfPresent(ty, ValidatorName(ty.fields[i].name), vs, s).err.None?
    requires SetterName(ty.fields[i].name) !in ty.methods
    ensures var f := ty.fields[i];
      var s1 := ApplyWrites(s, CallIfPresent(ty, ValidatorName(f.name), vs, s).writes);
      var r := FieldEffect(ty, s, i, vs);
      && (r.0 == None || r.0 == Some(Panic(IndexPanic)))
      && (r.0.Some? <==> (f.kind.StringKind? || f.kind.BoolKind?) && |vs| == 0)
      && r.1 == s1[i := Coerce(f.kind, vs, s1[i]).value]
  {
  }

  /** A struct type without methods: the key's field is coerced, and only
      a panic is reported. */
  lemma NoHooksEffect(ty: StructType, s: seq<Value>, key: string, vs: seq<string>, i: nat)
    requires |s| == |ty.fields| && ty.methods == map[]
    requires FindField(ty.fields, key) == Some(i)
    ensures var c := Coerce(ty.fields[i].kind, vs, s[i]);
      StructEffect(ty, s, key, vs) == (if c.err.Some? && c.err.value.Panic? then c.err else None, s[i := c.value])
  {
    assert CallIfPresent(ty, ValidatorName(ty.fields[i].name), vs, s) == NoHook;
    assert ApplyWrites(s, map[]) == s;
  }

  /** assignToMap touches only `key`; it stores a single value as a string
      and several as a string list, where the element type admits it, and
      otherwise leaves the map as it was. */
  lemma MapAssignment(elem: MapElem, entries: map<string, Value>, key: string, vs: seq<string>)
    ensures var r := MapEffect(elem, entries, key, vs);
      && (forall k :: k != key ==> (k in r <==> k in entries) && (k in r ==> r[k] == entries[k]))
      && (|vs| == 1 && !elem.StringsElem? && !elem.OtherElem? ==> key in r && r[key] == Str(vs[0]))
      && (|vs| > 1 && !elem.StringElem? && !elem.OtherElem? ==> key in r && r[key] == StrList(vs))
      && (|vs| == 0 || elem.OtherElem? ==> r == entries)
      && (|vs| == 1 && elem.StringsElem? ==> r == entries)
      && (|vs| > 1 && elem.StringElem? ==> r == entries)
  {
  }

  /** The fields after an assignment to `slot`, or unchanged when the slot
      names no field. */
  function Put(s: seq<Value>, slot: int, v: Value): seq<Value>
  {
    if 0 <= slot < |s| then s[slot := v] else s
  }

  /** Submitting `p` has the same effect on every struct state: the error
      `e` and at most one assignment. */
  ghost predicate StepIs(ty: StructType, p: Pair, e: Option<Error>, slot: int, v: Value)
  {
    forall s: seq<Value> {:trigger StructEffect(ty, s, p.0, p.1)} :: |s| == |ty.fields| ==> StructEffect(ty, s, p.0, p.1) == (e, Put(s, slot, v))
  }

  predicate NonFatal(e: Option<Error>)
  {
    e.None? || IsValidation(e.value)
  }

  /** An error the driver collects. */
  predicate Flagged(e: Option<Error>)
  {
    e.Some? && IsValidation(e.value)
  }

  /** The validation errors of the keys in order. */
  function Collected(kvs: seq<Pair>, errOf: Pair -> Option<Error>): seq<ValidationError>
  {
    if kvs == [] then []
    else
      var p := kvs[|kvs| - 1];
      Collected(kvs[..|kvs| - 1], errOf)
        + (if Flagged(errOf(p)) then [errOf(p).value.ve] else [])
  }

  /** Every key of `kvs` has a fixed effect, none is fatal, and no two
      keys assign the same field. */
  ghost predicate IndependentKeys(ty: StructType, kvs: seq<Pair>,
    errOf: Pair -> Option<Error>, slotOf: Pair -> int, valOf: Pair -> Value)
  {
    && (forall j :: 0 <= j < |kvs| ==> StepIs(ty, kvs[j], errOf(kvs[j]), slotOf(kvs[j]), valOf(kvs[j])))
    && (forall j :: 0 <= j < |kvs| ==> NonFatal(errOf(kvs[j])))
    && (forall i, j :: 0 <= i < j < |kvs| && slotOf(kvs[i]) >= 0 ==> slotOf(kvs[i]) != slotOf(kvs[j]))
  }

  /** A walk whose keys each have a fixed effect, none fatal, and assign
      pairwise different fields: it collects every validation error in key
      order, each assigned field ends with its key's value, and every other
      field keeps its value. Assignments commute here, so the final fields
      do not depend on the key order. */
  lemma {:induction false} IndependentWalk(ty: StructType, s0: seq<Value>, kvs: seq<Pair>,
    errOf: Pair -> Option<Error>, slotOf: Pair -> int, valOf: Pair -> Value)
    requires |s0| == |ty.fields|
    requires IndependentKeys(ty, kvs, errOf, slotOf, valOf)
    ensures var r := Decoded(ty, s0, kvs);
      && r.Running? && r.verrs == Collected(kvs, errOf)
      && (forall j :: 0 <= j < |kvs| && 0 <= slotOf(kvs[j]) < |s0| ==> r.values[slotOf(kvs[j])] == valOf(kvs[j]))
      && (forall i :: 0 <= i < |s0| && (forall j :: 0 <= j < |kvs| ==> slotOf(kvs[j]) != i) ==> r.values[i] == s0[i])
  {
    if kvs != [] {
      var n := |kvs| - 1;
      var init, last := kvs[..n], kvs[n];
      forall j | 0 <= j < n
        ensures StepIs(ty, init[j], errOf(init[j]), slotOf(init[j]), valOf(init[j]))
        ensures NonFatal(errOf(init[j]))
      {
        assert init[j] == kvs[j];
      }
      forall i, j | 0 <= i < j < n && slotOf(init[i]) >= 0
        ensures slotOf(init[i]) != slotOf(init[j])
      {
        assert init[i] == kvs[i] && init[j] == kvs[j];
      }
      IndependentWalk(ty, s0, init, errOf, slotOf, valOf);
      var r' := Decoded(ty, s0, init);
      var r := Decoded(ty, s0, kvs);
      StepOnRunning(ty, r', last, errOf(last), slotOf(last), valOf(last));
      assert r == Advance(ty, r', last);
      forall j | 0 <= j < |kvs| && 0 <= slotOf(kvs[j]) < |s0|
        ensures r.values[slotOf(kvs[j])] == valOf(kvs[j])
      {
        if j < n {
          assert init[j] == kvs[j];
          assert slotOf(kvs[j]) != slotOf(last);
        }
      }
      forall i | 0 <= i < |s0| && (forall j :: 0 <= j < |kvs| ==> slotOf(kvs[j]) != i)
        ensures r.values[i] == s0[i]
      {
        assert forall j :: 0 <= j < n ==> init[j] == kvs[j];
      }
    }
  }

  /** One key with a fixed, non-fatal effect. */
  lemma StepOnRunning(ty: StructType, st: Progress, p: Pair, e: Option<Error>, slot: int, v: Value)
    requires |st.values| == |ty.fields| && st.Running?
    requires StepIs(ty, p, e, slot, v) && NonFatal(e)
    ensures var r := Advance(ty, st, p);
      && r.Running? && r.values == Put(st.values, slot, v)
      && r.verrs == st.verrs + (if Flagged(e) then [e.value.ve] else [])
  {
    assert StructEffect(ty, st.values, p.0, p.1) == (e, Put(st.values, slot, v));
  }

  /** The submitted entries that fail validation. */
  function FlaggedEntries(kvs: seq<Pair>, errOf: Pair -> Option<Error>): set<Pair>
  {
    set p | p in kvs && Flagged(errOf(p))
  }

  /** With no key submitted twice, the number of collected validation
      errors is the number of submitted entries that fail validation,
      whatever their order. */
  lemma {:induction false} CollectedCount(kvs: seq<Pair>, errOf: Pair -> Option<Error>)
    requires forall i, j :: 0 <= i < j < |kvs| ==> kvs[i] != kvs[j]
    ensures |Collected(kvs, errOf)| == |FlaggedEntries(kvs, errOf)|
  {
    if kvs != [] {
      var n := |kvs| - 1;
      var init, last := kvs[..n], kvs[n];
      CollectedCount(init, errOf);
      var before := FlaggedEntries(init, errOf);
      var after := FlaggedEntries(kvs, errOf);
      assert kvs == init + [last];
      assert forall p :: p in kvs <==> p in init || p == last;
      assert last !in init;
      if Flagged(errOf(last)) {
        assert after == before + {last};
      } else {
        assert after == before;
      }
    }
  }

  /** Every validation error of a submitted entry is among those collected. */
  lemma {:induction false} CollectedMembers(kvs: seq<Pair>, errOf: Pair -> Option<Error>)
    ensures forall j :: 0 <= j < |kvs| && Flagged(errOf(kvs[j])) ==> errOf(kvs[j]).value.ve in Collected(kvs, errOf)
  {
    if kvs != [] {
      var n := |kvs| - 1;
      CollectedMembers(kvs[..n], errOf);
      assert forall j :: 0 <= j < n ==> kvs[..n][j] == kvs[j];
    }
  }

  /** No entry fails validation: nothing is collected. */
  lemma {:induction false} CollectedNone(kvs: seq<Pair>, errOf: Pair -> Option<Error>)
    requires forall j :: 0 <= j < |kvs| ==> !Flagged(errOf(kvs[j]))
    ensures Collected(kvs, errOf) == []
  {
    if kvs != [] {
      var n := |kvs| - 1;
      assert forall j :: 0 <= j < n ==> kvs[..n][j] == kvs[j];
      CollectedNone(kvs[..n], errOf);
    }
  }

  /** `kvs` is one order in which Go's map iteration may visit `form`: a
      permutation of it. */
  predicate Ordering(kvs: seq<Pair>, form: seq<Pair>)
  {
    DistinctKeys(kvs) && multiset(kvs) == multiset(form)
  }

  /** The form that submits every field's value, as its canonical text,
      under the key the field answers to. */
  function EncodeRecord(ty: StructType, vals: seq<Value>): (form: seq<Pair>)
    requires |vals| == |ty.fields|
    ensures |form| == |vals|
  {
    seq(|vals|, i requires 0 <= i < |vals| => (ResolvedName(ty.fields[i]), Encode(ty.fields[i].kind, vals[i])))
  }

  /** The field a key is assigned to, or -1 when no field answers to it. */
  function SlotOf(ty: StructType, key: string): int
  {
    match FindField(ty.fields, key)
    case Some(i) => i
    case None => -1
  }

  /** Fields that answer to pairwise different keys. */
  predicate DistinctNames(fields: seq<Field>)
  {
    forall i, j :: 0 <= i < j < |fields| ==> ResolvedName(fields[i]) != ResolvedName(fields[j])
  }

  /** On a struct type without methods, the canonical text of a value the
      field can hold sets exactly that field to the value, without error,
      whatever the struct held. */
  lemma EncodedFieldStep(ty: StructType, vals: seq<Value>, i: nat)
    requires ty.methods == map[] && |vals| == |ty.fields| && i < |vals|
    requires DistinctNames(ty.fields) && Fits(ty.fields[i].kind, vals[i])
    ensures var p := EncodeRecord(ty, vals)[i];
      SlotOf(ty, p.0) == i && StepIs(ty, p, None, i, vals[i])
  {
    var f := ty.fields[i];
    var p := EncodeRecord(ty, vals)[i];
    FindFirst(ty.fields, p.0, i);
    forall s: seq<Value> | |s| == |ty.fields|
      ensures StructEffect(ty, s, p.0, p.1) == (None, Put(s, i, vals[i]))
    {
      NoHooksEffect(ty, s, p.0, p.1, i);
      CoerceRoundTrip(f.kind, vals[i], s[i]);
    }
  }

  /** The value an entry of an encoded record leaves in its field. */
  function RecordValue(ty: StructType, vals: seq<Value>, p: Pair): Value
  {
    var i := SlotOf(ty, p.0);
    if 0 <= i < |vals| then vals[i] else Opaque
  }

  /** An entry of an encoded record sets the field it names to that
      field's value and raises no error. */
  lemma RecordEntryStep(ty: StructType, vals: seq<Value>, p: Pair)
    requires ty.methods == map[] && |vals| == |ty.fields| && DistinctNames(ty.fields)
    requires forall i :: 0 <= i < |vals| ==> Fits(ty.fields[i].kind, vals[i])
    requires p in EncodeRecord(ty, vals)
    ensures StepIs(ty, p, None, SlotOf(ty, p.0), RecordValue(ty, vals, p))
  {
    var form := EncodeRecord(ty, vals);
    var i :| 0 <= i < |form| && form[i] == p;
    EncodedFieldStep(ty, vals, i);
  }

  /** Entries under different keys never name the same field. */
  lemma SlotsDistinct(ty: StructType, kvs: seq<Pair>, slotOf: Pair -> int)
    requires DistinctKeys(kvs)
    requires forall p :: slotOf(p) == SlotOf(ty, p.0)
    ensures forall a, b :: 0 <= a < b < |kvs| && slotOf(kvs[a]) >= 0 ==> slotOf(kvs[a]) != slotOf(kvs[b])
  {
    forall a, b | 0 <= a < b < |kvs| && slotOf(kvs[a]) >= 0
      ensures slotOf(kvs[a]) != slotOf(kvs[b])
    {
      assert kvs[a].0 != kvs[b].0;
    }
  }

  /** The entries of an encoded record, in any order, are independent keys
      that raise no error. */
  lemma RecordKeys(ty: StructType, vals: seq<Value>, kvs: seq<Pair>,
    errOf: Pair -> Option<Error>, slotOf: Pair -> int, valOf: Pair -> Value)
    requires ty.methods == map[] && |vals| == |ty.fields| && DistinctNames(ty.fields)
    requires forall i :: 0 <= i < |vals| ==> Fits(ty.fields[i].kind, vals[i])
    requires Ordering(kvs, EncodeRecord(ty, vals))
    requires forall p :: errOf(p) == None && slotOf(p) == SlotOf(ty, p.0) && valOf(p) == RecordValue(ty, vals, p)
    ensures IndependentKeys(ty, kvs, errOf, slotOf, valOf)
  {
    forall j | 0 <= j < |kvs|
      ensures StepIs(ty, kvs[j], errOf(kvs[j]), slotOf(kvs[j]), valOf(kvs[j]))
    {
      assert kvs[j] in multiset(EncodeRecord(ty, vals));
      RecordEntryStep(ty, vals, kvs[j]);
    }
    SlotsDistinct(ty, kvs, slotOf);
  }

  /** Every field of an encoded record is assigned by one of its entries,
      whatever their order. */
  lemma RecordFieldAssigned(ty: StructType, vals: seq<Value>, kvs: seq<Pair>, i: nat)
    requires ty.methods == map[] && |vals| == |ty.fields| && DistinctNames(ty.fields)
    requires forall i :: 0 <= i < |vals| ==> Fits(ty.fields[i].kind, vals[i])
    requires Ordering(kvs, EncodeRecord(ty, vals)) && i < |vals|
    ensures exists j :: 0 <= j < |kvs| && SlotOf(ty, kvs[j].0) == i
  {
    var form := EncodeRecord(ty, vals);
    assert form[i] in multiset(kvs);
    var j :| 0 <= j < |kvs| && kvs[j] == form[i];
    EncodedFieldStep(ty, vals, i);
  }

  /** Values in which every entry of an encoded record has left its
      field's value are the encoded values. */
  lemma RecordValuesMatch(ty: StructType, vals: seq<Value>, kvs: seq<Pair>, values: seq<Value>,
    slotOf: Pair -> int, valOf: Pair -> Value)
    requires ty.methods == map[] && |vals| == |ty.fields| && DistinctNames(ty.fields)
    requires forall i :: 0 <= i < |vals| ==> Fits(ty.fields[i].kind, vals[i])
    requires Ordering(kvs, EncodeRecord(ty, vals)) && |values| == |vals|
    requires forall p :: slotOf(p) == SlotOf(ty, p.0) && valOf(p) == RecordValue(ty, vals, p)
    requires forall j :: 0 <= j < |kvs| && 0 <= slotOf(kvs[j]) < |values| ==> values[slotOf(kvs[j])] == valOf(kvs[j])
    ensures values == vals
  {
    forall i | 0 <= i < |vals|
      ensures values[i] == vals[i]
    {
      RecordFieldAssigned(ty, vals, kvs, i);
      var j :| 0 <= j < |kvs| && SlotOf(ty, kvs[j].0) == i;
      assert slotOf(kvs[j]) == i;
    }
  }

  /** Round trip over a whole record: on a struct type without methods
      whose fields answer to pairwise different keys, submitting every
      field's value as its canonical text, in any order, decodes into a
      zero record without error and reproduces the values. */
  lemma RecordRoundTrip(ty: StructType, vals: seq<Value>, kvs: seq<Pair>)
    requires ty.methods == map[] && |vals| == |ty.fields| && DistinctNames(ty.fields)
    requires forall i :: 0 <= i < |vals| ==> Fits(ty.fields[i].kind, vals[i])
    requires Ordering(kvs, EncodeRecord(ty, vals))
    ensures Decoded(ty, ZeroValues(ty.fields), kvs) == Running(vals, [])
  {
    var s0 := ZeroValues(ty.fields);
    var errOf: Pair -> Option<Error> := (p: Pair) => None;
    var slotOf: Pair -> int := (p: Pair) => SlotOf(ty, p.0);
    var valOf: Pair -> Value := (p: Pair) => RecordValue(ty, vals, p);
    RecordKeys(ty, vals, kvs, errOf, slotOf, valOf);
    IndependentWalk(ty, s0, kvs, errOf, slotOf, valOf);
    CollectedNone(kvs, errOf);
    RecordValuesMatch(ty, vals, kvs, Decoded(ty, s0, kvs).values, slotOf, valOf);
  }

  /** Unmarshal of an encoded record, in any key order, into a fresh record
      of its type: no error, and the record holds the encoded values. */
  method UnmarshalEncoded(ty: StructType, vals: seq<Value>, kvs: seq<Pair>)
    returns (err: Option<Error>, values: seq<Value>)
    requires ty.methods == map[] && |vals| == |ty.fields| && DistinctNames(ty.fields)
    requires forall i :: 0 <= i < |vals| ==> Fits(ty.fields[i].kind, vals[i])
    requires Ordering(kvs, EncodeRecord(ty, vals))
    ensures err == None && values == vals
  {
    var rec := new Record(ty);
    err := Unmarshal(kvs, Pointer(StructObj(rec)));
    RecordRoundTrip(ty, vals, kvs);
    values := rec.values;
  }
}
