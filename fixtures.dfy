/** The schemas, hooks and scenarios of the package's own tests. */
module Fixtures {
  import opened Wrappers
  import opened GoStrings
  import opened Strconv
  import opened Errors
  import opened Schema
  import opened Tags
  import opened Coercion
  import opened Decode
  import opened DecodeFacts

  // FixtureAddress: Street, City and State are strings, Zip an int.

  const StateRequired := ValidationError("state", "state is required")
  const UnknownState := ValidationError("state", "unknown state")
  const StreetFail := ValidationError("street", "street cannot be FAIL")
  const CityRequired := "city is required"

  /** FixtureAddress.FormValidateState: a state must be given and must be
      Illinois. */
  function FormValidateState(vs: seq<string>, s: seq<Value>): (r: HookResult)
    ensures r.writes == map[]
    ensures r.err == None <==> |vs| > 0 && vs[0] == "Illinois"
    ensures (|vs| == 0 || vs[0] == "") ==> r.err == Some(Invalid(StateRequired))
    ensures r.err.Some? ==> r.err.value.Invalid? && r.err.value.ve.field == "state"
  {
    if |vs| == 0 || vs[0] == "" then HookResult(Some(Invalid(StateRequired)), map[])
    else if vs[0] != "Illinois" then HookResult(Some(Invalid(UnknownState)), map[])
    else HookResult(None, map[])
  }

  /** FixtureAddress.FormValidateStreet: the street must not be "FAIL"; it
      reads the first value without checking that there is one. */
  function FormValidateStreet(vs: seq<string>, s: seq<Value>): (r: HookResult)
    ensures r.writes == map[]
    ensures |vs| == 0 ==> r.err == Some(Panic(IndexPanic))
    ensures |vs| > 0 ==> (r.err.Some? <==> vs[0] == "FAIL") && (r.err.Some? ==> r.err == Some(Invalid(StreetFail)))
  {
    if |vs| == 0 then HookResult(Some(Panic(IndexPanic)), map[])
    else if vs[0] == "FAIL" then HookResult(Some(Invalid(StreetFail)), map[])
    else HookResult(None, map[])
  }

  /** FixtureAddress.FormSetCity: stores the first value in lower case in
      City (field 1); no value is an ordinary, fatal error. */
  function FormSetCity(vs: seq<string>, s: seq<Value>): (r: HookResult)
    ensures |vs| == 0 ==> r.err == Some(Failure(CityRequired)) && r.writes == map[]
    ensures |vs| > 0 ==> r.err == None && r.writes.Keys == {1} && r.writes[1].Str?
    ensures |vs| > 0 ==>
      (|r.writes[1].s| == |vs[0]| && forall k :: 0 <= k < |vs[0]| ==> r.writes[1].s[k] == LowerChar(vs[0][k]))
  {
    if |vs| == 0 then HookResult(Some(Failure(CityRequired)), map[])
    else HookResult(None, map[1 := Str(ToLower(vs[0]))])
  }

  const FixtureAddress := StructType("FixtureAddress",
    [ Field("Street", "street", StringKind),
      Field("City", "city", StringKind),
      Field("State", "state", StringKind),
      Field("Zip", "zip", IntKind(0)) ],
    map[ValidatorName("State") := FormValidateState,
        ValidatorName("Street") := FormValidateStreet,
        SetterName("City") := FormSetCity])

  /** FixtureAddress has exactly the three hooks. */
  lemma AddressHooks()
    ensures ValidatorName("Street") in FixtureAddress.methods
    ensures ValidatorName("State") in FixtureAddress.methods
    ensures SetterName("City") in FixtureAddress.methods
    ensures ValidatorName("City") !in FixtureAddress.methods
    ensures ValidatorName("Zip") !in FixtureAddress.methods
    ensures SetterName("Street") !in FixtureAddress.methods
    ensures SetterName("State") !in FixtureAddress.methods
    ensures SetterName("Zip") !in FixtureAddress.methods
  {
    var names := ["Street", "City", "State", "Zip"];
    forall a, b | a in names && b in names
      ensures ValidatorName(a) != SetterName(b)
      ensures a != b ==> ValidatorName(a) != ValidatorName(b) && SetterName(a) != SetterName(b)
    {
      HookNamesDiffer(a, b);
      HookNamesInjective(a, b);
    }
  }

  /** Each FixtureAddress field answers to its tag. */
  lemma AddressNames()
    ensures ResolvedName(FixtureAddress.fields[0]) == "street"
    ensures ResolvedName(FixtureAddress.fields[1]) == "city"
    ensures ResolvedName(FixtureAddress.fields[2]) == "state"
    ensures ResolvedName(FixtureAddress.fields[3]) == "zip"
  {
    TagOfName("street");
    TagOfName("city");
    TagOfName("state");
    TagOfName("zip");
  }

  /** Each tag reaches its own field. */
  lemma AddressFields()
    ensures FindField(FixtureAddress.fields, "street") == Some(0)
    ensures FindField(FixtureAddress.fields, "city") == Some(1)
    ensures FindField(FixtureAddress.fields, "state") == Some(2)
    ensures FindField(FixtureAddress.fields, "zip") == Some(3)
  {
    AddressNames();
  }

  lemma ZipParses()
    ensures ParseInt("60626") == Ok(60626)
  {
    assert Digits(6) == "6";
    assert Digits(60) == Digits(6) + "0" == "60";
    assert Digits(606) == Digits(60) + "6" == "606";
    assert Digits(6062) == Digits(606) + "2" == "6062";
    assert Digits(60626) == Digits(6062) + "6" == "60626";
    ParseFormatInt(60626);
  }

  lemma ZipCoerced(cur: Value)
    ensures Coerce(IntKind(0), ["60626"], cur) == Coerced(None, IntVal(60626))
  {
    ZipParses();
  }

  lemma GlenviewLower()
    ensures ToLower("Glenview") == "glenview"
  {
    var r := ToLower("Glenview");
    assert forall k :: 0 <= k < 8 ==> r[k] == "glenview"[k];
  }

  /** A street key: FormValidateStreet first, then plain assignment. */
  lemma StreetField(s: seq<Value>, vs: seq<string>)
    requires |s| == 4
    ensures FieldEffect(FixtureAddress, s, 0, vs) ==
      if |vs| == 0 then (Some(Panic(IndexPanic)), s)
      else if vs[0] == "FAIL" then (Some(Invalid(StreetFail)), s)
      else (None, s[0 := Str(vs[0])])
  {
    AddressHooks();
    assert ApplyWrites(s, map[]) == s;
  }

  /** A city key: FormSetCity alone decides. */
  lemma CityField(s: seq<Value>, vs: seq<string>)
    requires |s| == 4
    ensures FieldEffect(FixtureAddress, s, 1, vs) ==
      if |vs| == 0 then (Some(Failure(CityRequired)), s)
      else (None, s[1 := Str(ToLower(vs[0]))])
  {
    AddressHooks();
    assert ApplyWrites(s, map[]) == s;
    if |vs| > 0 {
      assert ApplyWrites(s, map[1 := Str(ToLower(vs[0]))]) == s[1 := Str(ToLower(vs[0]))];
    }
  }

  /** A state key: FormValidateState first, then plain assignment. */
  lemma StateField(s: seq<Value>, vs: seq<string>)
    requires |s| == 4
    ensures FieldEffect(FixtureAddress, s, 2, vs) ==
      if |vs| == 0 || vs[0] == "" then (Some(Invalid(StateRequired)), s)
      else if vs[0] != "Illinois" then (Some(Invalid(UnknownState)), s)
      else (None, s[2 := Str("Illinois")])
  {
    AddressHooks();
    assert ApplyWrites(s, map[]) == s;
  }

  /** A zip key: plain coercion to int, errors dropped. */
  lemma ZipField(s: seq<Value>, vs: seq<string>)
    requires |s| == 4
    ensures FieldEffect(FixtureAddress, s, 3, vs) == (None, s[3 := Coerce(IntKind(0), vs, s[3]).value])
  {
    AddressHooks();
    assert ApplyWrites(s, map[]) == s;
  }

  /** A street other than "FAIL" passes validation and is stored. */
  lemma StreetStep(v: string)
    requires v != "FAIL"
    ensures StepIs(FixtureAddress, ("street", [v]), None, 0, Str(v))
  {
    forall s: seq<Value> | |s| == 4
      ensures StructEffect(FixtureAddress, s, "street", [v]) == (None, Put(s, 0, Str(v)))
    {
      AddressFields();
      StreetField(s, [v]);
    }
  }

  /** "FAIL" is rejected and the street is left as it was. */
  lemma StreetFailStep()
    ensures StepIs(FixtureAddress, ("street", ["FAIL"]), Some(Invalid(StreetFail)), -1, Opaque)
  {
    forall s: seq<Value> | |s| == 4
      ensures StructEffect(FixtureAddress, s, "street", ["FAIL"]) == (Some(Invalid(StreetFail)), Put(s, -1, Opaque))
    {
      AddressFields();
      StreetField(s, ["FAIL"]);
    }
  }

  /** The city goes through FormSetCity. */
  lemma CityStep()
    ensures StepIs(FixtureAddress, ("city", ["Glenview"]), None, 1, Str("glenview"))
  {
    forall s: seq<Value> | |s| == 4
      ensures StructEffect(FixtureAddress, s, "city", ["Glenview"]) == (None, Put(s, 1, Str("glenview")))
    {
      AddressFields();
      CityField(s, ["Glenview"]);
      GlenviewLower();
    }
  }

  /** A city key without values makes FormSetCity fail. */
  lemma CityMissingStep()
    ensures StepIs(FixtureAddress, ("city", []), Some(Failure(CityRequired)), -1, Opaque)
  {
    forall s: seq<Value> | |s| == 4
      ensures StructEffect(FixtureAddress, s, "city", []) == (Some(Failure(CityRequired)), Put(s, -1, Opaque))
    {
      AddressFields();
      CityField(s, []);
    }
  }

  /** Illinois passes validation and is stored. */
  lemma StateStep()
    ensures StepIs(FixtureAddress, ("state", ["Illinois"]), None, 2, Str("Illinois"))
  {
    forall s: seq<Value> | |s| == 4
      ensures StructEffect(FixtureAddress, s, "state", ["Illinois"]) == (None, Put(s, 2, Str("Illinois")))
    {
      AddressFields();
      StateField(s, ["Illinois"]);
    }
  }

  /** An empty state is rejected and the state is left as it was. */
  lemma StateEmptyStep()
    ensures StepIs(FixtureAddress, ("state", [""]), Some(Invalid(StateRequired)), -1, Opaque)
  {
    forall s: seq<Value> | |s| == 4
      ensures StructEffect(FixtureAddress, s, "state", [""]) == (Some(Invalid(StateRequired)), Put(s, -1, Opaque))
    {
      AddressFields();
      StateField(s, [""]);
    }
  }

  /** The ZIP code is coerced to an int. */
  lemma ZipStep()
    ensures StepIs(FixtureAddress, ("zip", ["60626"]), None, 3, IntVal(60626))
  {
    forall s: seq<Value> | |s| == 4
      ensures StructEffect(FixtureAddress, s, "zip", ["60626"]) == (None, Put(s, 3, IntVal(60626)))
    {
      AddressFields();
      ZipField(s, ["60626"]);
      ZipCoerced(s[3]);
    }
  }

  /** fixtureFormData, as url.Values.Set leaves it: one value per key. */
  const FixtureFormData: seq<Pair> :=
    [("street", ["1234 Long St."]), ("city", ["Glenview"]), ("state", ["Illinois"]), ("zip", ["60626"])]

  /** The form of TestUnmarshalValidator: an empty state and the street "FAIL". */
  const ValidatorFormData: seq<Pair> :=
    [("street", ["FAIL"]), ("city", ["Glenview"]), ("state", [""]), ("zip", ["60626"])]

  /** The form of TestUnmarshalSetter: the city key with no values. */
  const SetterFormData: seq<Pair> :=
    [("street", ["1234 Long St."]), ("city", []), ("state", ["Illinois"]), ("zip", ["60626"])]

  /** Every entry the three forms submit. */
  const Entries: set<Pair> :=
    {("street", ["1234 Long St."]), ("street", ["FAIL"]), ("city", ["Glenview"]), ("city", []),
     ("state", ["Illinois"]), ("state", [""]), ("zip", ["60626"])}

  /** The error, the assigned field and its new value for each entry. */
  function EntryErr(p: Pair): Option<Error>
  {
    if p == ("street", ["FAIL"]) then Some(Invalid(StreetFail))
    else if p == ("state", [""]) then Some(Invalid(StateRequired))
    else if p == ("city", []) then Some(Failure(CityRequired))
    else None
  }

  function EntrySlot(p: Pair): int
  {
    if EntryErr(p).Some? then -1
    else if p.0 == "street" then 0
    else if p.0 == "city" then 1
    else if p.0 == "state" then 2
    else if p.0 == "zip" then 3
    else -1
  }

  function EntryValue(p: Pair): Value
  {
    if EntryErr(p).Some? then Opaque
    else if p.0 == "city" then Str("glenview")
    else if p.0 == "zip" then IntVal(60626)
    else if |p.1| > 0 then Str(p.1[0])
    else Opaque
  }

  /** Each entry has the same effect on any FixtureAddress. */
  lemma EntryStep(p: Pair)
    requires p in Entries
    ensures StepIs(FixtureAddress, p, EntryErr(p), EntrySlot(p), EntryValue(p))
  {
    if p == ("street", ["1234 Long St."]) {
      StreetStep("1234 Long St.");
    } else if p == ("street", ["FAIL"]) {
      StreetFailStep();
    } else if p == ("city", ["Glenview"]) {
      CityStep();
    } else if p == ("city", []) {
      CityMissingStep();
    } else if p == ("state", ["Illinois"]) {
      StateStep();
    } else if p == ("state", [""]) {
      StateEmptyStep();
    } else {
      assert p == ("zip", ["60626"]);
      assert EntryErr(p) == None && EntrySlot(p) == 3 && EntryValue(p) == IntVal(60626);
      ZipStep();
    }
  }

  /** A struct type of four fields on which every entry has the effect it
      has on FixtureAddress. The walks below are proved for any such type,
      which keeps the literal FixtureAddress out of their proofs. */
  ghost predicate AddressLike(ty: StructType)
  {
    |ty.fields| == 4 &&
    forall p :: p in Entries ==> StepIs(ty, p, EntryErr(p), EntrySlot(p), EntryValue(p))
  }

  lemma FixtureAddressLike()
    ensures AddressLike(FixtureAddress)
  {
    forall p | p in Entries
      ensures StepIs(FixtureAddress, p, EntryErr(p), EntrySlot(p), EntryValue(p))
    {
      EntryStep(p);
    }
  }

  /** Entries under different keys assign different fields. */
  lemma EntrySlotsDistinct(kvs: seq<Pair>)
    requires DistinctKeys(kvs)
    ensures forall i, j :: 0 <= i < j < |kvs| && EntrySlot(kvs[i]) >= 0 ==> EntrySlot(kvs[i]) != EntrySlot(kvs[j])
  {
    forall i, j | 0 <= i < j < |kvs| && EntrySlot(kvs[i]) >= 0
      ensures EntrySlot(kvs[i]) != EntrySlot(kvs[j])
    {
      assert kvs[i].0 != kvs[j].0;
    }
  }

  /** `&FixtureAddress{}` */
  lemma AddressZero()
    ensures ZeroValues(FixtureAddress.fields) == ZeroAddress
  {
  }

  /** None of TestUnmarshal's entries fails. */
  lemma FormDataValid(kvs: seq<Pair>)
    requires forall j :: 0 <= j < |kvs| ==> kvs[j] in FixtureFormData
    ensures forall j :: 0 <= j < |kvs| ==> kvs[j] in Entries && EntryErr(kvs[j]) == None
  {
  }

  /** Each entry of an ordering of `form` is an entry of `form`. */
  lemma OrderingEntries(kvs: seq<Pair>, form: seq<Pair>)
    requires Ordering(kvs, form)
    ensures forall j :: 0 <= j < |kvs| ==> kvs[j] in form
    ensures forall p :: p in form ==> exists j :: 0 <= j < |kvs| && kvs[j] == p
    ensures forall i, j :: 0 <= i < j < |kvs| ==> kvs[i] != kvs[j]
  {
    forall j | 0 <= j < |kvs|
      ensures kvs[j] in form
    {
      assert kvs[j] in multiset(kvs);
    }
    forall p | p in form
      ensures exists j :: 0 <= j < |kvs| && kvs[j] == p
    {
      assert p in multiset(form);
      assert p in kvs;
    }
  }

  /** Entries that are never fatal, under distinct keys, are independent
      keys of any type that behaves like FixtureAddress. */
  lemma AddressKeys(ty: StructType, kvs: seq<Pair>)
    requires AddressLike(ty) && DistinctKeys(kvs)
    requires forall j :: 0 <= j < |kvs| ==> kvs[j] in Entries && NonFatal(EntryErr(kvs[j]))
    ensures IndependentKeys(ty, kvs, EntryErr, EntrySlot, EntryValue)
  {
    EntrySlotsDistinct(kvs);
  }

  /** The walk over such entries, in any order, on any type that behaves
      like FixtureAddress: it keeps running and collects the validation
      errors in key order. */
  lemma AddressRunning(ty: StructType, s0: seq<Value>, kvs: seq<Pair>)
    requires AddressLike(ty) && |s0| == 4 && DistinctKeys(kvs)
    requires forall j :: 0 <= j < |kvs| ==> kvs[j] in Entries && NonFatal(EntryErr(kvs[j]))
    ensures var r := Decoded(ty, s0, kvs); r.Running? && |r.values| == 4 && r.verrs == Collected(kvs, EntryErr)
  {
    AddressKeys(ty, kvs);
    IndependentWalk(ty, s0, kvs, EntryErr, EntrySlot, EntryValue);
  }

  /** ... each entry that assigns a field leaves its value there ... */
  lemma AddressSlot(ty: StructType, s0: seq<Value>, kvs: seq<Pair>, p: Pair)
    requires AddressLike(ty) && |s0| == 4 && DistinctKeys(kvs)
    requires forall j :: 0 <= j < |kvs| ==> kvs[j] in Entries && NonFatal(EntryErr(kvs[j]))
    requires p in kvs && 0 <= EntrySlot(p) < 4
    ensures Decoded(ty, s0, kvs).values[EntrySlot(p)] == EntryValue(p)
  {
    var j :| 0 <= j < |kvs| && kvs[j] == p;
    AddressKeys(ty, kvs);
    IndependentWalk(ty, s0, kvs, EntryErr, EntrySlot, EntryValue);
  }

  /** ... and a field no entry assigns keeps its value. */
  lemma AddressUntouched(ty: StructType, s0: seq<Value>, kvs: seq<Pair>, i: nat)
    requires AddressLike(ty) && |s0| == 4 && DistinctKeys(kvs)
    requires forall j :: 0 <= j < |kvs| ==> kvs[j] in Entries && NonFatal(EntryErr(kvs[j]))
    requires i < 4 && forall j :: 0 <= j < |kvs| ==> EntrySlot(kvs[j]) != i
    ensures Decoded(ty, s0, kvs).values[i] == s0[i]
  {
    AddressKeys(ty, kvs);
    IndependentWalk(ty, s0, kvs, EntryErr, EntrySlot, EntryValue);
  }

  lemma FourFields(v: seq<Value>, a: Value, b: Value, c: Value, d: Value)
    requires |v| == 4 && v[0] == a && v[1] == b && v[2] == c && v[3] == d
    ensures v == [a, b, c, d]
  {
  }

  const ZeroAddress := [Str(""), Str(""), Str(""), IntVal(0)]

  /** TestUnmarshal's walk on any type that behaves like FixtureAddress. */
  lemma FormDataWalk(ty: StructType, kvs: seq<Pair>)
    requires AddressLike(ty) && Ordering(kvs, FixtureFormData)
    ensures Decoded(ty, ZeroAddress, kvs)
      == Running([Str("1234 Long St."), Str("glenview"), Str("Illinois"), IntVal(60626)], [])
  {
    OrderingEntries(kvs, FixtureFormData);
    FormDataValid(kvs);
    AddressRunning(ty, ZeroAddress, kvs);
    CollectedNone(kvs, EntryErr);
    var r := Decoded(ty, ZeroAddress, kvs);
    AddressSlot(ty, ZeroAddress, kvs, ("street", ["1234 Long St."]));
    AddressSlot(ty, ZeroAddress, kvs, ("city", ["Glenview"]));
    AddressSlot(ty, ZeroAddress, kvs, ("state", ["Illinois"]));
    AddressSlot(ty, ZeroAddress, kvs, ("zip", ["60626"]));
    FourFields(r.values, Str("1234 Long St."), Str("glenview"), Str("Illinois"), IntVal(60626));
  }

  /** TestUnmarshal's walk, in whatever order the keys come: no error, and
      every field takes its value, the city through FormSetCity. */
  lemma UnmarshalDecoded(kvs: seq<Pair>)
    requires Ordering(kvs, FixtureFormData)
    ensures Decoded(FixtureAddress, ZeroAddress, kvs)
      == Running([Str("1234 Long St."), Str("glenview"), Str("Illinois"), IntVal(60626)], [])
  {
    FixtureAddressLike();
    FormDataWalk(FixtureAddress, kvs);
  }

  /** TestUnmarshalValidator's entries: only the street "FAIL" and the empty
      state fail, both with validation errors. */
  lemma ValidatorDataValid(kvs: seq<Pair>)
    requires forall j :: 0 <= j < |kvs| ==> kvs[j] in ValidatorFormData
    ensures forall j :: 0 <= j < |kvs| ==> kvs[j] in Entries && NonFatal(EntryErr(kvs[j]))
  {
  }

  /** ... and none of them assigns the street or the state. */
  lemma ValidatorDataSlots(kvs: seq<Pair>)
    requires forall j :: 0 <= j < |kvs| ==> kvs[j] in ValidatorFormData
    ensures forall j :: 0 <= j < |kvs| ==> EntrySlot(kvs[j]) != 0
    ensures forall j :: 0 <= j < |kvs| ==> EntrySlot(kvs[j]) != 2
  {
  }

  /** The entries of an ordering of ValidatorFormData that fail validation. */
  lemma ValidatorFlagged(kvs: seq<Pair>)
    requires Ordering(kvs, ValidatorFormData)
    ensures FlaggedEntries(kvs, EntryErr) == {("street", ["FAIL"]), ("state", [""])}
  {
    var flagged := FlaggedEntries(kvs, EntryErr);
    forall p | p in flagged
      ensures p == ("street", ["FAIL"]) || p == ("state", [""])
    {
      assert p in multiset(kvs);
    }
    assert ("street", ["FAIL"]) in multiset(ValidatorFormData);
    assert ("state", [""]) in multiset(ValidatorFormData);
  }

  /** Two distinct errors make up a list of length two in one order or the
      other. */
  lemma TwoErrors(l: seq<ValidationError>, a: ValidationError, b: ValidationError)
    requires |l| == 2 && a in l && b in l && a != b
    ensures l == [a, b] || l == [b, a]
  {
  }

  /** Exactly the two failing entries are collected. */
  lemma ValidatorCollected(kvs: seq<Pair>)
    requires Ordering(kvs, ValidatorFormData)
    ensures var c := Collected(kvs, EntryErr);
      c == [StreetFail, StateRequired] || c == [StateRequired, StreetFail]
  {
    OrderingEntries(kvs, ValidatorFormData);
    CollectedCount(kvs, EntryErr);
    ValidatorFlagged(kvs);
    assert |{("street", ["FAIL"]), ("state", [""])}| == 2;
    CollectedMembers(kvs, EntryErr);
    var c := Collected(kvs, EntryErr);
    var js :| 0 <= js < |kvs| && kvs[js] == ("street", ["FAIL"]);
    var jt :| 0 <= jt < |kvs| && kvs[jt] == ("state", [""]);
    assert StreetFail in c by { assert Flagged(EntryErr(kvs[js])); }
    assert StateRequired in c by { assert Flagged(EntryErr(kvs[jt])); }
    TwoErrors(c, StreetFail, StateRequired);
  }

  /** An entry of TestUnmarshalValidator's form that assigns a field
      leaves its value there. */
  lemma ValidatorSlot(ty: StructType, kvs: seq<Pair>, p: Pair)
    requires AddressLike(ty) && Ordering(kvs, ValidatorFormData)
    requires p in ValidatorFormData && 0 <= EntrySlot(p) < 4
    ensures Decoded(ty, ZeroAddress, kvs).values[EntrySlot(p)] == EntryValue(p)
  {
    OrderingEntries(kvs, ValidatorFormData);
    ValidatorDataValid(kvs);
    AddressSlot(ty, ZeroAddress, kvs, p);
  }

  /** The city and the ZIP code take their values. */
  lemma ValidatorAssigned(ty: StructType, kvs: seq<Pair>)
    requires AddressLike(ty) && Ordering(kvs, ValidatorFormData)
    ensures Decoded(ty, ZeroAddress, kvs).values[1] == Str("glenview")
    ensures Decoded(ty, ZeroAddress, kvs).values[3] == IntVal(60626)
  {
    ValidatorSlot(ty, kvs, ("city", ["Glenview"]));
    ValidatorSlot(ty, kvs, ("zip", ["60626"]));
  }

  /** The rejected street and state keep their zero values. */
  lemma ValidatorUntouched(ty: StructType, kvs: seq<Pair>)
    requires AddressLike(ty) && Ordering(kvs, ValidatorFormData)
    ensures Decoded(ty, ZeroAddress, kvs).values[0] == Str("")
    ensures Decoded(ty, ZeroAddress, kvs).values[2] == Str("")
  {
    OrderingEntries(kvs, ValidatorFormData);
    ValidatorDataValid(kvs);
    ValidatorDataSlots(kvs);
    AddressUntouched(ty, ZeroAddress, kvs, 0);
    AddressUntouched(ty, ZeroAddress, kvs, 2);
  }

  /** The fields after TestUnmarshalValidator's walk: the rejected street and
      state stay empty, the city and the ZIP code are set. */
  lemma ValidatorValues(ty: StructType, kvs: seq<Pair>)
    requires AddressLike(ty) && Ordering(kvs, ValidatorFormData)
    ensures Decoded(ty, ZeroAddress, kvs).values == [Str(""), Str("glenview"), Str(""), IntVal(60626)]
  {
    var r := Decoded(ty, ZeroAddress, kvs);
    ValidatorAssigned(ty, kvs);
    ValidatorUntouched(ty, kvs);
    FourFields(r.values, Str(""), Str("glenview"), Str(""), IntVal(60626));
  }

  /** TestUnmarshalValidator's walk on any type that behaves like
      FixtureAddress. */
  lemma ValidatorWalk(ty: StructType, kvs: seq<Pair>)
    requires AddressLike(ty) && Ordering(kvs, ValidatorFormData)
    ensures var r := Decoded(ty, ZeroAddress, kvs);
      && r.Running? && |r.verrs| == 2
      && (r.verrs == [StreetFail, StateRequired] || r.verrs == [StateRequired, StreetFail])
      && r.values == [Str(""), Str("glenview"), Str(""), IntVal(60626)]
  {
    OrderingEntries(kvs, ValidatorFormData);
    ValidatorDataValid(kvs);
    AddressRunning(ty, ZeroAddress, kvs);
    ValidatorCollected(kvs);
    ValidatorValues(ty, kvs);
  }

  /** TestUnmarshalValidator's walk, in whatever order the keys come: the
      street and the state fail validation, both errors are collected at
      whichever place their keys come, and the other fields are still set. */
  lemma ValidatorDecoded(kvs: seq<Pair>)
    requires Ordering(kvs, ValidatorFormData)
    ensures var r := Decoded(FixtureAddress, ZeroAddress, kvs);
      && r.Running? && |r.verrs| == 2
      && (r.verrs == [StreetFail, StateRequired] || r.verrs == [StateRequired, StreetFail])
      && r.values == [Str(""), Str("glenview"), Str(""), IntVal(60626)]
  {
    FixtureAddressLike();
    ValidatorWalk(FixtureAddress, kvs);
  }

  /** The keys of an ordering of SetterFormData before the city key: none
      is fatal, and no key comes twice. */
  lemma BeforeCity(kvs: seq<Pair>, j: nat)
    requires Ordering(kvs, SetterFormData)
    requires j < |kvs| && kvs[j] == ("city", [])
    ensures DistinctKeys(kvs[..j])
    ensures forall i :: 0 <= i < j ==> kvs[..j][i] in Entries && NonFatal(EntryErr(kvs[..j][i]))
  {
    forall i | 0 <= i < j
      ensures kvs[..j][i] in Entries && NonFatal(EntryErr(kvs[..j][i]))
    {
      assert kvs[..j][i] == kvs[i];
      assert kvs[i] in multiset(kvs);
      assert kvs[i].0 != kvs[j].0;
    }
    forall a, b | 0 <= a < b < j
      ensures kvs[..j][a].0 != kvs[..j][b].0
    {
      assert kvs[..j][a] == kvs[a] && kvs[..j][b] == kvs[b];
    }
  }

  /** The city key without values stops a running walk. */
  lemma CityStops(ty: StructType, st: Progress)
    requires AddressLike(ty) && st.Running? && |st.values| == 4
    ensures Advance(ty, st, ("city", [])) == Stopped(Failure(CityRequired), st.values)
  {
    assert ("city", []) in Entries;
    assert StructEffect(ty, st.values, "city", []) == (Some(Failure(CityRequired)), st.values);
  }

  /** The walk up to and including the city key has stopped. */
  lemma StopsAtCity(ty: StructType, kvs: seq<Pair>, j: nat)
    requires AddressLike(ty) && Ordering(kvs, SetterFormData)
    requires j < |kvs| && kvs[j] == ("city", [])
    ensures Decoded(ty, ZeroAddress, kvs[..j + 1])
      == Stopped(Failure(CityRequired), Decoded(ty, ZeroAddress, kvs[..j]).values)
  {
    var pre, upto := kvs[..j], kvs[..j + 1];
    BeforeCity(kvs, j);
    AddressRunning(ty, ZeroAddress, pre);
    var st := Decoded(ty, ZeroAddress, pre);
    assert upto[..j] == pre && upto[j] == ("city", []);
    assert Decoded(ty, ZeroAddress, upto) == Advance(ty, st, ("city", []));
    CityStops(ty, st);
  }

  /** Where the city key comes in an ordering of SetterFormData. */
  lemma CityIndex(kvs: seq<Pair>) returns (j: nat)
    requires Ordering(kvs, SetterFormData)
    ensures j < |kvs| && kvs[j] == ("city", [])
  {
    assert ("city", []) in multiset(SetterFormData);
    assert ("city", []) in kvs;
    j :| 0 <= j < |kvs| && kvs[j] == ("city", []);
  }

  /** TestUnmarshalSetter's walk on any type that behaves like
      FixtureAddress. */
  lemma SetterWalk(ty: StructType, kvs: seq<Pair>)
    requires AddressLike(ty) && Ordering(kvs, SetterFormData)
    ensures Outcome(Decoded(ty, ZeroAddress, kvs)) == Some(Failure(CityRequired))
  {
    var j := CityIndex(kvs);
    StopsAtCity(ty, kvs, j);
    StoppedAt(ty, Running(ZeroAddress, []), kvs, j);
  }

  /** TestUnmarshalSetter's walk, in whatever order the keys come: the city
      key without values makes FormSetCity fail, and that error, which is no
      validation error, is what Unmarshal returns. */
  lemma SetterDecoded(kvs: seq<Pair>)
    requires Ordering(kvs, SetterFormData)
    ensures Outcome(Decoded(FixtureAddress, ZeroAddress, kvs)) == Some(Failure(CityRequired))
  {
    FixtureAddressLike();
    SetterWalk(FixtureAddress, kvs);
  }
}
