/** The package's tests as calls into the model: each scenario runs the
    operations a test runs, on fresh values, and promises what the test
    checks. */
module Scenarios {
  import opened Wrappers
  import opened GoStrings
  import opened Strconv
  import opened Errors
  import opened Schema
  import opened Tags
  import opened Coercion
  import opened Decode
  import opened DecodeFacts
  import opened Fixtures

  /** TestUnmarshal: decoding fixtureFormData into a zero FixtureAddress
      succeeds and sets every field, whatever order the keys come in. */
  method UnmarshalScenario(kvs: seq<Pair>) returns (err: Option<Error>, values: seq<Value>)
    requires Ordering(kvs, FixtureFormData)
    ensures err == None
    ensures values == [Str("1234 Long St."), Str("glenview"), Str("Illinois"), IntVal(60626)]
  {
    var addr := new Record(FixtureAddress);
    AddressZero();
    err := Unmarshal(kvs, Pointer(StructObj(addr)));
    UnmarshalDecoded(kvs);
    values := addr.values;
  }

  /** TestUnmarshalValidator: an empty state and the street "FAIL" give a
      CompoundValidationError holding exactly those two failures, in either
      order; the other fields are still decoded. */
  method UnmarshalValidatorScenario(kvs: seq<Pair>) returns (err: Option<Error>, values: seq<Value>)
    requires Ordering(kvs, ValidatorFormData)
    ensures err.Some? && err.value.Compound? && err.value.c.Len() == 2
    ensures err.value.c.errs == [StreetFail, StateRequired] || err.value.c.errs == [StateRequired, StreetFail]
    ensures values == [Str(""), Str("glenview"), Str(""), IntVal(60626)]
  {
    var addr := new Record(FixtureAddress);
    AddressZero();
    err := Unmarshal(kvs, Pointer(StructObj(addr)));
    ValidatorDecoded(kvs);
    values := addr.values;
  }

  /** TestUnmarshalSetter: a city key without values makes FormSetCity fail,
      and Unmarshal returns that error itself, not a
      CompoundValidationError. */
  method UnmarshalSetterScenario(kvs: seq<Pair>) returns (err: Option<Error>)
    requires Ordering(kvs, SetterFormData)
    ensures err == Some(Failure(CityRequired))
    ensures !err.value.Compound?
  {
    var addr := new Record(FixtureAddress);
    AddressZero();
    err := Unmarshal(kvs, Pointer(StructObj(addr)));
    SetterDecoded(kvs);
  }

  /** TestTags: a FixtureAddress value has four tags, one per field. */
  method TagsScenario() returns (tags: seq<Tag>)
    ensures |tags| == 4
    ensures tags[0].name == "street" && tags[1].name == "city"
    ensures tags[2].name == "state" && tags[3].name == "zip"
  {
    var fa := new Record(FixtureAddress);
    tags := Tags.Tags(Direct(StructObj(fa)));
    AddressNames();
  }

  /** TestAssignToMap: one value is stored under its key; two values do not
      fit a map[string]string, are dropped, and still no error comes back. */
  method AssignToMapScenario() returns (err1: Option<Error>, err2: Option<Error>,
                                        after1: map<string, Value>, after2: map<string, Value>)
    ensures err1 == None && after1 == map["test" := Str("first")]
    ensures err2 == None && after2 == after1
  {
    var m := new StringMap(StringElem);
    err1 := AssignToMap(m, "test", ["first"]);
    after1 := m.entries;
    err2 := AssignToMap(m, "test2", ["first", "second"]);
    after2 := m.entries;
  }

  /** intStruct: one field of each signed integer width. */
  const IntStruct := StructType("intStruct",
    [Field("I", "", IntKind(0)), Field("I8", "", IntKind(8)), Field("I16", "", IntKind(16)),
     Field("I32", "", IntKind(32)), Field("I64", "", IntKind(64))],
    map[])

  /** TestAssignToInt's sources, one per field of intStruct in order. */
  const IntSources := ["64", "8", "16", "32", "64"]

  lemma IntSourcesDecimal()
    ensures forall k :: 0 <= k < 5 ==> Decimal(IntSources[k]) && DigitsValue(IntSources[k]) <= MaxInt64
  {
    assert DigitsValue("64") == 64;
    assert DigitsValue("8") == 8;
    assert DigitsValue("16") == 16;
    assert DigitsValue("32") == 32;
  }

  /** Each source coerces into an int field without error, to a number
      that prints as the source. */
  lemma IntSourceCoerced(k: nat, cur: Value)
    requires k < 5
    ensures var c := IntCoerced(IntSources[k], cur);
      c.err == None && c.value.IntVal? && FormatInt(c.value.i) == IntSources[k]
  {
    IntSourcesDecimal();
    FormatParseInt(IntSources[k]);
  }

  /** One case of TestAssignToInt: assignToInt of the k-th source into the
      k-th field, and that field printed afterwards. */
  method StoreIntSource(ints: Record, k: nat) returns (err: Option<Error>, text: string)
    requires ints.Valid() && ints.ty == IntStruct && k < 5
    modifies ints
    ensures ints.Valid() && ints.ty == IntStruct
    ensures err == None && text == IntSources[k]
  {
    IntSourceCoerced(k, ints.values[k]);
    err := AssignToInt(ints, k, IntSources[k]);
    text := FormatInt(ints.values[k].i);
  }

  /** TestAssignToInt: each source is parsed into its field of a struct
      that held 8 everywhere, without error, and the field then prints as
      the source. */
  method AssignToIntScenario() returns (errs: seq<Option<Error>>, shown: seq<string>)
    ensures errs == [None, None, None, None, None]
    ensures shown == IntSources
  {
    var ints := new Record.Literal(IntStruct, [IntVal(8), IntVal(8), IntVal(8), IntVal(8), IntVal(8)]);
    errs, shown := [], [];
    for k := 0 to 5
      invariant ints.Valid() && ints.ty == IntStruct
      invariant |errs| == k && forall j :: 0 <= j < k ==> errs[j] == None
      invariant shown == IntSources[..k]
    {
      var err, text := StoreIntSource(ints, k);
      errs := errs + [err];
      shown := shown + [text];
    }
  }

  /** AssignmentTestStruct, with `parse` standing in for strconv.ParseFloat
      on its float64 field. It has no methods. */
  function AssignmentTestStruct(parse: string -> Option<real>): (ty: StructType)
    ensures |ty.fields| == 6 && ty.methods == map[]
  {
    StructType("AssignmentTestStruct",
      [Field("FirstName", "first_name", StringKind), Field("LastName", "", StringKind),
       Field("Year", "", UintKind(32)), Field("Speed", "", FloatKind(64, parse)),
       Field("Nicknames", "", StringSliceKind), Field("IsUseless", "", BoolKind)],
      map[])
  }

  /** The keys the fields of AssignmentTestStruct answer to: the tag of
      the tagged field, the declared names of the others. */
  const AssignmentKeys := ["first_name", "LastName", "Year", "Speed", "Nicknames", "IsUseless"]

  /** Each field answers to its key. */
  lemma AssignmentName(parse: string -> Option<real>, k: nat)
    requires k < 6
    ensures ResolvedName(AssignmentTestStruct(parse).fields[k]) == AssignmentKeys[k]
  {
    var f := AssignmentTestStruct(parse).fields[k];
    if k == 0 {
      TaggedName(f);
    } else {
      assert f.tag == "" && f.name == AssignmentKeys[k];
      UntaggedName(f);
    }
  }

  lemma AssignmentKeysDistinct()
    ensures forall k, l :: 0 <= k < l < 6 ==> AssignmentKeys[k] != AssignmentKeys[l]
  {
    assert "Nicknames"[0] != "IsUseless"[0];
  }

  /** Each key reaches its own field. */
  lemma AssignmentFields(parse: string -> Option<real>)
    ensures forall k :: 0 <= k < 6 ==> FindField(AssignmentTestStruct(parse).fields, AssignmentKeys[k]) == Some(k)
  {
    forall k | 0 <= k < 6
      ensures ResolvedName(AssignmentTestStruct(parse).fields[k]) == AssignmentKeys[k]
    {
      AssignmentName(parse, k);
    }
    AssignmentKeysDistinct();
    DistinctNamesFound(AssignmentTestStruct(parse).fields, AssignmentKeys);
  }

  lemma YearParses()
    ensures ParseUint("1999") == Ok(1999)
  {
    assert Digits(1) == "1";
    assert Digits(19) == Digits(1) + "9" == "19";
    assert Digits(199) == Digits(19) + "9" == "199";
    assert Digits(1999) == Digits(199) + "9" == "1999";
    ParseFormatUint(1999);
  }

  /** Submitting `vs` under key number `k`: no error, and the field takes
      `v`, whatever the struct held. */
  ghost predicate AssignsTo(parse: string -> Option<real>, k: nat, vs: seq<string>, v: Value)
    requires k < 6
  {
    forall s: seq<Value> {:trigger StructEffect(AssignmentTestStruct(parse), s, AssignmentKeys[k], vs)} ::
      |s| == 6 ==> StructEffect(AssignmentTestStruct(parse), s, AssignmentKeys[k], vs) == (None, s[k := v])
  }

  /** A key of AssignmentTestStruct with at least one value: no hook runs,
      and the field takes the coerced value. */
  lemma AssignmentStep(parse: string -> Option<real>, k: nat, vs: seq<string>, v: Value)
    requires k < 6 && |vs| > 0
    requires Coerce(AssignmentTestStruct(parse).fields[k].kind, vs, Opaque) == Coerced(None, v)
    ensures AssignsTo(parse, k, vs, v)
  {
    var ty := AssignmentTestStruct(parse);
    AssignmentFields(parse);
    forall s: seq<Value> | |s| == 6
      ensures StructEffect(ty, s, AssignmentKeys[k], vs) == (None, s[k := v])
    {
      NoHooksEffect(ty, s, AssignmentKeys[k], vs, k);
      SuccessIgnoresCurrent(ty.fields[k].kind, vs, s[k]);
    }
  }

  /** TestAssignToStruct's submissions to the string fields. */
  lemma StringAssignments(parse: string -> Option<real>)
    ensures AssignsTo(parse, 0, ["Matt"], Str("Matt"))
    ensures AssignsTo(parse, 1, ["Butcher"], Str("Butcher"))
    ensures AssignsTo(parse, 4, ["John", "Johnny", "Johnboy"], StrList(["John", "Johnny", "Johnboy"]))
  {
    AssignmentStep(parse, 0, ["Matt"], Str("Matt"));
    AssignmentStep(parse, 1, ["Butcher"], Str("Butcher"));
    AssignmentStep(parse, 4, ["John", "Johnny", "Johnboy"], StrList(["John", "Johnny", "Johnboy"]));
  }

  /** TestAssignToStruct's submissions to the number and boolean fields,
      each parsed into the field's kind. */
  lemma ParsedAssignments(parse: string -> Option<real>)
    requires parse("1.23") == Some(1.23)
    ensures AssignsTo(parse, 2, ["1999"], UintVal(1999))
    ensures AssignsTo(parse, 3, ["1.23"], FloatVal(1.23))
    ensures AssignsTo(parse, 5, ["true"], BoolVal(true))
  {
    YearAssigned(parse);
    SpeedAssigned(parse);
    UselessAssigned(parse);
  }

  /** "1999" is stored into Year as the unsigned 1999. */
  lemma YearAssigned(parse: string -> Option<real>)
    ensures AssignsTo(parse, 2, ["1999"], UintVal(1999))
  {
    YearParses();
    AssignmentStep(parse, 2, ["1999"], UintVal(1999));
  }

  /** "1.23" is stored into Speed as read by the float parser. */
  lemma SpeedAssigned(parse: string -> Option<real>)
    requires parse("1.23") == Some(1.23)
    ensures AssignsTo(parse, 3, ["1.23"], FloatVal(1.23))
  {
    AssignmentStep(parse, 3, ["1.23"], FloatVal(1.23));
  }

  /** "true" is stored into IsUseless as true. */
  lemma UselessAssigned(parse: string -> Option<real>)
    ensures AssignsTo(parse, 5, ["true"], BoolVal(true))
  {
    assert "true" in TrueStrings;
    AssignmentStep(parse, 5, ["true"], BoolVal(true));
  }

  /** Six updates, one per field, in TestAssignToStruct's order. */
  lemma SixUpdates(s: seq<Value>, a: Value, b: Value, c: Value, d: Value, e: Value, f: Value)
    requires |s| == 6
    ensures s[0 := a][1 := b][2 := c][3 := d][5 := f][4 := e] == [a, b, c, d, e, f]
  {
  }

  /** TestAssignToStruct: six keys, each reaching its field by tag or by
      name, each coerced without error to the field's kind. */
  method AssignToStructScenario(parse: string -> Option<real>) returns (errs: seq<Option<Error>>, values: seq<Value>)
    requires parse("1.23") == Some(1.23)
    ensures errs == [None, None, None, None, None, None]
    ensures values == [Str("Matt"), Str("Butcher"), UintVal(1999), FloatVal(1.23),
                       StrList(["John", "Johnny", "Johnboy"]), BoolVal(true)]
  {
    var ats := new Record(AssignmentTestStruct(parse));
    StringAssignments(parse);
    ParsedAssignments(parse);
    assert AssignmentKeys[0] == "first_name" && AssignmentKeys[1] == "LastName" && AssignmentKeys[2] == "Year";
    assert AssignmentKeys[3] == "Speed" && AssignmentKeys[4] == "Nicknames" && AssignmentKeys[5] == "IsUseless";
    ghost var s0 := ats.values;
    var e1 := AssignToStruct(ats, "first_name", ["Matt"]);
    ghost var s1 := ats.values;
    assert (e1, s1) == (None, s0[0 := Str("Matt")]);
    var e2 := AssignToStruct(ats, "LastName", ["Butcher"]);
    ghost var s2 := ats.values;
    assert (e2, s2) == (None, s1[1 := Str("Butcher")]);
    var e3 := AssignToStruct(ats, "Year", ["1999"]);
    ghost var s3 := ats.values;
    assert (e3, s3) == (None, s2[2 := UintVal(1999)]);
    var e4 := AssignToStruct(ats, "Speed", ["1.23"]);
    ghost var s4 := ats.values;
    assert (e4, s4) == (None, s3[3 := FloatVal(1.23)]);
    var e5 := AssignToStruct(ats, "IsUseless", ["true"]);
    ghost var s5 := ats.values;
    assert (e5, s5) == (None, s4[5 := BoolVal(true)]);
    var e6 := AssignToStruct(ats, "Nicknames", ["John", "Johnny", "Johnboy"]);
    assert (e6, ats.values) == (None, s5[4 := StrList(["John", "Johnny", "Johnboy"])]);
    SixUpdates(s0, Str("Matt"), Str("Butcher"), UintVal(1999), FloatVal(1.23),
               StrList(["John", "Johnny", "Johnboy"]), BoolVal(true));
    errs := [e1, e2, e3, e4, e5, e6];
    values := ats.values;
  }

  /** The later segments of TestParseTag's two longest tags. */
  const TreeTail := ["prefix=pre_", "suffix=suf_", "omitempty"]

  /** A string does not start with a prefix whose first character differs. */
  lemma FirstCharDiffers(str: string, prefix: string)
    requires |str| > 0 && |prefix| > 0 && str[0] != prefix[0]
    ensures !HasPrefix(str, prefix)
  {
    if |prefix| <= |str| {
      assert str[..|prefix|][0] != prefix[0];
    }
  }

  lemma TreeTailMarks()
    ensures LastMarked(TreeTail, "prefix=") == "pre_"
    ensures LastMarked(TreeTail, "suffix=") == "suf_"
    ensures "omitempty" in TreeTail
  {
    FirstCharDiffers("omitempty", "prefix=");
    FirstCharDiffers("omitempty", "suffix=");
    FirstCharDiffers("suffix=suf_", "prefix=");
    FirstCharDiffers("prefix=pre_", "suffix=");
    assert "suffix=suf_"[..7] == "suffix=";
    assert "prefix=pre_"[..7] == "prefix=";
    assert TrimPrefix("suffix=suf_", "suffix=") == "suf_";
    assert TrimPrefix("prefix=pre_", "prefix=") == "pre_";
    assert TreeTail[..2] == ["prefix=pre_", "suffix=suf_"];
    assert TreeTail[..2][..1] == ["prefix=pre_"];
  }

  lemma OmitJoin()
    ensures Join(["first_name", "omitempty"], ",") == "first_name,omitempty"
  {
  }

  lemma OmitSegments()
    ensures TagOf(Join(["first_name", "omitempty"], ",")) == Tag("first_name", "", "", true, false, false)
  {
    assert ["first_name"] + ["omitempty"] == ["first_name", "omitempty"];
    TagOfJoin(["first_name", "omitempty"]);
    SegmentsTagFields("first_name", ["omitempty"]);
    FirstCharDiffers("omitempty", "prefix=");
    FirstCharDiffers("omitempty", "suffix=");
  }

  lemma OmitTag()
    ensures TagOf("first_name,omitempty") == Tag("first_name", "", "", true, false, false)
  {
    OmitJoin();
    OmitSegments();
  }

  lemma IgnoreTag()
    ensures TagOf("-") == Tag("", "", "", false, true, false)
  {
  }

  lemma TailJoin()
    ensures Join(TreeTail, ",") == "prefix=pre_,suffix=suf_,omitempty"
  {
    assert TreeTail[1..] == ["suffix=suf_", "omitempty"];
    assert Join(TreeTail[1..], ",") == "suffix=suf_,omitempty";
  }

  /** TestParseTag's tree tag: its name, a comma, and the tail segments. */
  lemma TreeText()
    ensures "name" + "," + "prefix=pre_,suffix=suf_,omitempty" == "name,prefix=pre_,suffix=suf_,omitempty"
  {
    var head, tail, whole := "name,", "prefix=pre_,suffix=suf_,omitempty", "name,prefix=pre_,suffix=suf_,omitempty";
    assert "name" + "," == head;
    assert whole[..5] == head;
    assert whole[5..] == tail;
    assert head + tail == whole[..5] + whole[5..];
  }

  /** TestParseTag's group tag: "+", a comma, and the tail segments. */
  lemma GroupText()
    ensures "+" + "," + "prefix=pre_,suffix=suf_,omitempty" == "+,prefix=pre_,suffix=suf_,omitempty"
  {
    var head, tail, whole := "+,", "prefix=pre_,suffix=suf_,omitempty", "+,prefix=pre_,suffix=suf_,omitempty";
    assert "+" + "," == head;
    assert whole[..2] == head;
    assert whole[2..] == tail;
    assert head + tail == whole[..2] + whole[2..];
  }

  lemma TreeJoin()
    ensures Join(["name"] + TreeTail, ",") == "name,prefix=pre_,suffix=suf_,omitempty"
  {
    assert (["name"] + TreeTail)[1..] == TreeTail;
    TailJoin();
    TreeText();
  }

  lemma GroupJoin()
    ensures Join(["+"] + TreeTail, ",") == "+,prefix=pre_,suffix=suf_,omitempty"
  {
    assert (["+"] + TreeTail)[1..] == TreeTail;
    TailJoin();
    GroupText();
  }

  lemma TreeSegments(first: string)
    requires first == "name" || first == "+"
    ensures TagOf(Join([first] + TreeTail, ",")) ==
      Tag(if first == "+" then "" else first, "pre_", "suf_", true, false, first == "+")
  {
    TagOfJoin([first] + TreeTail);
    SegmentsTagFields(first, TreeTail);
    TreeTailMarks();
  }

  lemma TreeTag()
    ensures TagOf("name,prefix=pre_,suffix=suf_,omitempty") == Tag("name", "pre_", "suf_", true, false, false)
  {
    TreeJoin();
    TreeSegments("name");
  }

  lemma GroupTag()
    ensures TagOf("+,prefix=pre_,suffix=suf_,omitempty") == Tag("", "pre_", "suf_", true, false, true)
  {
    GroupJoin();
    TreeSegments("+");
  }

  /** TestParseTag's five tags. */
  method ParseTagScenario() returns (plain: Tag, omitted: Tag, ignored: Tag, tree: Tag, group: Tag)
    ensures plain == Tag("first_name", "", "", false, false, false)
    ensures omitted == Tag("first_name", "", "", true, false, false)
    ensures ignored == Tag("", "", "", false, true, false)
    ensures tree == Tag("name", "pre_", "suf_", true, false, false)
    ensures group == Tag("", "pre_", "suf_", true, false, true)
  {
    plain := ParseTag("first_name");
    TagOfName("first_name");
    omitted := ParseTag("first_name,omitempty");
    OmitTag();
    ignored := ParseTag("-");
    IgnoreTag();
    tree := ParseTag("name,prefix=pre_,suffix=suf_,omitempty");
    TreeTag();
    GroupTag();
    group := ParseTag("+,prefix=pre_,suffix=suf_,omitempty");
  }
}
