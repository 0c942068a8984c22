/** An explicit description of the Go values the decoder inspects through
    reflection: struct types with their declared fields, `form` tags and
    methods, the struct values themselves, string-keyed maps, and the
    `interface{}` argument handed to the decoder. */
module Schema {
  import opened Wrappers
  import opened Errors

  /** The reflect.Kind of a field, as far as assignToStructField tells kinds
      apart. Floating-point parsing is outside the model: a float field
      carries the parser that stands in for strconv.ParseFloat. */
  datatype Kind =
    | StringKind
    | IntKind(bits: nat)        // int (bits 0), int8 ... int64
    | UintKind(bits: nat)       // uint (bits 0), uint8 ... uint64
    | FloatKind(bits: nat, parse: string -> Option<real>)
    | BoolKind
    | StringSliceKind           // []string
    | SliceKind                 // a slice of any other element type
    | OtherKind                 // struct, map, pointer, ...

  /** The value held by a field. */
  datatype Value =
    | Str(s: string)
    | IntVal(i: int)
    | UintVal(n: nat)
    | FloatVal(x: real)
    | BoolVal(b: bool)
    | StrList(ss: seq<string>)
    | Opaque                    // a value of a kind the decoder never sets

  /** Go's zero value of a kind. */
  function Zero(k: Kind): Value
  {
    match k
    case StringKind => Str("")
    case IntKind(_) => IntVal(0)
    case UintKind(_) => UintVal(0)
    case FloatKind(_, _) => FloatVal(0.0)
    case BoolKind => BoolVal(false)
    case StringSliceKind => StrList([])
    case _ => Opaque
  }

  /** A declared struct field: its identifier, the value of the `form` key of
      its struct tag ("" when there is none) and its kind. */
  datatype Field = Field(name: string, tag: string, kind: Kind)

  /** What a method called through reflection hands back: its error result
      (nil is None) and the fields it assigned on its receiver, by index. */
  datatype HookResult = HookResult(err: Option<Error>, writes: map<nat, Value>)

  /** A method with signature `func(vs []string) <error type>` on the pointer
      receiver: it sees the submitted values and the receiver's fields. */
  type Hook = (seq<string>, seq<Value>) -> HookResult

  /** A struct type: its name, its declared fields in order and its method
      set by method name. */
  datatype StructType = StructType(name: string, fields: seq<Field>, methods: map<string, Hook>)

  function ZeroValues(fields: seq<Field>): (vs: seq<Value>)
    ensures |vs| == |fields|
    ensures forall i :: 0 <= i < |fields| ==> vs[i] == Zero(fields[i].kind)
  {
    seq(|fields|, i requires 0 <= i < |fields| => Zero(fields[i].kind))
  }

  /** The fields after the assignments in `w`; indexes outside the struct
      name no field and are dropped. */
  function ApplyWrites(s: seq<Value>, w: map<nat, Value>): (r: seq<Value>)
    ensures |r| == |s|
    ensures forall i :: 0 <= i < |s| ==> r[i] == if i in w then w[i] else s[i]
    ensures w == map[] ==> r == s
  {
    seq(|s|, i requires 0 <= i < |s| => if i in w then w[i] else s[i])
  }

  /** An addressable struct value whose fields the decoder sets in place. */
  class Record {
    const ty: StructType
    var values: seq<Value>

    ghost predicate Valid()
      reads this
    {
      |values| == |ty.fields|
    }

    /** A zero-valued struct, as `&T{}` gives. */
    constructor (ty: StructType)
      ensures Valid() && this.ty == ty && values == ZeroValues(ty.fields)
    {
      this.ty := ty;
      values := ZeroValues(ty.fields);
    }

    /** A struct with the given field values, as a composite literal gives. */
    constructor Literal(ty: StructType, values: seq<Value>)
      requires |values| == |ty.fields|
      ensures Valid() && this.ty == ty && this.values == values
    {
      this.ty := ty;
      this.values := values;
    }
  }

  /** The element type of a string-keyed map. */
  datatype MapElem =
    | StringElem   // map[string]string
    | StringsElem  // map[string][]string
    | AnyElem      // map[string]interface{}
    | OtherElem    // map[string]T for any other T

  /** A string-keyed map that the decoder updates in place. */
  class StringMap {
    const elem: MapElem
    var entries: map<string, Value>

    /** An empty map, as `map[string]T{}` gives. */
    constructor (elem: MapElem)
      ensures this.elem == elem && entries == map[]
    {
      this.elem := elem;
      entries := map[];
    }
  }

  /** What a pointer points to, or what is passed by value. */
  datatype Pointee =
    | StructObj(rec: Record)
    | MapObj(m: StringMap)
    | OtherObj(typeName: string)

  /** The `interface{}` handed to the decoder. `Pointer` is a non-nil
      pointer; `Direct` passes the value itself (a struct passed this way
      stands for an addressable reflect.Value, as reflect.Indirect gives). */
  datatype Target =
    | Pointer(to: Pointee)
    | NilPointer
    | Direct(v: Pointee)

  /** The objects the decoder may update through a target: the struct it
      designates, or a map passed by value. */
  function Footprint(t: Target): set<object>
  {
    match t
    case Pointer(StructObj(r)) => {r}
    case Direct(StructObj(r)) => {r}
    case Direct(MapObj(m)) => {m}
    case _ => {}
  }

  ghost predicate TargetValid(t: Target)
    reads Footprint(t)
  {
    match t
    case Pointer(StructObj(r)) => r.Valid()
    case Direct(StructObj(r)) => r.Valid()
    case _ => true
  }

  /** Whether the target is, or points to, a struct. */
  predicate IsStruct(o: Target)
  {
    (o.Pointer? && o.to.StructObj?) || (o.Direct? && o.v.StructObj?)
  }

  function StructOf(o: Target): Record
    requires IsStruct(o)
  {
    if o.Pointer? then o.to.rec else o.v.rec
  }
}
