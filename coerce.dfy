/** Built-in coercion: converting the submitted strings to a field's kind
    and storing the result in the field (empty, assignToStructField,
    assignToInt, assignToUint). */
module Coercion {
  import opened Wrappers
  import opened Strconv
  import opened Errors
  import opened Schema

  /** empty: no value, or a single empty value. */
  function Empty(v: seq<string>): (b: bool)
    ensures b <==> |v| == 0 || (|v| == 1 && v[0] == "")
  {
    if |v| == 0 then true else |v| == 1 && |v[0]| == 0
  }

  /** The text a numeric field is parsed from. */
  function NumericText(v: seq<string>): (text: string)
    ensures Empty(v) ==> text == "0"
    ensures !Empty(v) ==> text == v[0]
  {
    if Empty(v) then "0" else v[0]
  }

  const IndexPanic := "runtime error: index out of range [0] with length 0"
  const OnlyStringSlices := "Only string slices are supported."
  const UnsupportedKind := "Unsupported kind"

  /** The error a coercion reports and the value the field holds after it. */
  datatype Coerced = Coerced(err: Option<Error>, value: Value)

  /** The outcome of assignToInt on a field holding `cur`. */
  function IntCoerced(text: string, cur: Value): (c: Coerced)
    ensures c.err.None? <==> ParseInt(text).Ok?
    ensures c.err.None? ==> c.value == IntVal(SignedValue(text))
    ensures c.err.Some? ==>
      c.value == cur && c.err.value.NumError? && c.err.value.num == text && c.err.value.reason == ParseInt(text).error
  {
    match ParseInt(text)
    case Ok(n) => Coerced(None, IntVal(n))
    case Err(r) => Coerced(Some(NumError("ParseInt", text, r)), cur)
  }

  /** The outcome of assignToUint on a field holding `cur`. */
  function UintCoerced(text: string, cur: Value): (c: Coerced)
    ensures c.err.None? <==> ParseUint(text).Ok?
    ensures c.err.None? ==> c.value == UintVal(DigitsValue(text))
    ensures c.err.Some? ==>
      c.value == cur && c.err.value.NumError? && c.err.value.num == text && c.err.value.reason == ParseUint(text).error
  {
    match ParseUint(text)
    case Ok(n) => Coerced(None, UintVal(n))
    case Err(r) => Coerced(Some(NumError("ParseUint", text, r)), cur)
  }

  /** The outcome of assignToStructField on a field of kind `k` holding
      `cur`. Indexing the first value of an empty list panics. */
  function Coerce(k: Kind, vs: seq<string>, cur: Value): (c: Coerced)
    ensures c.err.None? || c.value == cur || (k.BoolKind? && c.value == BoolVal(false))
    ensures (c.err.Some? && c.err.value.Panic?) <==> (k.StringKind? || k.BoolKind?) && |vs| == 0
  {
    match k
    case StringKind =>
      if |vs| == 0 then Coerced(Some(Panic(IndexPanic)), cur) else Coerced(None, Str(vs[0]))
    case IntKind(_) => IntCoerced(NumericText(vs), cur)
    case UintKind(_) => UintCoerced(NumericText(vs), cur)
    case FloatKind(_, parse) =>
      var text := NumericText(vs);
      (match parse(text)
       case Some(x) => Coerced(None, FloatVal(x))
       case None => Coerced(Some(NumError("ParseFloat", text, Syntax)), cur))
    case BoolKind =>
      if |vs| == 0 then Coerced(Some(Panic(IndexPanic)), cur)
      else
        (match ParseBool(vs[0])
         case Ok(b) => Coerced(None, BoolVal(b))
         case Err(r) => Coerced(Some(NumError("ParseBool", vs[0], r)), BoolVal(false)))
    case StringSliceKind => Coerced(None, StrList(vs))
    case SliceKind => Coerced(Some(Failure(OnlyStringSlices)), cur)
    case OtherKind => Coerced(Some(Failure(UnsupportedKind)), cur)
  }

  /** assignToInt: parse `text` and store it in the integer field `i`. */
  method AssignToInt(rec: Record, i: nat, text: string) returns (err: Option<Error>)
    requires rec.Valid() && i < |rec.ty.fields| && rec.ty.fields[i].kind.IntKind?
    modifies rec
    ensures rec.Valid()
    ensures var c := IntCoerced(text, old(rec.values[i]));
      err == c.err && rec.values == old(rec.values)[i := c.value]
  {
    var r := ParseInt(text);
    if r.Err? {
      return Some(NumError("ParseInt", text, r.error));
    }
    rec.values := rec.values[i := IntVal(r.value)];
    return None;
  }

  /** assignToUint: parse `text` and store it in the unsigned field `i`. */
  method AssignToUint(rec: Record, i: nat, text: string) returns (err: Option<Error>)
    requires rec.Valid() && i < |rec.ty.fields| && rec.ty.fields[i].kind.UintKind?
    modifies rec
    ensures rec.Valid()
    ensures var c := UintCoerced(text, old(rec.values[i]));
      err == c.err && rec.values == old(rec.values)[i := c.value]
  {
    var r := ParseUint(text);
    if r.Err? {
      return Some(NumError("ParseUint", text, r.error));
    }
    rec.values := rec.values[i := UintVal(r.value)];
    return None;
  }

  /** assignToStructField: convert `vs` to the kind of field `i` and store
      it there. */
  method AssignToStructField(rec: Record, i: nat, vs: seq<string>) returns (err: Option<Error>)
    requires rec.Valid() && i < |rec.ty.fields|
    modifies rec
    ensures rec.Valid()
    ensures var c := Coerce(rec.ty.fields[i].kind, vs, old(rec.values[i]));
      err == c.err && rec.values == old(rec.values)[i := c.value]
  {
    var k := rec.ty.fields[i].kind;
    match k {
      case StringKind =>
        if |vs| == 0 {
          return Some(Panic(IndexPanic));
        }
        rec.values := rec.values[i := Str(vs[0])];
        return None;
      case IntKind(_) =>
        var text := if !Empty(vs) then vs[0] else "0";
        err := AssignToInt(rec, i, text);
      case UintKind(_) =>
        var text := if !Empty(vs) then vs[0] else "0";
        err := AssignToUint(rec, i, text);
      case FloatKind(_, parse) =>
        var text := if !Empty(vs) then vs[0] else "0";
        var x := parse(text);
        if x.None? {
          return Some(NumError("ParseFloat", text, Syntax));
        }
        rec.values := rec.values[i := FloatVal(x.value)];
        return None;
      case BoolKind =>
        if |vs| == 0 {
          return Some(Panic(IndexPanic));
        }
        var b := ParseBool(vs[0]);
        rec.values := rec.values[i := BoolVal(b.Ok? && b.value)];
        return if b.Ok? then None else Some(NumError("ParseBool", vs[0], b.error));
      case StringSliceKind =>
        rec.values := rec.values[i := StrList(vs)];
        return None;
      case SliceKind =>
        return Some(Failure(OnlyStringSlices));
      case OtherKind =>
        return Some(Failure(UnsupportedKind));
    }
  }

  /** A coercion that succeeds stores a value that does not depend on what
      the field held before. */
  lemma SuccessIgnoresCurrent(k: Kind, vs: seq<string>, cur: Value)
    ensures Coerce(k, vs, Opaque).err == None ==> Coerce(k, vs, cur) == Coerce(k, vs, Opaque)
  {
  }

  /** The zero value a numeric kind takes from an empty submission. */
  function NumericZero(k: Kind): Value
    requires k.IntKind? || k.UintKind?
  {
    if k.IntKind? then IntVal(0) else UintVal(0)
  }

  /** Integer and unsigned fields parse "0" for an empty submission and the
      first value otherwise; a failed parse reports the error and keeps the
      field, a successful one stores the number. */
  lemma NumericCoercion(k: Kind, vs: seq<string>, cur: Value)
    requires k.IntKind? || k.UintKind?
    ensures Empty(vs) ==> Coerce(k, vs, cur) == Coerced(None, NumericZero(k))
    ensures var c := Coerce(k, vs, cur);
      c.err.Some? ==> c.err.value.NumError? && c.err.value.num == NumericText(vs) && c.value == cur
    ensures k.IntKind? && !Empty(vs) ==>
      (Coerce(k, vs, cur).err == None <==> ParseInt(vs[0]).Ok?) &&
      (ParseInt(vs[0]).Ok? ==> Coerce(k, vs, cur).value == IntVal(ParseInt(vs[0]).value))
    ensures k.UintKind? && !Empty(vs) ==>
      (Coerce(k, vs, cur).err == None <==> ParseUint(vs[0]).Ok?) &&
      (ParseUint(vs[0]).Ok? ==> Coerce(k, vs, cur).value == UintVal(ParseUint(vs[0]).value))
  {
    ParseFormatInt(0);
    ParseFormatUint(0);
  }

  /** A bool field is set even when parsing fails, and then holds false. */
  lemma BoolCoercion(vs: seq<string>, cur: Value)
    requires |vs| > 0
    ensures var c := Coerce(BoolKind, vs, cur);
      c.value == BoolVal(ParseBool(vs[0]).Ok? && ParseBool(vs[0]).value) &&
      (c.err.Some? <==> ParseBool(vs[0]).Err?)
  {
  }

  /** A string or bool field needs a first value; without one nothing is
      stored and the coercion panics. */
  lemma FirstValueRequired(k: Kind, cur: Value)
    requires k.StringKind? || k.BoolKind?
    ensures Coerce(k, [], cur) == Coerced(Some(Panic(IndexPanic)), cur)
  {
  }

  /** Slices other than []string and unsupported kinds report an error and
      leave the field as it was. */
  lemma UnsupportedKinds(k: Kind, vs: seq<string>, cur: Value)
    requires k.SliceKind? || k.OtherKind?
    ensures var c := Coerce(k, vs, cur); c.err.Some? && c.err.value.Failure? && c.value == cur
  {
  }

  /** The submission a value of the given kind is written back as. */
  function Encode(k: Kind, v: Value): seq<string>
  {
    match v
    case Str(s) => [s]
    case IntVal(n) => [FormatInt(n)]
    case UintVal(n) => [FormatUint(n)]
    case BoolVal(b) => [FormatBool(b)]
    case StrList(ss) => ss
    case _ => []
  }

  /** The values each supported non-float kind can hold. */
  predicate Fits(k: Kind, v: Value)
  {
    match k
    case StringKind => v.Str?
    case IntKind(_) => v.IntVal? && MinInt64 <= v.i <= MaxInt64
    case UintKind(_) => v.UintVal? && v.n <= MaxUint64
    case BoolKind => v.BoolVal?
    case StringSliceKind => v.StrList?
    case _ => false
  }

  /** Round trip: a value written back as its canonical submission is
      coerced to itself, without error, whatever the field held before. */
  lemma CoerceRoundTrip(k: Kind, v: Value, cur: Value)
    requires Fits(k, v)
    ensures Coerce(k, Encode(k, v), cur) == Coerced(None, v)
  {
    match k
    case IntKind(_) =>
      ParseFormatInt(v.i);
      assert Digits(if v.i < 0 then -v.i else v.i) != "";
    case UintKind(_) =>
      ParseFormatUint(v.n);
    case BoolKind =>
      ParseFormatBool(v.b);
    case _ =>
  }
}
