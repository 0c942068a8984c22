/** The `form` tag parser and the field resolver: which field an input key
    names. */
module Tags {
  import opened Wrappers
  import opened GoStrings
  import opened Schema

  /** A parsed `form` tag. Group, Prefix and Suffix are parsed but have no
      effect on decoding. */
  datatype Tag = Tag(name: string, prefix: string, suffix: string,
                     omit: bool, ignore: bool, group: bool)

  const ZeroTag := Tag("", "", "", false, false, false)

  /** What the last segment that starts with `marker` carries after the
      marker; "" when no segment starts with it. */
  function LastMarked(segs: seq<string>, marker: string): string
  {
    if segs == [] then ""
    else if HasPrefix(segs[|segs| - 1], marker) then TrimPrefix(segs[|segs| - 1], marker)
    else LastMarked(segs[..|segs| - 1], marker)
  }

  /** No segment with the marker leaves the field empty. */
  lemma {:induction false} NoMarkerNoValue(segs: seq<string>, marker: string)
    requires forall j :: 0 <= j < |segs| ==> !HasPrefix(segs[j], marker)
    ensures LastMarked(segs, marker) == ""
  {
    if segs != [] {
      var init := segs[..|segs| - 1];
      forall j | 0 <= j < |init|
        ensures !HasPrefix(init[j], marker)
      {
        assert init[j] == segs[j];
      }
      NoMarkerNoValue(init, marker);
    }
  }

  /** The last segment with the marker wins. */
  lemma {:induction false} LastOccurrenceWins(segs: seq<string>, marker: string, j: nat)
    requires j < |segs| && HasPrefix(segs[j], marker)
    requires forall k :: j < k < |segs| ==> !HasPrefix(segs[k], marker)
    ensures LastMarked(segs, marker) == TrimPrefix(segs[j], marker)
  {
    var n := |segs| - 1;
    if j < n {
      var init := segs[..n];
      assert init[j] == segs[j];
      forall k | j < k < n
        ensures !HasPrefix(init[k], marker)
      {
        assert init[k] == segs[k];
      }
      LastOccurrenceWins(init, marker, j);
    }
  }

  /** The tag a `form` tag string describes: the first comma-separated
      segment is "-" (ignore), "+" (group) or the name; each later segment
      is "omitempty", "prefix=X", "suffix=X" or is ignored. A string without
      a comma is its own single segment. */
  function TagOf(str: string): (t: Tag)
    ensures !(t.ignore && t.group)
    ensures (t.ignore || t.group) ==> t.name == ""
  {
    SegmentsTag(if ',' in str then Split(str, ',') else [str])
  }

  /** The tag read off its segments; a single empty segment is no tag. */
  function SegmentsTag(parts: seq<string>): (t: Tag)
    requires |parts| >= 1
    ensures !(t.ignore && t.group)
    ensures (t.ignore || t.group) ==> t.name == ""
  {
    if |parts| == 1 && parts[0] == "" then ZeroTag
    else
      var first, rest := parts[0], parts[1..];
      Tag(name := if first == "+" || first == "-" then "" else first,
          prefix := LastMarked(rest, "prefix="),
          suffix := LastMarked(rest, "suffix="),
          omit := "omitempty" in rest,
          ignore := first == "-",
          group := first == "+")
  }

  /** parseTag: builds the tag segment by segment. */
  method ParseTag(str: string) returns (t: Tag)
    ensures t == TagOf(str)
  {
    if ',' !in str {
      SplitNoSep(str, ',');
    }
    var parts := Split(str, ',');
    if |parts| == 1 && parts[0] == "" {
      return ZeroTag;
    }
    t := ZeroTag;
    var n := parts[0];
    if n == "+" {
      t := t.(group := true);
    } else if n == "-" {
      t := t.(ignore := true);
    } else {
      t := t.(name := n);
    }
    var rest := parts[1..];
    for i := 0 to |rest|
      invariant t.name == (if n == "+" || n == "-" then "" else n)
      invariant t.ignore == (n == "-") && t.group == (n == "+")
      invariant t.omit == ("omitempty" in rest[..i])
      invariant t.prefix == LastMarked(rest[..i], "prefix=")
      invariant t.suffix == LastMarked(rest[..i], "suffix=")
    {
      var p := rest[i];
      assert rest[..i + 1] == rest[..i] + [p];
      LastMarkedSnoc(rest[..i], p, "prefix=");
      LastMarkedSnoc(rest[..i], p, "suffix=");
      MarkersExclusive(p);
      if p == "omitempty" {
        t := t.(omit := true);
      } else if HasPrefix(p, "prefix=") {
        t := t.(prefix := TrimPrefix(p, "prefix="));
      } else if HasPrefix(p, "suffix=") {
        t := t.(suffix := TrimPrefix(p, "suffix="));
      }
    }
    assert rest[..|rest|] == rest;
  }

  lemma LastMarkedSnoc(segs: seq<string>, p: string, marker: string)
    ensures LastMarked(segs + [p], marker)
            == if HasPrefix(p, marker) then TrimPrefix(p, marker) else LastMarked(segs, marker)
  {
    assert (segs + [p])[..|segs|] == segs;
  }

  /** A segment is at most one of "omitempty", "prefix=..." and "suffix=...". */
  lemma MarkersExclusive(p: string)
    ensures p == "omitempty" ==> !HasPrefix(p, "prefix=") && !HasPrefix(p, "suffix=")
    ensures HasPrefix(p, "prefix=") ==> !HasPrefix(p, "suffix=")
  {
    if HasPrefix(p, "prefix=") {
      assert p[0] == "prefix="[0];
    }
  }

  /** The tag with the declared field name filled in when the tag neither
      ignores the field nor names it. */
  function Resolve(t: Tag, declared: string): (r: Tag)
    ensures r.(name := t.name) == t
    ensures r.name == if !t.ignore && t.name == "" then declared else t.name
  {
    if !t.ignore && t.name == "" then t.(name := declared) else t
  }

  /** The key a field answers to. */
  function ResolvedName(f: Field): string
  {
    Resolve(TagOf(f.tag), f.name).name
  }

  /** An untagged field answers to its declared name. */
  lemma UntaggedName(f: Field)
    requires f.tag == ""
    ensures ResolvedName(f) == f.name
  {
    TagOfEmpty();
  }

  /** A field tagged with a plain name answers to that name. */
  lemma TaggedName(f: Field)
    requires ',' !in f.tag && f.tag != "" && f.tag != "-" && f.tag != "+"
    ensures ResolvedName(f) == f.tag
  {
    TagOfName(f.tag);
  }

  /** The first field, in declaration order, that answers to `key`. */
  function FindField(fields: seq<Field>, key: string): (r: Option<nat>)
    ensures r.Some? ==> r.value < |fields| && ResolvedName(fields[r.value]) == key
    ensures r.Some? ==> forall j :: 0 <= j < r.value ==> ResolvedName(fields[j]) != key
    ensures r.None? <==> forall j :: 0 <= j < |fields| ==> ResolvedName(fields[j]) != key
  {
    if |fields| == 0 then None
    else if ResolvedName(fields[0]) == key then Some(0)
    else match FindField(fields[1..], key)
      case None => None
      case Some(k) => Some(k + 1)
  }

  /** FindField picks field `i` exactly when it is the first field that
      answers to `key`. */
  lemma FindFirst(fields: seq<Field>, key: string, i: nat)
    ensures FindField(fields, key) == Some(i) <==>
      i < |fields| && ResolvedName(fields[i]) == key &&
      forall j :: 0 <= j < i ==> ResolvedName(fields[j]) != key
  {
    var r := FindField(fields, key);
    if i < |fields| && ResolvedName(fields[i]) == key && forall j :: 0 <= j < i ==> ResolvedName(fields[j]) != key {
      assert r.Some?;
      assert !(r.value < i) && !(i < r.value);
    }
  }

  /** Fields that answer to pairwise different keys are each found by
      their own key. */
  lemma DistinctNamesFound(fields: seq<Field>, keys: seq<string>)
    requires |fields| == |keys|
    requires forall k :: 0 <= k < |fields| ==> ResolvedName(fields[k]) == keys[k]
    requires forall k, l :: 0 <= k < l < |keys| ==> keys[k] != keys[l]
    ensures forall k :: 0 <= k < |keys| ==> FindField(fields, keys[k]) == Some(k)
  {
    forall k | 0 <= k < |keys|
      ensures FindField(fields, keys[k]) == Some(k)
    {
      FindFirst(fields, keys[k], k);
    }
  }

  /** Tags: one resolved tag per declared field of the struct that `o` is or
      points to, and none for anything else. A nil pointer makes Go panic. */
  method Tags(o: Target) returns (tags: seq<Tag>)
    requires !o.NilPointer?
    ensures !IsStruct(o) ==> tags == []
    ensures IsStruct(o) ==>
      var fields := StructOf(o).ty.fields;
      |tags| == |fields| &&
      forall i :: 0 <= i < |fields| ==> tags[i] == Resolve(TagOf(fields[i].tag), fields[i].name)
  {
    if !IsStruct(o) {
      return [];
    }
    var fields := StructOf(o).ty.fields;
    tags := [];
    for i := 0 to |fields|
      invariant |tags| == i
      invariant forall j :: 0 <= j < i ==> tags[j] == Resolve(TagOf(fields[j].tag), fields[j].name)
    {
      var tag := ParseTag(fields[i].tag);
      if !tag.ignore && tag.name == "" {
        tag := tag.(name := fields[i].name);
      }
      tags := tags + [tag];
    }
  }

  /** A tag string of one segment that is a plain name. */
  lemma TagOfName(n: string)
    requires ',' !in n && n != "" && n != "-" && n != "+"
    ensures TagOf(n) == Tag(n, "", "", false, false, false)
  {
  }

  /** An absent tag: the field answers to its declared name. */
  lemma TagOfEmpty()
    ensures TagOf("") == ZeroTag
  {
  }

  /** Comma-joined segments without commas split back into those segments. */
  lemma TagOfJoin(parts: seq<string>)
    requires |parts| >= 1
    requires forall i :: 0 <= i < |parts| ==> ',' !in parts[i]
    ensures TagOf(Join(parts, ",")) == SegmentsTag(parts)
  {
    var str := Join(parts, ",");
    SplitJoin(parts, ',');
    if |parts| > 1 {
      assert str == parts[0] + "," + Join(parts[1..], ",");
      assert str[|parts[0]|] == ',';
    } else {
      assert str == parts[0];
    }
  }

  /** The tag of a first segment and later ones, field by field. */
  lemma SegmentsTagFields(first: string, later: seq<string>)
    ensures var t := SegmentsTag([first] + later);
      if first == "" && later == [] then t == ZeroTag
      else
        && t.ignore == (first == "-") && t.group == (first == "+")
        && t.name == (if first == "-" || first == "+" then "" else first)
        && t.omit == ("omitempty" in later)
        && t.prefix == LastMarked(later, "prefix=")
        && t.suffix == LastMarked(later, "suffix=")
  {
    var parts := [first] + later;
    assert parts[0] == first && parts[1..] == later;
    if first == "" && later == [] {
      assert parts == [""];
    } else {
      assert !(|parts| == 1 && parts[0] == "");
    }
  }

  /** An ignored field answers to no key but "": no non-empty key reaches
      it. */
  lemma IgnoredFieldUnreachable(fields: seq<Field>, key: string, i: nat)
    requires i < |fields| && TagOf(fields[i].tag).ignore && key != ""
    ensures FindField(fields, key) != Some(i)
  {
  }

  /** The empty key does reach an ignored field, when no earlier field
      answers to "": the field's name stays empty and equals the key. */
  lemma EmptyKeyReachesIgnored(fields: seq<Field>, i: nat)
    requires i < |fields| && TagOf(fields[i].tag).ignore
    requires forall j :: 0 <= j < i ==> ResolvedName(fields[j]) != ""
    ensures FindField(fields, "") == Some(i)
  {
    FindFirst(fields, "", i);
  }

  /** A later segment that is neither "omitempty" nor marked changes
      nothing. */
  lemma UnknownSegmentIgnored(parts: seq<string>, p: string)
    requires |parts| >= 1
    requires p != "omitempty" && !HasPrefix(p, "prefix=") && !HasPrefix(p, "suffix=")
    ensures SegmentsTag(parts + [p]) == SegmentsTag(parts)
  {
    var q := parts + [p];
    assert q[0] == parts[0] && q[1..] == parts[1..] + [p];
    LastMarkedSnoc(parts[1..], p, "prefix=");
    LastMarkedSnoc(parts[1..], p, "suffix=");
    assert ("omitempty" in q[1..]) == ("omitempty" in parts[1..]);
  }
}
