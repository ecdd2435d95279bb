/**
 * Inference of a schema's fields from the shape of a struct type
 * (schema.go, lines 126-178). The reflect.Type input is an explicit
 * datatype of type shapes.
 */
module Inference {
  import opened Wrappers
  import Types
  import opened Strings

  /** The reflect kinds other than Ptr and Struct, which are the Ptr and Struct shapes below. */
  datatype Kind =
    | Bool | Int | Int8 | Int16 | Int32 | Int64
    | Uint | Uint8 | Uint16 | Uint32 | Uint64 | Uintptr
    | Float32 | Float64 | Complex64 | Complex128
    | Array | Chan | Func | Interface | Map | Slice | String | UnsafePointer

  /** A Go type as reflect sees it. */
  datatype Shape =
    | Basic(kind: Kind)
    | Ptr(elem: Shape)
    | Struct(members: seq<Member>)
    | Named(name: string, underlying: Shape)   // a defined type, identified by its qualified name
  {
    /** The type with its names stripped: what reflect's Kind reports on. */
    function Underlying(): (u: Shape)
      ensures !u.Named?
    {
      if Named? then underlying.Underlying() else this
    }

    /** t.Kind() == reflect.Ptr */
    predicate IsPtr() {
      Underlying().Ptr?
    }

    /** t.Kind() == reflect.Struct */
    predicate IsStruct() {
      Underlying().Struct?
    }

    /** t.Elem() of a pointer type. */
    function Elem(): Shape
      requires IsPtr()
    {
      Underlying().elem
    }

    /** One level of pointer removed, as InferFields and fieldType do. */
    function Deref(): Shape {
      if IsPtr() then Elem() else this
    }
  }

  /** A struct member: its Go name, the value of its `json` tag ("" when absent) and its type. */
  datatype Member = Member(name: string, jsonTag: string, typ: Shape)

  /** time.Duration, a defined int64; time.Time, a struct whose unexported members are not modelled. */
  const DurationShape: Shape := Named("time.Duration", Basic(Int64))
  const TimeShape: Shape := Named("time.Time", Struct([]))

  /** The JSON name of a member: its tag up to the first ',', or its Go name when untagged. */
  function FieldKey(m: Member): (k: string)
    ensures m.jsonTag == "" ==> k == m.name
    ensures m.jsonTag != "" ==> k <= m.jsonTag && ',' !in k
    ensures m.jsonTag != "" ==> k == m.jsonTag || m.jsonTag[|k|] == ','
  {
    var tag := m.jsonTag;
    if tag == "" then m.name
    else
      var idx := Index(tag, ',');
      if idx != -1 then tag[..idx] else tag
  }

  lemma FieldKeyExamples()
    ensures FieldKey(Member("Poo", "what,", DurationShape)) == "what"
    ensures FieldKey(Member("Foo", "foo", Basic(Int))) == "foo"
    ensures FieldKey(Member("Bar", "", Basic(Bool))) == "Bar"
    ensures FieldKey(Member("Baz", ",omitempty", Basic(Bool))) == ""
  {
    assert "what,"[..4] == "what";
  }

  /** The field type a member's type infers, or None when the member is skipped. */
  function FieldType(m: Member): (r: Option<Types.Type>)
    ensures r == Some(Types.DurationType) <==> m.typ.Deref() == DurationShape
    ensures r == Some(Types.TimeType) <==> m.typ.Deref() == TimeShape
  {
    var t := m.typ.Deref();
    if t == DurationShape then Some(Types.DurationType)
    else if t == TimeShape then Some(Types.TimeType)
    else
      match t.Underlying()
      case Basic(k) =>
        (match k
         case Int => Some(Types.NumberType)
         case Int16 => Some(Types.NumberType)
         case Int32 => Some(Types.NumberType)
         case Int64 => Some(Types.NumberType)
         case Bool => Some(Types.BoolType)
         case String => Some(Types.StringType)
         case _ => None)
      case _ => None
  }

  /** Members of a defined type other than Duration and Time are typed by their kind alone. */
  lemma {:induction false} FieldTypeByKind(m: Member)
    requires m.typ.Deref() != DurationShape && m.typ.Deref() != TimeShape
    ensures var u := m.typ.Deref().Underlying();
      && (FieldType(m) == Some(Types.NumberType) <==> u in {Basic(Int), Basic(Int16), Basic(Int32), Basic(Int64)})
      && (FieldType(m) == Some(Types.BoolType) <==> u == Basic(Bool))
      && (FieldType(m) == Some(Types.StringType) <==> u == Basic(String))
      && (FieldType(m).None? <==> u !in {Basic(Int), Basic(Int16), Basic(Int32), Basic(Int64), Basic(Bool), Basic(String)})
  {
  }

  /** Duration is recognised by identity before its Int64 kind is looked at, also behind one pointer. */
  lemma DurationBeforeKind(name: string, tag: string)
    ensures DurationShape.Underlying() == Basic(Int64)
    ensures FieldType(Member(name, tag, DurationShape)) == Some(Types.DurationType)
    ensures FieldType(Member(name, tag, Ptr(DurationShape))) == Some(Types.DurationType)
  {
  }

  /** Only one pointer level is removed; floats, Int8 and unsigned kinds are skipped. */
  lemma SkippedShapes(name: string, tag: string)
    ensures FieldType(Member(name, tag, Ptr(Basic(Int)))) == Some(Types.NumberType)
    ensures FieldType(Member(name, tag, Ptr(Ptr(Basic(Int))))).None?
    ensures FieldType(Member(name, tag, Basic(Float64))).None?
    ensures FieldType(Member(name, tag, Basic(Int8))).None?
    ensures FieldType(Member(name, tag, Basic(Uint64))).None?
  {
  }

  /** What a member contributes to the inferred map: its key and type, or nothing when skipped. */
  function Entry(m: Member): (e: Option<(string, Types.Type)>)
    ensures e.Some? <==> FieldType(m).Some?
    ensures e.Some? ==> e.value == (FieldKey(m), FieldType(m).value)
  {
    match FieldType(m)
    case Some(t) => Some((FieldKey(m), t))
    case None => None
  }

  /** Entry j sets key k. */
  predicate Sets(es: seq<Option<(string, Types.Type)>>, j: int, k: string)
    requires 0 <= j < |es|
  {
    es[j].Some? && es[j].value.0 == k
  }

  /** Entry j is the last one that sets key k. */
  ghost predicate LastSets(es: seq<Option<(string, Types.Type)>>, j: int, k: string) {
    && 0 <= j < |es|
    && Sets(es, j, k)
    && forall l | j < l < |es| :: !Sets(es, l, k)
  }

  /** The map built by writing the entries in order, a later entry overwriting an earlier one. */
  function Collect(es: seq<Option<(string, Types.Type)>>): map<string, Types.Type>
  {
    if es == [] then map[]
    else
      var prev := Collect(es[..|es| - 1]);
      match es[|es| - 1]
      case Some((k, t)) => prev[k := t]
      case None => prev
  }

  /** A key is collected iff some entry sets it, with the type of the last entry that does. */
  lemma {:induction false} CollectLastWins(es: seq<Option<(string, Types.Type)>>, k: string)
    ensures k in Collect(es) <==> exists j :: 0 <= j < |es| && Sets(es, j, k)
    ensures forall j :: LastSets(es, j, k) ==> k in Collect(es) && Collect(es)[k] == es[j].value.1
  {
    if es != [] {
      var n := |es| - 1;
      var init := es[..n];
      CollectLastWins(init, k);
      if Sets(es, n, k) {
        forall j | LastSets(es, j, k)
          ensures j == n
        {
        }
      } else {
        forall j | LastSets(es, j, k)
          ensures LastSets(init, j, k)
        {
          assert j != n;
          forall l | j < l < |init|
            ensures !Sets(init, l, k)
          {
            assert Sets(init, l, k) == Sets(es, l, k);
          }
        }
        if exists j :: 0 <= j < |es| && Sets(es, j, k) {
          var j :| 0 <= j < |es| && Sets(es, j, k);
          assert Sets(init, j, k);
        }
        if exists j :: 0 <= j < |init| && Sets(init, j, k) {
          var j :| 0 <= j < |init| && Sets(init, j, k);
          assert Sets(es, j, k);
        }
      }
    }
  }

  /** The entries of a member sequence, in order. */
  function Entries(ms: seq<Member>): (es: seq<Option<(string, Types.Type)>>)
    ensures |es| == |ms|
    ensures forall i | 0 <= i < |ms| :: es[i] == Entry(ms[i])
  {
    seq(|ms|, i requires 0 <= i < |ms| => Entry(ms[i]))
  }

  /** The map the InferFields loop builds from the members of a struct. */
  function Inferred(ms: seq<Member>): map<string, Types.Type> {
    Collect(Entries(ms))
  }

  /** Member j gives key k a type. */
  predicate Declares(m: Member, k: string) {
    FieldKey(m) == k && FieldType(m).Some?
  }

  /**
   * A key is inferred iff some member declares it, and it gets the type of the
   * last member that declares it: a later member with the same key overwrites.
   */
  lemma {:induction false} InferredLastWins(ms: seq<Member>, k: string, j: int)
    ensures k in Inferred(ms) <==> exists i :: 0 <= i < |ms| && Declares(ms[i], k)
    ensures 0 <= j < |ms| && Declares(ms[j], k) && (forall l | j < l < |ms| :: !Declares(ms[l], k))
      ==> k in Inferred(ms) && Inferred(ms)[k] == FieldType(ms[j]).value
  {
    var es := Entries(ms);
    CollectLastWins(es, k);
    assert forall i | 0 <= i < |ms| :: Sets(es, i, k) == Declares(ms[i], k);
    if 0 <= j < |ms| && Declares(ms[j], k) && (forall l | j < l < |ms| :: !Declares(ms[l], k)) {
      assert LastSets(es, j, k);
    }
  }

  /** Builds the fields map of a struct type, or of a pointer to one. */
  method InferFields(t: Shape) returns (fields: map<string, Types.Type>)
    requires t.Deref().IsStruct()
    ensures fields == Inferred(t.Deref().Underlying().members)
  {
    var s := t;
    if s.IsPtr() {
      s := s.Elem();
    }
    var members := s.Underlying().members;
    fields := map[];
    for i := 0 to |members|
      invariant fields == Inferred(members[..i])
    {
      var field := members[i];
      var name := FieldKey(field);
      var typ := FieldType(field);
      assert Entries(members[..i + 1]) == Entries(members[..i]) + [Entry(field)];
      if typ.Some? {
        fields := fields[name := typ.value];
      }
    }
    assert members[..|members|] == members;
  }

  /** The struct of the source's own inference test. */
  const ThingMembers: seq<Member> := [
    Member("Foo", "foo", Basic(Int)),
    Member("Bar", "", Basic(Bool)),
    Member("Poo", "what,", DurationShape),
    Member("Yes", "", Basic(String)),
    Member("Buz", "", TimeShape),
    Member("Float", "", Basic(Float64))
  ]

  /** The test passes a pointer to that struct. */
  const Thing: Shape := Ptr(Named("jsonlogfmt.Thing", Struct(ThingMembers)))

  /** The JSON names of the test struct's members. */
  lemma ThingKeys()
    ensures FieldKey(ThingMembers[0]) == "foo" && FieldKey(ThingMembers[1]) == "Bar"
    ensures FieldKey(ThingMembers[2]) == "what" && FieldKey(ThingMembers[3]) == "Yes"
    ensures FieldKey(ThingMembers[4]) == "Buz" && FieldKey(ThingMembers[5]) == "Float"
  {
    FieldKeyExamples();
  }

  /** The field types of the test struct's members: the float64 member has none. */
  lemma ThingTypes()
    ensures FieldType(ThingMembers[0]) == Some(Types.NumberType)
    ensures FieldType(ThingMembers[1]) == Some(Types.BoolType)
    ensures FieldType(ThingMembers[2]) == Some(Types.DurationType)
    ensures FieldType(ThingMembers[3]) == Some(Types.StringType)
    ensures FieldType(ThingMembers[4]) == Some(Types.TimeType)
    ensures FieldType(ThingMembers[5]).None?
  {
  }

  /** What each member of the test struct contributes. */
  lemma ThingEntries()
    ensures Entries(ThingMembers) == [Some(("foo", Types.NumberType)), Some(("Bar", Types.BoolType)),
      Some(("what", Types.DurationType)), Some(("Yes", Types.StringType)), Some(("Buz", Types.TimeType)), None]
  {
    ThingKeys();
    ThingTypes();
  }

  /** What the code infers for it: every member but the float64 one. */
  lemma InferThing()
    ensures Thing.Deref().IsStruct() && Thing.Deref().Underlying().members == ThingMembers
    ensures Inferred(ThingMembers) == map[
      "foo" := Types.NumberType,
      "Bar" := Types.BoolType,
      "what" := Types.DurationType,
      "Yes" := Types.StringType,
      "Buz" := Types.TimeType]
  {
    ThingEntries();
    var es := Entries(ThingMembers);
    assert es[..0] == [];
    assert Collect(es[..1]) == map["foo" := Types.NumberType] by { assert es[..1][..0] == es[..0]; }
    assert Collect(es[..2]) == map["foo" := Types.NumberType, "Bar" := Types.BoolType] by { assert es[..2][..1] == es[..1]; }
    assert Collect(es[..3]) == map["foo" := Types.NumberType, "Bar" := Types.BoolType, "what" := Types.DurationType]
      by { assert es[..3][..2] == es[..2]; }
    assert Collect(es[..4]) == map["foo" := Types.NumberType, "Bar" := Types.BoolType, "what" := Types.DurationType,
      "Yes" := Types.StringType] by { assert es[..4][..3] == es[..3]; }
    assert Collect(es[..5]) == map["foo" := Types.NumberType, "Bar" := Types.BoolType, "what" := Types.DurationType,
      "Yes" := Types.StringType, "Buz" := Types.TimeType] by { assert es[..5][..4] == es[..4]; }
    assert es[..6] == es && es[..5] == es[..|es| - 1];
  }
}
