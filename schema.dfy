/**
 * The schema: declared field types plus the strict flag, the field-inclusion
 * and value-resolution rules, and the `name:type` declaration syntax
 * (schema.go, lines 74-124).
 */
module Schemas {
  import opened Wrappers
  import opened Types
  import opened Strings

  /**
   * The pure part of Set: strings.SplitN(value, ":", 2) followed by ParseType
   * of the second part. Only the first ':' splits; the name may be empty.
   */
  function ParseDecl(value: string): (r: Result<(string, Type), Error>)
    ensures ':' !in value <==> r == Failure(InvalidSyntax)
    ensures ':' in value && r.Failure? ==> r.error.InvalidType?
    ensures r.Success? ==> ':' !in r.value.0 && value == r.value.0 + ":" + r.value.1.String()
  {
    var i := Index(value, ':');
    if i == -1 then Failure(InvalidSyntax)
    else
      assert value == value[..i] + ":" + value[i + 1..];
      match ParseType(value[i + 1..])
      case Failure(e) => Failure(e)
      case Success(t) => Success((value[..i], t))
  }

  /** A declaration splits at its first ':' only: everything after it is the type text. */
  lemma {:induction false} ParseDeclSplitsAtFirstColon(name: string, rest: string)
    requires ':' !in name
    ensures ParseDecl(name + ":" + rest) ==
      match ParseType(rest)
      case Success(t) => Success((name, t))
      case Failure(e) => Failure(e)
  {
    var value := name + ":" + rest;
    assert value[|name|] == ':';
    assert value[..|name|] == name;
    assert Index(value, ':') == |name|;
    assert value[|name| + 1..] == rest;
  }

  /** Every declaration `name:type` with a colon-free name and a named type is read back exactly. */
  lemma {:induction false} ParseDeclOfRendered(name: string, t: Type)
    requires ':' !in name && t != TimeType
    ensures ParseDecl(name + ":" + t.String()) == Success((name, t))
  {
    ParseDeclSplitsAtFirstColon(name, t.String());
    TypeNameRoundTrip(t);
  }

  /** A second colon stays in the type text, which ParseType then rejects. */
  lemma {:induction false} ParseDeclSecondColon()
    ensures ParseDecl("a:b:c") == Failure(InvalidType("b:c"))
  {
    assert ':' !in "a";
    ParseDeclSplitsAtFirstColon("a", "b:c");
    assert "a" + ":" + "b:c" == "a:b:c";
  }

  /** An empty name is accepted. */
  lemma {:induction false} ParseDeclEmptyName()
    ensures ParseDecl(":number") == Success(("", NumberType))
  {
    ParseDeclSplitsAtFirstColon("", "number");
    assert "" + ":" + "number" == ":number";
  }

  /** One line of the schema's textual form. */
  function Line(name: string, t: Type): string {
    name + ":" + t.String() + "\n"
  }

  /** The schema's textual form when its fields are visited in the given order. */
  function Render(order: seq<string>, fields: map<string, Type>): string
    requires forall i | 0 <= i < |order| :: order[i] in fields
  {
    if order == [] then ""
    else Render(order[..|order| - 1], fields) + Line(order[|order| - 1], fields[order[|order| - 1]])
  }

  /** order lists every field of the map exactly once. */
  ghost predicate Enumerates(order: seq<string>, fields: map<string, Type>) {
    && multiset(order) == multiset(fields.Keys)
    && forall i | 0 <= i < |order| :: order[i] in fields
  }

  class Schema {
    /** Only output fields in the schema. */
    var strict: bool
    /** Declared field types; a nil map of the source reads as the empty map. */
    var fields: map<string, Type>

    /** The zero value Schema{}. */
    constructor ()
      ensures !strict && fields == map[]
    {
      strict := false;
      fields := map[];
    }

    /** Should a field named key be part of the output? */
    function Valid(key: string): (ok: bool)
      reads this
      ensures !strict ==> ok
      ensures strict ==> (ok <==> key in fields)
    {
      !strict || key in fields
    }

    /** The value of a key/value pair under the schema. */
    function Parse(p: Parsers, key: string, value: string): (r: Result<Value, Error>)
      reads this
      ensures key !in fields ==> r == Success(Str(value))
      ensures key in fields ==> r == ParseValue(p, fields[key], value)
      ensures r.Success? && key in fields ==> r.value.Is(fields[key])
    {
      if key !in fields then Success(Str(value))
      else ParseValue(p, fields[key], value)
    }

    /** The textual form: one `name:typeName` line per field, in an unspecified order. */
    method String() returns (text: string)
      ensures exists order :: Enumerates(order, fields) && text == Render(order, fields)
    {
      var rest := fields.Keys;
      ghost var order := [];
      text := "";
      while rest != {}
        invariant rest <= fields.Keys
        invariant multiset(order) + multiset(rest) == multiset(fields.Keys)
        invariant forall i | 0 <= i < |order| :: order[i] in fields
        invariant text == Render(order, fields)
        decreases rest
      {
        var key :| key in rest;
        assert multiset(rest) == multiset(rest - {key}) + multiset{key};
        text := text + Line(key, fields[key]);
        order := order + [key];
        rest := rest - {key};
      }
      assert Enumerates(order, fields) && text == Render(order, fields);
    }

    /** Declares one field from `name:type` text (the flag.Value interface). */
    method Set(value: string) returns (err: Option<Error>)
      modifies this
      ensures strict == old(strict)
      ensures err.None? <==> ParseDecl(value).Success?
      ensures err.Some? ==> err.value == ParseDecl(value).error && fields == old(fields)
      ensures err.None? ==> fields == old(fields)[ParseDecl(value).value.0 := ParseDecl(value).value.1]
    {
      var decl := ParseDecl(value);
      if decl.Failure? {
        return Some(decl.error);
      }
      var (key, typ) := decl.value;
      fields := fields[key := typ];
      err := None;
    }
  }

  /** With strict off every key is admitted; with it on, exactly the declared ones. */
  lemma {:induction false} AdmittedKeys(s: Schema, keys: set<string>)
    ensures (set k | k in keys && s.Valid(k)) == if s.strict then keys * s.fields.Keys else keys
  {
  }

  /** Strict mode with no declared fields admits nothing. */
  lemma StrictEmptyAdmitsNothing(s: Schema, key: string)
    requires s.strict && s.fields == map[]
    ensures !s.Valid(key)
  {
  }

  /** Value resolution never looks at the strict flag. */
  lemma ParseIgnoresStrict(s: Schema, t: Schema, p: Parsers, key: string, value: string)
    requires s.fields == t.fields
    ensures s.Parse(p, key, value) == t.Parse(p, key, value)
  {
  }
}
