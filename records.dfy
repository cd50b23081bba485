/** The part of TableGen's record store that the syntax back end consults.
    Records, their typed fields and their superclass lists are plain values;
    the record keeper is the read-only schema handed to the generator. */
module Records {

  datatype Option<T> = None | Some(value: T)

  /** The type of a field or value. A record type names a class or a
      definition and carries every superclass of that record, in the order
      TableGen lists them (inherited classes first, the immediate parent
      last). Every other TableGen type (string, bit, list, ...) is OtherTy. */
  datatype RecTy =
    | RecordTy(recName: string, recSupers: seq<string>)
    | OtherTy(text: string)

  /** The value of a field: a reference to a definition, a string literal,
      or anything else, kept as its printed form. */
  datatype Init =
    | DefInit(def: Record)
    | StringInit(str: string)
    | OtherInit(text: string)

  datatype RecordVal = RecordVal(name: string, ty: RecTy, value: Init)

  /** A definition or class: its name, all its superclasses and its fields
      in declaration order. */
  datatype Record = Record(name: string, superclasses: seq<string>, values: seq<RecordVal>)

  /** The schema: the names of its classes and its definitions, in the order
      the record keeper enumerates them. */
  datatype RecordKeeper = RecordKeeper(classes: set<string>, defs: seq<Record>)

  /** The type of a reference to `d`: the record type of `d` itself. */
  function DefType(d: Record): RecTy
  {
    RecordTy(d.name, d.superclasses)
  }

  /** Init::getAsUnquotedString: a string literal without its quotes, a
      definition by its name, anything else as printed. */
  function AsUnquotedString(v: Init): string
  {
    match v
    case DefInit(d) => d.name
    case StringInit(s) => s
    case OtherInit(t) => t
  }

  /** Record::getValue: the first field called `name`, if any. */
  function FindValue(vals: seq<RecordVal>, name: string): (r: Option<RecordVal>)
    ensures r.Some? ==> r.value in vals && r.value.name == name
  {
    if vals == [] then None
    else if vals[0].name == name then Some(vals[0])
    else FindValue(vals[1..], name)
  }

  /** FindValue finds nothing exactly when no field has the name. */
  lemma {:induction false} FindValueNone(vals: seq<RecordVal>, name: string)
    ensures FindValue(vals, name).None? <==> forall k :: 0 <= k < |vals| ==> vals[k].name != name
  {
    if vals != [] {
      FindValueNone(vals[1..], name);
      assert forall k :: 1 <= k < |vals| ==> vals[k] == vals[1..][k - 1];
    }
  }

  /** FindValue finds the FIRST field with the name. */
  lemma {:induction false} FindValueIsFirst(vals: seq<RecordVal>, name: string)
    requires FindValue(vals, name).Some?
    ensures exists k :: 0 <= k < |vals| && vals[k] == FindValue(vals, name).value
                        && forall j :: 0 <= j < k ==> vals[j].name != name
  {
    if vals[0].name != name {
      FindValueIsFirst(vals[1..], name);
      var k :| 0 <= k < |vals[1..]| && vals[1..][k] == FindValue(vals[1..], name).value
               && forall j :: 0 <= j < k ==> vals[1..][j].name != name;
      assert vals[k + 1] == FindValue(vals, name).value;
      assert forall j :: 0 <= j < k + 1 ==> vals[j].name != name by {
        forall j | 0 <= j < k + 1 ensures vals[j].name != name {
          if j > 0 { assert vals[j] == vals[1..][j - 1]; }
        }
      }
    } else {
      assert vals[0] == FindValue(vals, name).value;
    }
  }

  function GetValue(r: Record, name: string): Option<RecordVal>
  {
    FindValue(r.values, name)
  }

  /** Record::getValueAsString succeeds: the field exists and holds a string. */
  predicate HasStringValue(r: Record, field: string)
  {
    GetValue(r, field).Some? && GetValue(r, field).value.value.StringInit?
  }

  /** Record::getValueAsString; any other field is a fatal error in TableGen. */
  function ValueAsString(r: Record, field: string): string
    requires HasStringValue(r, field)
  {
    GetValue(r, field).value.value.str
  }

  /** The definitions among `defs` that have `cls` among their superclasses,
      in their original order. */
  function DerivedFrom(defs: seq<Record>, cls: string): (r: seq<Record>)
    ensures |r| <= |defs|
  {
    if defs == [] then []
    else
      var last := defs[|defs| - 1];
      DerivedFrom(defs[..|defs| - 1], cls) + (if cls in last.superclasses then [last] else [])
  }

  /** The derived definitions are exactly those listing the class among
      their superclasses. */
  lemma {:induction false} DerivedFromMembers(defs: seq<Record>, cls: string)
    ensures forall d :: d in DerivedFrom(defs, cls) <==> d in defs && cls in d.superclasses
  {
    if defs != [] {
      var front := defs[..|defs| - 1];
      DerivedFromMembers(front, cls);
      assert defs == front + [defs[|defs| - 1]];
    }
  }

  /** Appending one definition appends it to the derived ones exactly when
      it lists the class. */
  lemma DerivedFromSnoc(front: seq<Record>, last: Record, cls: string)
    ensures DerivedFrom(front + [last], cls)
         == DerivedFrom(front, cls) + (if cls in last.superclasses then [last] else [])
  {
    assert (front + [last])[..|front|] == front;
  }

  /** Deriving commutes with concatenation: the derived definitions keep
      their relative order. */
  lemma {:induction false} DerivedFromAppend(a: seq<Record>, b: seq<Record>, cls: string)
    ensures DerivedFrom(a + b, cls) == DerivedFrom(a, cls) + DerivedFrom(b, cls)
    decreases |b|
  {
    if b == [] {
      assert a + b == a;
    } else {
      var front, last := b[..|b| - 1], b[|b| - 1];
      DerivedFromAppend(a, front, cls);
      assert (a + b)[..|a + b| - 1] == a + front;
      assert (a + b)[|a + b| - 1] == last;
      var kept := if cls in last.superclasses then [last] else [];
      assert DerivedFrom(b, cls) == DerivedFrom(front, cls) + kept;
      assert DerivedFrom(a + b, cls) == (DerivedFrom(a, cls) + DerivedFrom(front, cls)) + kept;
    }
  }

  /** RecordKeeper::getAllDerivedDefinitions, which is a fatal error when
      no class of that name exists. */
  function AllDerivedDefinitions(rk: RecordKeeper, cls: string): (r: seq<Record>)
    requires cls in rk.classes
    ensures forall d :: d in r <==> d in rk.defs && cls in d.superclasses
  {
    DerivedFromMembers(rk.defs, cls);
    DerivedFrom(rk.defs, cls)
  }
}
