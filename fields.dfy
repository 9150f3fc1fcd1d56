/**
 * The record's children as the reflection layer hands them over, and the
 * exposure policy of the StORM base class: which labelled children a view
 * emits, at which labelled position, for a given offset.
 */
module Fields {
  import opened Wrappers

  /** The run-time shapes a field value can take, as far as the base class tells them apart. */
  datatype Value =
    | IntVal(i: int)                         // Swift `Int`
    | StrVal(s: string)                      // Swift `String`
    | StrList(items: seq<string>)            // Swift `[String]`
    | StrMap(entries: map<string, Value>)    // Swift `[String: Any]`
    | Other(typeName: string, id: nat)       // any other value, identified by its run-time type and an opaque identity

  /** What `type(of:)` reports for a value. */
  datatype ValueType = IntType | StringType | StringArrayType | DictionaryType | OtherType(name: string)

  function TypeOf(v: Value): (t: ValueType)
    ensures t == IntType <==> v.IntVal?
    ensures t == StringType <==> v.StrVal?
    ensures t == StringArrayType <==> v.StrList?
    ensures t == DictionaryType <==> v.StrMap?
    ensures t.OtherType? <==> v.Other?
    ensures t.OtherType? ==> t.name == v.typeName
  {
    match v
    case IntVal(_) => IntType
    case StrVal(_) => StringType
    case StrList(_) => StringArrayType
    case StrMap(_) => DictionaryType
    case Other(t, _) => OtherType(t)
  }

  /** One child of the record's mirror: a name, when the child has one, and its value. */
  datatype Child = Child(name: Option<string>, value: Value)

  /** A labelled child: a (name, value) pair of the ordered views. */
  datatype Field = Field(name: string, value: Value)

  /** A (name, type) pair of the column view. */
  datatype Column = Column(name: string, kind: ValueType)

  /** Names beginning with "internal_" or "_" mark persistence metadata, never data. */
  predicate Excluded(name: string)
    ensures Excluded(name) <==>
      (|name| >= 1 && name[0] == '_') || (|name| >= 9 && name[..9] == "internal_")
  {
    "internal_" <= name || "_" <= name
  }

  /** A labelled child at labelled position `position` is emitted for `offset`. */
  predicate Emitted(name: string, position: int, offset: int)
  {
    position >= offset && !Excluded(name)
  }

  /** The labelled children in mirror order; unlabelled children are dropped. */
  function Labelled(children: seq<Child>): (fields: seq<Field>)
    ensures |fields| <= |children|
  {
    if children == [] then []
    else
      var n := |children| - 1;
      Labelled(children[..n]) + LabelledOne(children[n])
  }

  function LabelledOne(child: Child): seq<Field>
  {
    match child.name
    case Some(l) => [Field(l, child.value)]
    case None => []
  }

  /** The labelled positions, in increasing order, that are emitted for `offset`. */
  function Positions(fields: seq<Field>, offset: int): (ps: seq<nat>)
    ensures forall j :: 0 <= j < |ps| ==> ps[j] < |fields|
  {
    if fields == [] then []
    else
      var n := |fields| - 1;
      Positions(fields[..n], offset) + (if Emitted(fields[n].name, n, offset) then [n] else [])
  }

  /** The fields at the given positions, in the order of the positions. */
  function Pick(fields: seq<Field>, ps: seq<nat>): (r: seq<Field>)
    requires forall j :: 0 <= j < |ps| ==> ps[j] < |fields|
    ensures |r| == |ps| && forall j :: 0 <= j < |ps| ==> r[j] == fields[ps[j]]
  {
    seq(|ps|, j requires 0 <= j < |ps| => fields[ps[j]])
  }

  /** The fields a view exposes for `offset`: the emitted positions, in order. */
  function Exposed(fields: seq<Field>, offset: int): seq<Field>
  {
    Pick(fields, Positions(fields, offset))
  }

  function Labels(fields: seq<Field>): (ls: seq<string>)
    ensures |ls| == |fields| && forall j :: 0 <= j < |fields| ==> ls[j] == fields[j].name
  {
    seq(|fields|, j requires 0 <= j < |fields| => fields[j].name)
  }

  predicate StrictlyIncreasing(ps: seq<nat>)
  {
    forall a, b :: 0 <= a < b < |ps| ==> ps[a] < ps[b]
  }

  predicate IsSuffix<T(==)>(a: seq<T>, b: seq<T>)
  {
    |a| <= |b| && a == b[|b| - |a|..]
  }

  // ---------------------------------------------------------------------
  // The labelled children
  // ---------------------------------------------------------------------

  lemma {:induction false} LabelledAppend(a: seq<Child>, b: seq<Child>)
    ensures Labelled(a + b) == Labelled(a) + Labelled(b)
    decreases |b|
  {
    if b == [] {
      assert a + b == a;
    } else {
      var n := |b| - 1;
      assert (a + b)[..|a + b| - 1] == a + b[..n];
      LabelledAppend(a, b[..n]);
    }
  }

  /** One more child adds its own (name, value) at the end when it is labelled, and nothing otherwise. */
  lemma LabelledStep(children: seq<Child>, i: nat)
    requires i < |children|
    ensures Labelled(children[..i + 1]) == Labelled(children[..i]) + LabelledOne(children[i])
  {
    assert children[..i + 1][..i] == children[..i];
  }

  /** Unlabelled children neither appear nor move any later labelled child. */
  lemma UnlabelledSkipped(a: seq<Child>, v: Value, b: seq<Child>)
    ensures Labelled(a + [Child(None, v)] + b) == Labelled(a + b)
  {
    var u := [Child(None, v)];
    assert u[..0] == [];
    assert Labelled(u) == [];
    LabelledAppend(a, u);
    assert Labelled(a + u) == Labelled(a);
    LabelledAppend(a + u, b);
    LabelledAppend(a, b);
  }

  /**
   * The labelled position of a labelled child is the number of labelled
   * children before it, and that position holds exactly its (name, value).
   */
  lemma LabelledPosition(children: seq<Child>, j: nat)
    requires j < |children| && children[j].name.Some?
    ensures |Labelled(children[..j])| < |Labelled(children)|
    ensures Labelled(children)[|Labelled(children[..j])|] == Field(children[j].name.value, children[j].value)
  {
    assert children == children[..j] + [children[j]] + children[j + 1..];
    LabelledAppend(children[..j] + [children[j]], children[j + 1..]);
    LabelledAppend(children[..j], [children[j]]);
    assert [children[j]][..0] == [];
  }

  /** Children without labels contribute nothing. */
  lemma {:induction false} LabelledNone(children: seq<Child>)
    requires forall j :: 0 <= j < |children| ==> children[j].name.None?
    ensures Labelled(children) == []
  {
    if children != [] {
      LabelledNone(children[..|children| - 1]);
    }
  }

  /** When every child is labelled, nothing is dropped and nothing is reordered. */
  lemma {:induction false} LabelledAllLabelled(children: seq<Child>)
    requires forall j :: 0 <= j < |children| ==> children[j].name.Some?
    ensures |Labelled(children)| == |children|
    ensures forall j :: 0 <= j < |children| ==>
      Labelled(children)[j] == Field(children[j].name.value, children[j].value)
  {
    if children != [] {
      var n := |children| - 1;
      LabelledAllLabelled(children[..n]);
    }
  }

  // ---------------------------------------------------------------------
  // The emitted positions
  // ---------------------------------------------------------------------

  /** Positions holds exactly the emitted labelled positions, each once, in increasing order. */
  lemma {:induction false} PositionsExactly(fields: seq<Field>, offset: int)
    ensures StrictlyIncreasing(Positions(fields, offset))
    ensures forall i :: i in Positions(fields, offset) <==>
      0 <= i < |fields| && Emitted(fields[i].name, i, offset)
  {
    if fields != [] {
      var n := |fields| - 1;
      PositionsExactly(fields[..n], offset);
    }
  }

  /** Emitting one more labelled child extends the exposed sequence by at most that child. */
  lemma ExposedSnoc(fields: seq<Field>, f: Field, offset: int)
    ensures Exposed(fields + [f], offset) ==
      Exposed(fields, offset) + (if Emitted(f.name, |fields|, offset) then [f] else [])
  {
    var fs := fields + [f];
    assert fs[..|fs| - 1] == fields;
    var ps := Positions(fields, offset);
    assert Positions(fs, offset) == ps + (if Emitted(f.name, |fields|, offset) then [|fields|] else []);
  }

  /**
   * One more child of the mirror: the exposed fields grow by that child
   * exactly when it is labelled and emitted at its labelled position, the
   * number of labelled children before it.
   */
  lemma ExposedStep(children: seq<Child>, i: nat, offset: int)
    requires i < |children|
    ensures Labelled(children[..i + 1]) == Labelled(children[..i]) + LabelledOne(children[i])
    ensures |Labelled(children[..i + 1])| == |Labelled(children[..i])| + if children[i].name.Some? then 1 else 0
    ensures Exposed(Labelled(children[..i + 1]), offset) ==
      Exposed(Labelled(children[..i]), offset) +
      (if children[i].name.Some? && Emitted(children[i].name.value, |Labelled(children[..i])|, offset)
       then [Field(children[i].name.value, children[i].value)] else [])
  {
    LabelledStep(children, i);
    var before := Labelled(children[..i]);
    match children[i].name
    case None =>
      assert LabelledOne(children[i]) == [];
      assert before + [] == before;
    case Some(l) =>
      ExposedSnoc(before, Field(l, children[i].value), offset);
  }

  /** Nothing is emitted once the offset lies beyond every labelled position. */
  lemma PositionsBeyond(fields: seq<Field>, offset: int)
    requires offset >= |fields|
    ensures Positions(fields, offset) == []
  {
    PositionsExactly(fields, offset);
  }

  /** Raising the offset keeps a suffix of the emitted positions and never adds one. */
  lemma {:induction false} PositionsOffsetSuffix(fields: seq<Field>, k1: int, k2: int)
    requires k1 <= k2
    ensures IsSuffix(Positions(fields, k2), Positions(fields, k1))
  {
    if fields != [] {
      var n := |fields| - 1;
      PositionsOffsetSuffix(fields[..n], k1, k2);
      if !Emitted(fields[n].name, n, k2) && Emitted(fields[n].name, n, k1) {
        PositionsBeyond(fields[..n], k2);
      }
    }
  }

  // ---------------------------------------------------------------------
  // The exposed fields
  // ---------------------------------------------------------------------

  /** For every offset, no exposed field carries an excluded name. */
  lemma ExposedHidesExcluded(fields: seq<Field>, offset: int)
    ensures forall j :: 0 <= j < |Exposed(fields, offset)| ==> !Excluded(Exposed(fields, offset)[j].name)
  {
    var ps := Positions(fields, offset);
    PositionsExactly(fields, offset);
    forall j | 0 <= j < |ps|
      ensures !Excluded(fields[ps[j]].name)
    {
      assert ps[j] in ps;
    }
  }

  /** Raising the offset leaves a suffix of the exposed fields and never adds one. */
  lemma ExposedOffsetSuffix(fields: seq<Field>, k1: int, k2: int)
    requires k1 <= k2
    ensures IsSuffix(Exposed(fields, k2), Exposed(fields, k1))
  {
    PositionsOffsetSuffix(fields, k1, k2);
    var p1, p2 := Positions(fields, k1), Positions(fields, k2);
    var e1, e2 := Exposed(fields, k1), Exposed(fields, k2);
    assert e2 == e1[|e1| - |e2|..];
  }
}
