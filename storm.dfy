/**
 * The StORM base class: its per-record result and error state, the mirror
 * of the record's children, the three exposure views (`cols`, `asData`,
 * `asDataDict`), the key resolver (`firstAsKey`, `keyIsEmpty`) and the
 * `create` hook every driver class overrides.
 */
module StormEntity {
  import opened Wrappers
  import opened Fields
  import opened Encoding

  /** The last query's result container; its contents belong to the driver layer. */
  datatype ResultSet = ResultSet(handle: nat)

  /** The error kinds the base class deals in; the driver's own kinds stay opaque. */
  datatype StormError = NoError | NotImplemented | DriverError(code: nat)

  /** `keyIsEmpty` force-casts a key that is not an `Int` to `String`; this is the cast that fails. */
  datatype CastFailure = ForcedCastToString(found: ValueType)

  /** The identity reported for a record without any labelled child. */
  const FallbackKey: Field := Field("id", StrVal("unknown"))

  /** The mirror's children: the declared override list when there is one, else what reflection finds. */
  function MirrorChildren(reflected: seq<Child>, overrides: Option<seq<Field>>): (children: seq<Child>)
    ensures overrides.None? ==> children == reflected
    ensures overrides.Some? ==> Labelled(children) == overrides.value
  {
    match overrides
    case Some(ps) =>
      var declared := seq(|ps|, i requires 0 <= i < |ps| => Child(Some(ps[i].name), ps[i].value));
      LabelledAllLabelled(declared);
      declared
    case None => reflected
  }

  /** What `cols(offset)` returns: each exposed field's name with the type of its raw value. */
  function ColsOf(children: seq<Child>, offset: int): seq<Column>
  {
    Columns(Exposed(Labelled(children), offset))
  }

  /** What `asData(offset)` returns: each exposed field with its value encoded. */
  function AsDataOf(children: seq<Child>, offset: int, json: JsonEncoder): seq<Field>
  {
    EncodeAll(Exposed(Labelled(children), offset), json)
  }

  /** What `asDataDict(offset)` returns: the encoded exposed fields assigned into a dictionary in order. */
  function AsDataDictOf(children: seq<Child>, offset: int, json: JsonEncoder): map<string, Value>
  {
    ToMap(AsDataOf(children, offset, json))
  }

  /** What `firstAsKey()` returns: the first labelled child, or the fallback identity. */
  function FirstKey(children: seq<Child>): Field
  {
    var fields := Labelled(children);
    if fields == [] then FallbackKey else fields[0]
  }

  /** Whether a key value counts as empty: an `Int` when zero, a `String` when it has no characters. */
  function KeyEmptiness(v: Value): (r: Result<bool, CastFailure>)
    ensures r.Ok? <==> v.IntVal? || v.StrVal?
    ensures r == Ok(true) <==> v == IntVal(0) || v == StrVal("")
    ensures r.Err? ==> r.error == ForcedCastToString(TypeOf(v))
  {
    match v
    case IntVal(i) => Ok(i == 0)
    case StrVal(s) => Ok(|s| == 0)
    case _ => Err(ForcedCastToString(TypeOf(v)))
  }

  // ---------------------------------------------------------------------
  // One child at a time: what the loops of the views add per child
  // ---------------------------------------------------------------------

  /** One more child adds its (name, type) to `cols` exactly when it is labelled and emitted. */
  lemma ColsStep(children: seq<Child>, i: nat, offset: int)
    requires i < |children|
    ensures |Labelled(children[..i + 1])| == |Labelled(children[..i])| + if children[i].name.Some? then 1 else 0
    ensures ColsOf(children[..i + 1], offset) == ColsOf(children[..i], offset) +
      (if children[i].name.Some? && Emitted(children[i].name.value, |Labelled(children[..i])|, offset)
       then [Column(children[i].name.value, TypeOf(children[i].value))] else [])
  {
    ExposedStep(children, i, offset);
    var before := Exposed(Labelled(children[..i]), offset);
    if children[i].name.Some? && Emitted(children[i].name.value, |Labelled(children[..i])|, offset) {
      ColumnsSnoc(before, Field(children[i].name.value, children[i].value));
    } else {
      assert before + [] == before;
    }
  }

  /** One more child adds its encoded (name, value) to `asData` exactly when it is labelled and emitted. */
  lemma AsDataStep(children: seq<Child>, i: nat, offset: int, json: JsonEncoder)
    requires i < |children|
    ensures |Labelled(children[..i + 1])| == |Labelled(children[..i])| + if children[i].name.Some? then 1 else 0
    ensures AsDataOf(children[..i + 1], offset, json) == AsDataOf(children[..i], offset, json) +
      (if children[i].name.Some? && Emitted(children[i].name.value, |Labelled(children[..i])|, offset)
       then [Field(children[i].name.value, Encode(children[i].value, json))] else [])
  {
    ExposedStep(children, i, offset);
    var before := Exposed(Labelled(children[..i]), offset);
    if children[i].name.Some? && Emitted(children[i].name.value, |Labelled(children[..i])|, offset) {
      EncodeAllSnoc(before, Field(children[i].name.value, children[i].value), json);
    } else {
      assert before + [] == before;
    }
  }

  /** One more child assigns its encoded value under its name in `asDataDict` exactly when it is labelled and emitted. */
  lemma AsDataDictStep(children: seq<Child>, i: nat, offset: int, json: JsonEncoder)
    requires i < |children|
    ensures |Labelled(children[..i + 1])| == |Labelled(children[..i])| + if children[i].name.Some? then 1 else 0
    ensures AsDataDictOf(children[..i + 1], offset, json) ==
      if children[i].name.Some? && Emitted(children[i].name.value, |Labelled(children[..i])|, offset)
      then AsDataDictOf(children[..i], offset, json)[children[i].name.value := Encode(children[i].value, json)]
      else AsDataDictOf(children[..i], offset, json)
  {
    AsDataStep(children, i, offset, json);
    var before := AsDataOf(children[..i], offset, json);
    if children[i].name.Some? && Emitted(children[i].name.value, |Labelled(children[..i])|, offset) {
      ToMapSnoc(before, Field(children[i].name.value, Encode(children[i].value, json)));
    } else {
      assert before + [] == before;
    }
  }

  class Storm {
    /** Results of the last operation. */
    var results: ResultSet
    /** Error status of the last operation. */
    var error: StormError
    /** Message of the last error. */
    var errorMsg: string
    /** The record's children as reflection reports them, in declaration order. */
    var reflected: seq<Child>
    /** The properties a subclass names for mirroring, when it overrides `mirroredProperties`. */
    var mirroredProperties: Option<seq<Field>>

    constructor (reflected: seq<Child>, mirroredProperties: Option<seq<Field>>)
      ensures results == ResultSet(0) && error == NoError && errorMsg == ""
      ensures this.reflected == reflected && this.mirroredProperties == mirroredProperties
    {
      results := ResultSet(0);
      error := NoError;
      errorMsg := "";
      this.reflected := reflected;
      this.mirroredProperties := mirroredProperties;
    }

    /** The mirror's children: the declared properties, all labelled and in their own order, or else the reflected ones. */
    function Mirror(): (children: seq<Child>)
      reads this
      ensures mirroredProperties.None? ==> children == reflected
      ensures mirroredProperties.Some? ==> Labelled(children) == mirroredProperties.value
    {
      MirrorChildren(reflected, mirroredProperties)
    }

    /** The column view: every exposed field from labelled position `offset` on, with the type of its value. */
    method Cols(offset: int) returns (c: seq<Column>)
      ensures c == ColsOf(Mirror(), offset)
    {
      c := [];
      var count := 0;
      var children := Mirror();
      for i := 0 to |children|
        invariant count == |Labelled(children[..i])|
        invariant c == ColsOf(children[..i], offset)
      {
        ColsStep(children, i, offset);
        if children[i].name.None? {
          continue;
        }
        var key, value := children[i].name.value, children[i].value;
        if count >= offset && !("internal_" <= key) && !("_" <= key) {
          c := c + [Column(key, TypeOf(value))];
        }
        count := count + 1;
      }
      assert children[..|children|] == children;
    }

    /** The ordered data view: every exposed field from labelled position `offset` on, value encoded. */
    method AsData(offset: int, json: JsonEncoder) returns (c: seq<Field>)
      ensures c == AsDataOf(Mirror(), offset, json)
    {
      c := [];
      var count := 0;
      var children := Mirror();
      for i := 0 to |children|
        invariant count == |Labelled(children[..i])|
        invariant c == AsDataOf(children[..i], offset, json)
      {
        AsDataStep(children, i, offset, json);
        if children[i].name.Some? {
          var name, value := children[i].name.value, children[i].value;
          if count >= offset && !("internal_" <= name) && !("_" <= name) {
            c := c + [Field(name, Encode(value, json))];
          }
          count := count + 1;
        }
      }
      assert children[..|children|] == children;
    }

    /** The keyed data view: the exposed fields, value encoded, assigned one after another. */
    method AsDataDict(offset: int, json: JsonEncoder) returns (c: map<string, Value>)
      ensures c == AsDataDictOf(Mirror(), offset, json)
    {
      c := map[];
      var count := 0;
      var children := Mirror();
      for i := 0 to |children|
        invariant count == |Labelled(children[..i])|
        invariant c == AsDataDictOf(children[..i], offset, json)
      {
        AsDataDictStep(children, i, offset, json);
        if children[i].name.Some? {
          var name, value := children[i].name.value, children[i].value;
          if count >= offset && !("internal_" <= name) && !("_" <= name) {
            c := c[name := Encode(value, json)];
          }
          count := count + 1;
        }
      }
      assert children[..|children|] == children;
    }

    /** The record's key: the first labelled child, or `("id", "unknown")` when there is none. */
    method FirstAsKey() returns (key: Field)
      ensures key == FirstKey(Mirror())
    {
      var children := Mirror();
      for i := 0 to |children|
        invariant Labelled(children[..i]) == []
      {
        LabelledStep(children, i);
        if children[i].name.Some? {
          key := Field(children[i].name.value, children[i].value);
          assert children == children[..i + 1] + children[i + 1..];
          LabelledAppend(children[..i + 1], children[i + 1..]);
          return;
        }
      }
      assert children[..|children|] == children;
      key := FallbackKey;
    }

    /** Whether the key's value is empty; a key that is neither `Int` nor `String` fails its cast. */
    method KeyIsEmpty() returns (r: Result<bool, CastFailure>)
      ensures r == KeyEmptiness(FirstKey(Mirror()).value)
    {
      var key := FirstAsKey();
      match key.value
      case IntVal(i) =>
        r := Ok(i == 0);
      case StrVal(s) =>
        r := Ok(|s| == 0);
      case _ =>
        r := Err(ForcedCastToString(TypeOf(key.value)));
    }

    /** The base class does not know how to create a record: it always throws `notImplemented`. */
    method Create() returns (r: Outcome<StormError>)
      ensures r == Fail(NotImplemented)
    {
      r := Fail(NotImplemented);
    }
  }

  // ---------------------------------------------------------------------
  // Properties of the views
  // ---------------------------------------------------------------------

  /** For every offset, no view carries a name beginning with "_" or "internal_". */
  lemma ViewsHideExcluded(children: seq<Child>, offset: int, json: JsonEncoder)
    ensures forall j :: 0 <= j < |ColsOf(children, offset)| ==> !Excluded(ColsOf(children, offset)[j].name)
    ensures forall j :: 0 <= j < |AsDataOf(children, offset, json)| ==> !Excluded(AsDataOf(children, offset, json)[j].name)
    ensures forall l :: l in AsDataDictOf(children, offset, json) ==> !Excluded(l)
  {
    var fs := Exposed(Labelled(children), offset);
    ExposedHidesExcluded(Labelled(children), offset);
    var data := AsDataOf(children, offset, json);
    ToMapKeys(data);
    forall l | l in AsDataDictOf(children, offset, json)
      ensures !Excluded(l)
    {
      var j :| 0 <= j < |data| && Labels(data)[j] == l;
      assert Labels(fs)[j] == l;
    }
  }

  /**
   * The `count` of `cols` and `asData` is the labelled position: a labelled child at index
   * j sits at labelled position p, the number of labelled children before it,
   * and it is emitted exactly when p >= offset and its name is not excluded.
   */
  lemma ChildEmittedIff(children: seq<Child>, offset: int, j: nat)
    requires j < |children| && children[j].name.Some?
    ensures var p := |Labelled(children[..j])|;
      && p < |Labelled(children)|
      && Labelled(children)[p] == Field(children[j].name.value, children[j].value)
      && (p in Positions(Labelled(children), offset) <==> p >= offset && !Excluded(children[j].name.value))
  {
    LabelledPosition(children, j);
    PositionsExactly(Labelled(children), offset);
  }

  /** `asData` lists, in order, the encoded labelled children at increasing emitted positions. */
  lemma AsDataIsOrderedSubsequence(children: seq<Child>, offset: int, json: JsonEncoder)
    ensures var fs, ps := Labelled(children), Positions(Labelled(children), offset);
      && StrictlyIncreasing(ps)
      && |AsDataOf(children, offset, json)| == |ps|
      && forall j :: 0 <= j < |ps| ==>
           AsDataOf(children, offset, json)[j] == Field(fs[ps[j]].name, Encode(fs[ps[j]].value, json))
  {
    PositionsExactly(Labelled(children), offset);
    var data := AsDataOf(children, offset, json);
    assert Labels(data) == Labels(Exposed(Labelled(children), offset));
  }

  /** Raising the offset keeps a suffix of each ordered view and never adds an entry. */
  lemma OffsetMonotone(children: seq<Child>, k1: int, k2: int, json: JsonEncoder)
    requires k1 <= k2
    ensures IsSuffix(AsDataOf(children, k2, json), AsDataOf(children, k1, json))
    ensures IsSuffix(ColsOf(children, k2), ColsOf(children, k1))
  {
    var fs := Labelled(children);
    ExposedOffsetSuffix(fs, k1, k2);
    var e1, e2 := Exposed(fs, k1), Exposed(fs, k2);
    var d := |e1| - |e2|;
    var a1, a2 := AsDataOf(children, k1, json), AsDataOf(children, k2, json);
    assert Labels(a1) == Labels(e1) && Labels(a2) == Labels(e2);
    assert a2 == a1[d..];
    assert ColsOf(children, k2) == ColsOf(children, k1)[d..];
  }

  /** `cols` and `asData` name the same fields in the same order; `cols` reports the raw value's type. */
  lemma ColsMatchesAsData(children: seq<Child>, offset: int, json: JsonEncoder)
    ensures |ColsOf(children, offset)| == |AsDataOf(children, offset, json)|
    ensures forall j :: 0 <= j < |ColsOf(children, offset)| ==>
      && ColsOf(children, offset)[j].name == AsDataOf(children, offset, json)[j].name
      && ColsOf(children, offset)[j].kind == TypeOf(Exposed(Labelled(children), offset)[j].value)
  {
    var e := Exposed(Labelled(children), offset);
    assert Labels(AsDataOf(children, offset, json)) == Labels(e);
  }

  /** The keyed view holds exactly the names of the ordered view, each with the value of its last entry. */
  lemma DictMatchesAsData(children: seq<Child>, offset: int, json: JsonEncoder)
    ensures forall l :: l in AsDataDictOf(children, offset, json) <==> l in Labels(AsDataOf(children, offset, json))
    ensures var data := AsDataOf(children, offset, json);
      forall i :: 0 <= i < |data| && (forall j :: i < j < |data| ==> data[j].name != data[i].name) ==>
        data[i].name in AsDataDictOf(children, offset, json) &&
        AsDataDictOf(children, offset, json)[data[i].name] == data[i].value
  {
    var data := AsDataOf(children, offset, json);
    ToMapKeys(data);
    forall i | 0 <= i < |data| && (forall j :: i < j < |data| ==> data[j].name != data[i].name)
      ensures data[i].name in ToMap(data) && ToMap(data)[data[i].name] == data[i].value
    {
      ToMapLastWins(data, i);
    }
  }

  /** Unlabelled children never reach a view and never move the offset counter. */
  lemma UnlabelledInvisible(a: seq<Child>, v: Value, b: seq<Child>, offset: int, json: JsonEncoder)
    ensures AsDataOf(a + [Child(None, v)] + b, offset, json) == AsDataOf(a + b, offset, json)
    ensures ColsOf(a + [Child(None, v)] + b, offset) == ColsOf(a + b, offset)
    ensures FirstKey(a + [Child(None, v)] + b) == FirstKey(a + b)
  {
    UnlabelledSkipped(a, v, b);
  }

  // ---------------------------------------------------------------------
  // Properties of the key resolver
  // ---------------------------------------------------------------------

  /** The key is the first labelled child, whatever its name. */
  lemma FirstKeyIsFirstLabelled(children: seq<Child>, j: nat)
    requires j < |children| && children[j].name.Some?
    requires forall i :: 0 <= i < j ==> children[i].name.None?
    ensures FirstKey(children) == Field(children[j].name.value, children[j].value)
  {
    LabelledNone(children[..j]);
    LabelledPosition(children, j);
  }

  /** Without labelled children the key is `("id", "unknown")`, and it is not empty. */
  lemma FirstKeyFallback(children: seq<Child>)
    requires forall i :: 0 <= i < |children| ==> children[i].name.None?
    ensures FirstKey(children) == FallbackKey
    ensures KeyEmptiness(FirstKey(children).value) == Ok(false)
  {
    LabelledNone(children);
  }

  /** A leading "_id" child is still the key, although every data view hides it. */
  lemma FirstKeyIgnoresExposure(json: JsonEncoder)
    ensures FirstKey([Child(Some("_id"), IntVal(7)), Child(Some("name"), StrVal("x"))]) == Field("_id", IntVal(7))
    ensures AsDataOf([Child(Some("_id"), IntVal(7)), Child(Some("name"), StrVal("x"))], 0, json) ==
      [Field("name", StrVal("x"))]
  {
    var key, name := Child(Some("_id"), IntVal(7)), Child(Some("name"), StrVal("x"));
    var children := [key, name];
    assert FirstKey(children) == Field("_id", IntVal(7)) by {
      FirstKeyIsFirstLabelled(children, 0);
    }
    assert AsDataOf(children, 0, json) == [Field("name", StrVal("x"))] by {
      assert Excluded("_id") && !Excluded("name");
      assert children[..0] == [] && children[..1] == [key] && children[..2] == children;
      assert Labelled([]) == [] && AsDataOf([], 0, json) == [];
      AsDataStep(children, 0, 0, json);
      assert |Labelled([key])| == 1 && AsDataOf([key], 0, json) == [];
      AsDataStep(children, 1, 0, json);
    }
  }

  // ---------------------------------------------------------------------
  // Properties of the mirror
  // ---------------------------------------------------------------------

  /** A declared property list replaces reflection entirely, in its own order. */
  lemma OverridePrecedence(reflected: seq<Child>, ps: seq<Field>, offset: int, json: JsonEncoder)
    ensures AsDataOf(MirrorChildren(reflected, Some(ps)), offset, json) == EncodeAll(Exposed(ps, offset), json)
    ensures ColsOf(MirrorChildren(reflected, Some(ps)), offset) == Columns(Exposed(ps, offset))
    ensures FirstKey(MirrorChildren(reflected, Some(ps))) == if ps == [] then FallbackKey else ps[0]
  {
  }

  /** The prefix rule still applies to a declared property list. */
  lemma OverrideStillFiltered(reflected: seq<Child>, json: JsonEncoder)
    ensures AsDataOf(MirrorChildren(reflected, Some([Field("_secret", IntVal(1))])), 0, json) == []
  {
    var ps := [Field("_secret", IntVal(1))];
    OverridePrecedence(reflected, ps, 0, json);
    PositionsExactly(ps, 0);
    assert "_" <= "_secret";
    var qs := Positions(ps, 0);
    assert 0 !in qs;
    assert qs == [];
  }
}
