/**
 * The value encoder of the StORM base class: string-keyed maps become JSON
 * text, string lists become one comma-separated string, everything else
 * passes through. Also the keyed view's map building (last write wins).
 */
module Encoding {
  import opened Fields

  /** The JSON text encoder for string-keyed maps: a foreign library call, kept abstract. */
  type JsonEncoder = map<string, Value> -> string

  /** The separator `asData` and `asDataDict` join string lists with. */
  const ListSeparator: char := ','

  /** Swift's `joined(separator:)`: the parts with `sep` between each two neighbours. */
  function Join(parts: seq<string>, sep: string): (r: string)
    ensures |parts| == 0 ==> r == ""
    ensures |parts| >= 1 ==> parts[0] <= r
    ensures |parts| >= 1 ==> |r| == TotalLength(parts) + (|parts| - 1) * |sep|
  {
    if |parts| == 0 then ""
    else if |parts| == 1 then parts[0]
    else parts[0] + sep + Join(parts[1..], sep)
  }

  /** The number of characters in all the parts together. */
  function TotalLength(parts: seq<string>): nat
  {
    if |parts| == 0 then 0 else |parts[0]| + TotalLength(parts[1..])
  }

  /** Splitting at every occurrence of `sep`: the reference that shows what Join keeps and loses. */
  function Split(s: string, sep: char): (parts: seq<string>)
    ensures |parts| >= 1
  {
    if |s| == 0 then [""]
    else
      var rest := Split(s[1..], sep);
      if s[0] == sep then [""] + rest else [[s[0]] + rest[0]] + rest[1..]
  }

  /** A value the storage layer takes as it is: neither a string list nor a map. */
  predicate Storable(v: Value)
  {
    !v.StrList? && !v.StrMap?
  }

  /** The per-value encoding applied by both data views. */
  function Encode(v: Value, json: JsonEncoder): (r: Value)
    ensures Storable(r)
    ensures Storable(v) ==> r == v
  {
    match v
    case StrMap(m) => StrVal(json(m))
    case StrList(xs) => StrVal(Join(xs, [ListSeparator]))
    case _ => v
  }

  /** Every field with its value encoded, names and order kept. */
  function EncodeAll(fields: seq<Field>, json: JsonEncoder): (r: seq<Field>)
    ensures Labels(r) == Labels(fields)
    ensures forall j :: 0 <= j < |fields| ==> r[j].value == Encode(fields[j].value, json)
  {
    seq(|fields|, j requires 0 <= j < |fields| => Field(fields[j].name, Encode(fields[j].value, json)))
  }

  /** Every field paired with the type of its raw value, names and order kept. */
  function Columns(fields: seq<Field>): (r: seq<Column>)
    ensures |r| == |fields|
    ensures forall j :: 0 <= j < |fields| ==> r[j] == Column(fields[j].name, TypeOf(fields[j].value))
  {
    seq(|fields|, j requires 0 <= j < |fields| => Column(fields[j].name, TypeOf(fields[j].value)))
  }

  /** The dictionary built by assigning the fields one after another. */
  function ToMap(fields: seq<Field>): map<string, Value>
  {
    if fields == [] then map[]
    else
      var n := |fields| - 1;
      ToMap(fields[..n])[fields[n].name := fields[n].value]
  }

  lemma EncodeAllSnoc(fields: seq<Field>, f: Field, json: JsonEncoder)
    ensures EncodeAll(fields + [f], json) == EncodeAll(fields, json) + [Field(f.name, Encode(f.value, json))]
  {
    assert EncodeAll(fields + [f], json)[..|fields|] == EncodeAll(fields, json);
  }

  lemma ColumnsSnoc(fields: seq<Field>, f: Field)
    ensures Columns(fields + [f]) == Columns(fields) + [Column(f.name, TypeOf(f.value))]
  {
    assert Columns(fields + [f])[..|fields|] == Columns(fields);
  }

  /** Assigning one more field is one more dictionary update. */
  lemma ToMapSnoc(fields: seq<Field>, f: Field)
    ensures ToMap(fields + [f]) == ToMap(fields)[f.name := f.value]
  {
    assert (fields + [f])[..|fields|] == fields;
  }

  // ---------------------------------------------------------------------
  // The comma join
  // ---------------------------------------------------------------------

  lemma {:induction false} SplitPlain(a: string, sep: char)
    requires sep !in a
    ensures Split(a, sep) == [a]
  {
    if |a| > 0 {
      SplitPlain(a[1..], sep);
      assert [a[0]] + a[1..] == a;
    }
  }

  lemma {:induction false} SplitAfterPlain(a: string, sep: char, b: string)
    requires sep !in a
    ensures Split(a + [sep] + b, sep) == [a] + Split(b, sep)
  {
    if |a| == 0 {
      assert a + [sep] + b == [sep] + b;
      assert ([sep] + b)[1..] == b;
    } else {
      var s := a + [sep] + b;
      assert s[1..] == a[1..] + [sep] + b;
      SplitAfterPlain(a[1..], sep, b);
      assert [a[0]] + a[1..] == a;
    }
  }

  /** Join loses nothing when the list is non-empty and no element contains the separator. */
  lemma {:induction false} JoinSplitRoundTrip(parts: seq<string>, sep: char)
    requires |parts| >= 1
    requires forall j :: 0 <= j < |parts| ==> sep !in parts[j]
    ensures Split(Join(parts, [sep]), sep) == parts
  {
    if |parts| == 1 {
      SplitPlain(parts[0], sep);
    } else {
      JoinSplitRoundTrip(parts[1..], sep);
      SplitAfterPlain(parts[0], sep, Join(parts[1..], [sep]));
      assert [parts[0]] + parts[1..] == parts;
    }
  }

  // ---------------------------------------------------------------------
  // The encoder
  // ---------------------------------------------------------------------

  /** Two comma-free, non-empty string lists that encode alike are the same list. */
  lemma EncodeListInjective(xs: seq<string>, ys: seq<string>, json: JsonEncoder)
    requires |xs| >= 1 && |ys| >= 1
    requires forall j :: 0 <= j < |xs| ==> ListSeparator !in xs[j]
    requires forall j :: 0 <= j < |ys| ==> ListSeparator !in ys[j]
    requires Encode(StrList(xs), json) == Encode(StrList(ys), json)
    ensures xs == ys
  {
    JoinSplitRoundTrip(xs, ListSeparator);
    JoinSplitRoundTrip(ys, ListSeparator);
  }

  /** The documented loss: an element holding a comma is indistinguishable from two elements. */
  lemma EncodeListLossy(json: JsonEncoder)
    ensures Encode(StrList(["a,b", "c"]), json) == StrVal("a,b,c")
    ensures Encode(StrList(["a", "b", "c"]), json) == StrVal("a,b,c")
    ensures Encode(StrList([]), json) == Encode(StrList([""]), json) == StrVal("")
  {
    assert Join(["c"], ",") == "c";
    assert Join(["b", "c"], ",") == "b,c";
  }

  /** A string-keyed map becomes the encoder's JSON text, nothing else. */
  lemma EncodeMapIsJson(m: map<string, Value>, json: JsonEncoder)
    ensures Encode(StrMap(m), json) == StrVal(json(m))
  {
  }

  // ---------------------------------------------------------------------
  // The keyed view
  // ---------------------------------------------------------------------

  /** The dictionary's keys are exactly the names of the fields assigned into it. */
  lemma {:induction false} ToMapKeys(fields: seq<Field>)
    ensures forall l :: l in ToMap(fields) <==> l in Labels(fields)
  {
    if fields != [] {
      var n := |fields| - 1;
      ToMapKeys(fields[..n]);
      assert Labels(fields) == Labels(fields[..n]) + [fields[n].name];
    }
  }

  /** Each key holds the value of the last field carrying that name. */
  lemma {:induction false} ToMapLastWins(fields: seq<Field>, i: nat)
    requires i < |fields|
    requires forall j :: i < j < |fields| ==> fields[j].name != fields[i].name
    ensures fields[i].name in ToMap(fields) && ToMap(fields)[fields[i].name] == fields[i].value
  {
    var n := |fields| - 1;
    if i < n {
      ToMapLastWins(fields[..n], i);
    }
  }
}
