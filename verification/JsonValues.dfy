/**
  JSON values, and a coding of them as byte strings that loses nothing. The coding is not JSON
  text; it shows that codings with the round trip asked for elsewhere exist.
 */
module JsonValues {
  import opened Options

  /** Byte strings are strings of their bytes. */
  type Bytes = string

  /** A number that is not an integer is kept as the text it is written with. */
  datatype Json = Null | Bool(value: bool) | Int(n: int) | Float(text: string) | Str(s: string) | Array(items: seq<Json>) | Object(fields: map<string, Json>)

  function Tally(n: nat): Bytes {
    if n == 0 then "0" else "1" + Tally(n - 1)
  }

  /** A string behind its length. */
  function Sized(s: string): Bytes {
    Tally(|s|) + s
  }

  ghost function Encoded(j: Json): Bytes
    decreases j, 1, 0
  {
    match j
    case Null => "n"
    case Bool(value) => if value then "t" else "f"
    case Int(n) => if n < 0 then "-" + Tally(-n) else "+" + Tally(n)
    case Float(text) => "." + Sized(text)
    case Str(s) => "s" + Sized(s)
    case Array(items) => "[" + Tally(|items|) + EncodedItems(j, items)
    case Object(fields) => "{" + Tally(|fields|) + EncodedFields(j, fields)
  }

  ghost function EncodedItems(whole: Json, items: seq<Json>): Bytes
    requires forall i :: 0 <= i < |items| ==> items[i] < whole
    decreases whole, 0, |items|
  {
    if items == [] then "" else Encoded(items[0]) + EncodedItems(whole, items[1..])
  }

  /** The fields in some order, the same one for equal maps. */
  ghost function EncodedFields(whole: Json, fields: map<string, Json>): Bytes
    requires forall k :: k in fields ==> fields[k] < whole
    decreases whole, 0, |fields|
  {
    if fields == map[] then ""
    else
      var k := SomeKey(fields);
      Sized(k) + Encoded(fields[k]) + EncodedFields(whole, fields - {k})
  }

  ghost function SomeKey(fields: map<string, Json>): (k: string)
    requires fields != map[]
    ensures k in fields
  {
    var k :| k in fields;
    k
  }

  // ---------------------------------------------------------------------------------
  // No coding is the beginning of another
  // ---------------------------------------------------------------------------------

  lemma Regroup(a: Bytes, b: Bytes, c: Bytes)
    ensures a + (b + c) == a + b + c
  {
  }

  lemma {:induction false} TallyIsUnique(a: nat, b: nat, x: Bytes, y: Bytes)
    requires Tally(a) + x == Tally(b) + y
    ensures a == b && x == y
  {
    var left, right := Tally(a) + x, Tally(b) + y;
    assert left[0] == Tally(a)[0] && right[0] == Tally(b)[0];
    assert left[1..] == Tally(a)[1..] + x && right[1..] == Tally(b)[1..] + y;
    if a > 0 && b > 0 {
      assert Tally(a)[1..] == Tally(a - 1) && Tally(b)[1..] == Tally(b - 1);
      TallyIsUnique(a - 1, b - 1, x, y);
    } else if a == 0 && b == 0 {
      assert Tally(a)[1..] + x == x && Tally(b)[1..] + y == y;
    }
  }

  lemma SizedIsUnique(a: string, b: string, x: Bytes, y: Bytes)
    requires Sized(a) + x == Sized(b) + y
    ensures a == b && x == y
  {
    assert Tally(|a|) + (a + x) == Sized(a) + x && Tally(|b|) + (b + y) == Sized(b) + y;
    TallyIsUnique(|a|, |b|, a + x, b + y);
    assert a == (a + x)[..|a|] == (b + y)[..|b|] == b;
    assert x == (a + x)[|a|..] == (b + y)[|b|..] == y;
  }

  lemma {:induction false} EncodedIsUnique(a: Json, b: Json, x: Bytes, y: Bytes)
    requires Encoded(a) + x == Encoded(b) + y
    ensures a == b && x == y
    decreases a, 2, 0
  {
    var left, right := Encoded(a) + x, Encoded(b) + y;
    assert left[0] == Encoded(a)[0] && right[0] == Encoded(b)[0];
    assert left[1..] == Encoded(a)[1..] + x && right[1..] == Encoded(b)[1..] + y;
    match a {
      case Int(n) => TallyIsUnique(if n < 0 then -n else n, if b.n < 0 then -b.n else b.n, x, y);
      case Float(text) => SizedIsUnique(text, b.text, x, y);
      case Str(s) => SizedIsUnique(s, b.s, x, y);
      case Array(items) => ArrayIsUnique(a, b, x, y);
      case Object(fields) => ObjectIsUnique(a, b, x, y);
      case _ =>
    }
  }

  lemma ArrayIsUnique(a: Json, b: Json, x: Bytes, y: Bytes)
    requires a.Array? && b.Array? && Encoded(a)[1..] + x == Encoded(b)[1..] + y
    ensures a == b && x == y
    decreases a, 1, 0
  {
    var u, v := EncodedItems(a, a.items), EncodedItems(b, b.items);
    assert Encoded(a)[1..] == Tally(|a.items|) + u && Encoded(b)[1..] == Tally(|b.items|) + v;
    Regroup(Tally(|a.items|), u, x);
    Regroup(Tally(|b.items|), v, y);
    TallyIsUnique(|a.items|, |b.items|, u + x, v + y);
    ItemsAreUnique(a, b, a.items, b.items, x, y);
  }

  lemma ObjectIsUnique(a: Json, b: Json, x: Bytes, y: Bytes)
    requires a.Object? && b.Object? && Encoded(a)[1..] + x == Encoded(b)[1..] + y
    ensures a == b && x == y
    decreases a, 1, 0
  {
    var u, v := EncodedFields(a, a.fields), EncodedFields(b, b.fields);
    assert Encoded(a)[1..] == Tally(|a.fields|) + u && Encoded(b)[1..] == Tally(|b.fields|) + v;
    Regroup(Tally(|a.fields|), u, x);
    Regroup(Tally(|b.fields|), v, y);
    TallyIsUnique(|a.fields|, |b.fields|, u + x, v + y);
    FieldsAreUnique(a, b, a.fields, b.fields, x, y);
  }

  lemma {:induction false} ItemsAreUnique(wa: Json, wb: Json, a: seq<Json>, b: seq<Json>, x: Bytes, y: Bytes)
    requires forall i :: 0 <= i < |a| ==> a[i] < wa
    requires forall i :: 0 <= i < |b| ==> b[i] < wb
    requires |a| == |b| && EncodedItems(wa, a) + x == EncodedItems(wb, b) + y
    ensures a == b && x == y
    decreases wa, 0, |a|
  {
    if a == [] {
      assert "" + x == x && "" + y == y;
    } else {
      var u, v := EncodedItems(wa, a[1..]), EncodedItems(wb, b[1..]);
      assert Encoded(a[0]) + (u + x) == EncodedItems(wa, a) + x;
      assert Encoded(b[0]) + (v + y) == EncodedItems(wb, b) + y;
      EncodedIsUnique(a[0], b[0], u + x, v + y);
      ItemsAreUnique(wa, wb, a[1..], b[1..], x, y);
      assert a == [a[0]] + a[1..] && b == [b[0]] + b[1..];
    }
  }

  /** The coding of the fields but for the one that comes first. */
  ghost function OtherFields(whole: Json, fields: map<string, Json>): Bytes
    requires fields != map[] && forall k :: k in fields ==> fields[k] < whole
  {
    EncodedFields(whole, fields - {SomeKey(fields)})
  }

  lemma FirstFieldFirst(whole: Json, fields: map<string, Json>, x: Bytes)
    requires fields != map[] && forall k :: k in fields ==> fields[k] < whole
    ensures EncodedFields(whole, fields) + x
         == Sized(SomeKey(fields)) + (Encoded(fields[SomeKey(fields)]) + (OtherFields(whole, fields) + x))
  {
    var k, v, rest := Sized(SomeKey(fields)), Encoded(fields[SomeKey(fields)]), OtherFields(whole, fields);
    Regroup(k, v, rest);
    Regroup(k, v + rest, x);
    Regroup(v, rest, x);
  }

  lemma PutBack(a: map<string, Json>, b: map<string, Json>, k: string)
    requires k in a && k in b && a[k] == b[k] && a - {k} == b - {k}
    ensures a == b
  {
    forall m | m in a ensures m in b && a[m] == b[m] {
      if m != k { assert m in a - {k} && (a - {k})[m] == (b - {k})[m]; }
    }
    forall m | m in b ensures m in a {
      if m != k { assert m in b - {k}; }
    }
  }

  lemma {:induction false} FieldsAreUnique(wa: Json, wb: Json, a: map<string, Json>, b: map<string, Json>, x: Bytes, y: Bytes)
    requires forall k :: k in a ==> a[k] < wa
    requires forall k :: k in b ==> b[k] < wb
    requires |a| == |b| && EncodedFields(wa, a) + x == EncodedFields(wb, b) + y
    ensures a == b && x == y
    decreases wa, 0, |a|
  {
    if a == map[] {
      assert b == map[];
      assert "" + x == x && "" + y == y;
    } else {
      var k, m := SomeKey(a), SomeKey(b);
      var u, v := OtherFields(wa, a), OtherFields(wb, b);
      FirstFieldFirst(wa, a, x);
      FirstFieldFirst(wb, b, y);
      SizedIsUnique(k, m, Encoded(a[k]) + (u + x), Encoded(b[m]) + (v + y));
      EncodedIsUnique(a[k], b[k], u + x, v + y);
      assert |a - {k}| == |a| - 1 && |b - {k}| == |b| - 1;
      FieldsAreUnique(wa, wb, a - {k}, b - {k}, x, y);
      PutBack(a, b, k);
    }
  }

  // ---------------------------------------------------------------------------------
  // The round trip
  // ---------------------------------------------------------------------------------

  ghost function Decoded(body: Bytes): Option<Json> {
    if j :| Encoded(j) == body then Some(j) else None
  }

  lemma EncodedRoundTrip(j: Json)
    ensures Decoded(Encoded(j)) == Some(j)
  {
    var back :| Decoded(Encoded(j)) == Some(back) && Encoded(back) == Encoded(j);
    assert Encoded(j) + "" == Encoded(back) + "";
    EncodedIsUnique(j, back, "", "");
  }
}
