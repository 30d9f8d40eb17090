/**
 Decoded Avro data as the audit processor sees it: a generic record is an
 ordered list of named fields, and `get(name)` answers the value of the field
 with that name, or null when the record's schema has no such field.
 */
module Avro {

  /** Java's `long`. */
  type Int64 = x: int | -0x8000_0000_0000_0000 <= x < 0x8000_0000_0000_0000

  /** Java's `int`. */
  type Int32 = x: int | -0x8000_0000 <= x < 0x8000_0000

  /** A decoded Avro datum, as a Java `Object` that may be null. */
  datatype Value =
    | Null
    | Long(longValue: Int64)
    | Int(intValue: Int32)
    | Bool(boolValue: bool)
    | Text(chars: string)
    | Array(items: seq<Value>)
    | Rec(record: Record)

  datatype Field = Field(name: string, value: Value)

  /** A `GenericData.Record`: its fields in schema order. */
  datatype Record = Record(fields: seq<Field>) {

    /** `GenericData.Record.get(String)`. */
    function Get(key: string): Value {
      Lookup(fields, key)
    }
  }

  /** True iff some field of `fields` is called `key`. */
  predicate HasField(fields: seq<Field>, key: string) {
    exists i | 0 <= i < |fields| :: fields[i].name == key
  }

  /** Avro schemas never declare two fields with one name. */
  predicate UniqueNames(fields: seq<Field>) {
    forall i, j | 0 <= i < j < |fields| :: fields[i].name != fields[j].name
  }

  /** The value of the first field called `key`; null when there is none. */
  function Lookup(fields: seq<Field>, key: string): Value {
    if |fields| == 0 then Null
    else if fields[0].name == key then fields[0].value
    else Lookup(fields[1..], key)
  }

  /**
   `get` answers null for a name the record does not have, and otherwise
   the value of a field of that name.
   */
  lemma {:induction false} LookupSpec(fields: seq<Field>, key: string)
    ensures !HasField(fields, key) ==> Lookup(fields, key) == Null
    ensures HasField(fields, key) ==>
      exists i | 0 <= i < |fields| :: fields[i].name == key && fields[i].value == Lookup(fields, key)
  {
    if |fields| > 0 && fields[0].name != key {
      LookupSpec(fields[1..], key);
      assert forall i | 0 <= i < |fields| - 1 :: fields[1..][i] == fields[i + 1];
    }
  }

  /** The fields with every field called `key` holding `v` instead. */
  function With(fields: seq<Field>, key: string, v: Value): (r: seq<Field>)
    ensures |r| == |fields|
    ensures forall i | 0 <= i < |r| :: r[i].name == fields[i].name
    ensures forall i | 0 <= i < |r| ::
      r[i].value == (if fields[i].name == key then v else fields[i].value)
  {
    if |fields| == 0 then []
    else
      var head := if fields[0].name == key then Field(key, v) else fields[0];
      [head] + With(fields[1..], key, v)
  }

  /** In a record whose names are unique, `get` finds the field of that name. */
  lemma LookupUnique(fields: seq<Field>, i: nat)
    requires UniqueNames(fields)
    requires i < |fields|
    ensures Lookup(fields, fields[i].name) == fields[i].value
  {
    LookupSpec(fields, fields[i].name);
  }

  /** Reading back a field after `With` answers the value put there. */
  lemma {:induction false} LookupWithSame(fields: seq<Field>, key: string, v: Value)
    requires HasField(fields, key)
    ensures Lookup(With(fields, key, v), key) == v
  {
    if fields[0].name != key {
      var i :| 0 <= i < |fields| && fields[i].name == key;
      assert fields[1..][i - 1].name == key;
      LookupWithSame(fields[1..], key, v);
    }
  }

  /** `With` on one field leaves every other field's value unchanged. */
  lemma {:induction false} LookupWithOther(fields: seq<Field>, key: string, v: Value, other: string)
    requires other != key
    ensures Lookup(With(fields, key, v), other) == Lookup(fields, other)
  {
    if |fields| > 0 && fields[0].name != other {
      LookupWithOther(fields[1..], key, v, other);
    }
  }

  /**
   The record with field `key` holding `v`, and nothing else changed: the
   properties use it to say what a change to one field of a message does.
   */
  function SetField(r: Record, key: string, v: Value): Record {
    Record(With(r.fields, key, v))
  }

  /** After `SetField(r, key, v)` on a field the record has, `get(key)` answers `v`. */
  lemma GetSetFieldSame(r: Record, key: string, v: Value)
    requires HasField(r.fields, key)
    ensures SetField(r, key, v).Get(key) == v
  {
    LookupWithSame(r.fields, key, v);
  }

  /** `SetField(r, key, v)` leaves what `get` answers for every other name unchanged. */
  lemma GetSetFieldOther(r: Record, key: string, v: Value)
    ensures forall k | k != key :: SetField(r, key, v).Get(k) == r.Get(k)
  {
    forall k | k != key
      ensures SetField(r, key, v).Get(k) == r.Get(k)
    {
      LookupWithOther(r.fields, key, v, k);
    }
  }

  /** A field whose value is not null is a field the record has. */
  lemma PresentHasField(r: Record, key: string)
    requires r.Get(key) != Null
    ensures HasField(r.fields, key)
  {
    LookupSpec(r.fields, key);
  }
}
