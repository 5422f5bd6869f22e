/**
 The dynamic values of Go's encoding/json: what Unmarshal stores behind `any`,
 and how Marshal writes them. A decoded number is a float64; a number built in
 memory is an int until it has been on the wire.
 */
module Values {
  import opened Wrappers
  import opened Strings
  import opened Json
  import opened JsonRoundTrip

  datatype Any =
    | Nil
    | Bool(b: bool)
    | Int(n: int)
    | Float(literal: NumberLiteral)
    | Text(s: string)
    | Slice(items: seq<Any>)
    | Object(fields: Fields)

  type Fields = map<string, Any>

  // ----------------------------------------------------------------- decoding

  function FromJson(j: Json): Any
    decreases j, 0
  {
    match j
    case JNull => Nil
    case JBool(b) => Bool(b)
    case JNumber(l) => Float(l)
    case JString(s) => Text(s)
    case JArray(items) => Slice(FromItems(items))
    case JObject(members) => Object(FromMembers(members))
  }

  function FromItems(items: seq<Json>): (r: seq<Any>)
    ensures |r| == |items|
    ensures forall i :: 0 <= i < |items| ==> r[i] == FromJson(items[i])
    decreases items, 1
  {
    if items == [] then [] else [FromJson(items[0])] + FromItems(items[1..])
  }

  /** A later member overwrites an earlier one of the same name. */
  function FromMembers(members: seq<Member>): Fields
    decreases members, 1
  {
    if members == [] then map[]
    else
      var last := members[|members| - 1];
      FromMembers(members[..|members| - 1])[last.key := FromJson(last.value)]
  }

  // ----------------------------------------------------------------- encoding

  function ToJson(a: Any): Json
    decreases a, 0
  {
    match a
    case Nil => JNull
    case Bool(b) => JBool(b)
    case Int(n) => DecimalIsNumber(n); JNumber(Decimal(n))
    case Float(l) => JNumber(l)
    case Text(s) => JString(s)
    case Slice(items) => JArray(ToItems(items))
    case Object(fields) => JObject(ToMembers(a, SortedKeys(fields.Keys)))
  }

  function ToItems(items: seq<Any>): (r: seq<Json>)
    ensures |r| == |items|
    ensures forall i :: 0 <= i < |items| ==> r[i] == ToJson(items[i])
    decreases items, 1
  {
    if items == [] then [] else [ToJson(items[0])] + ToItems(items[1..])
  }

  function ToMembers(a: Any, keys: seq<string>): (r: seq<Member>)
    requires a.Object? && forall k :: k in keys ==> k in a.fields
    ensures |r| == |keys|
    ensures forall i :: 0 <= i < |keys| ==> r[i] == Member(keys[i], ToJson(a.fields[keys[i]]))
    decreases a, 0, |keys|
  {
    if keys == [] then []
    else [Member(keys[0], ToJson(a.fields[keys[0]]))] + ToMembers(a, keys[1..])
  }

  // --------------------------------------------------------------- round trip

  /** The value as it looks after a trip over the wire: every int has become a float64. */
  function Normal(a: Any): Any {
    match a
    case Int(n) => DecimalIsNumber(n); Float(Decimal(n))
    case Slice(items) => Slice(seq(|items|, i requires 0 <= i < |items| => Normal(items[i])))
    case Object(fields) => Object(map k | k in fields :: Normal(fields[k]))
    case _ => a
  }

  function NormalFields(fields: Fields): Fields {
    map k | k in fields :: Normal(fields[k])
  }

  lemma {:induction false} FromMembersLookup(members: seq<Member>)
    requires forall i, j :: 0 <= i < j < |members| ==> members[i].key != members[j].key
    ensures forall k :: k in FromMembers(members) <==> exists i :: 0 <= i < |members| && members[i].key == k
    ensures forall i :: 0 <= i < |members| ==>
      members[i].key in FromMembers(members) && FromMembers(members)[members[i].key] == FromJson(members[i].value)
  {
    if members != [] {
      var init := members[..|members| - 1];
      FromMembersLookup(init);
      forall k | k in FromMembers(members)
        ensures exists i :: 0 <= i < |members| && members[i].key == k
      {
        if k in FromMembers(init) {
          var i :| 0 <= i < |init| && init[i].key == k;
          assert members[i].key == k;
        } else {
          assert members[|members| - 1].key == k;
        }
      }
      forall i | 0 <= i < |members|
        ensures members[i].key in FromMembers(members)
        ensures FromMembers(members)[members[i].key] == FromJson(members[i].value)
      {
        if i < |init| {
          assert init[i] == members[i];
        }
      }
    }
  }

  lemma {:induction false} DecodeInvertsEncode(a: Any)
    ensures FromJson(ToJson(a)) == Normal(a)
    decreases a, 0
  {
    match a
    case Slice(items) =>
      forall i | 0 <= i < |items|
        ensures FromJson(ToJson(items[i])) == Normal(items[i])
      {
        DecodeInvertsEncode(items[i]);
      }
      assert FromItems(ToItems(items)) == Normal(a).items;
    case Object(fields) =>
      forall k | k in fields
        ensures FromJson(ToJson(fields[k])) == Normal(fields[k])
      {
        DecodeInvertsEncode(fields[k]);
      }
      ObjectRoundTrip(a);
    case _ =>
  }

  /** Members with distinct names that decode, name by name, to the entries of a map decode to that map. */
  lemma FromMembersIs(members: seq<Member>, keys: seq<string>, fields: Fields)
    requires |members| == |keys|
    requires forall i, j :: 0 <= i < j < |keys| ==> keys[i] != keys[j]
    requires forall k :: k in keys <==> k in fields
    requires forall i :: 0 <= i < |keys| ==> members[i].key == keys[i]
    requires forall i :: 0 <= i < |keys| ==> FromJson(members[i].value) == fields[keys[i]]
    ensures FromMembers(members) == fields
  {
    FromMembersLookup(members);
    var decoded := FromMembers(members);
    forall k | k in fields
      ensures k in decoded && decoded[k] == fields[k]
    {
      var i :| 0 <= i < |keys| && keys[i] == k;
      assert members[i].key == k;
    }
    forall k | k in decoded
      ensures k in fields
    {
      var i :| 0 <= i < |members| && members[i].key == k;
      assert keys[i] == k;
    }
  }

  lemma ObjectRoundTrip(a: Any)
    requires a.Object?
    requires forall k :: k in a.fields ==> FromJson(ToJson(a.fields[k])) == Normal(a.fields[k])
    ensures FromMembers(ToMembers(a, SortedKeys(a.fields.Keys))) == NormalFields(a.fields)
  {
    var keys := SortedKeys(a.fields.Keys);
    forall i, j | 0 <= i < j < |keys|
      ensures keys[i] != keys[j]
    {
      LessTotal(keys[i], keys[i]);
    }
    FromMembersIs(ToMembers(a, keys), keys, NormalFields(a.fields));
  }

  /** json.Marshal of a map. */
  function Marshal(fields: Fields): string { Print(ToJson(Object(fields))) }

  /** json.Unmarshal into a `map[string]any`: an object, or null for the nil map. */
  function Unmarshal(data: string): Option<Option<Fields>> {
    var j :- ParseJson(data);
    match j
    case JNull => Some(None)
    case JObject(members) => Some(Some(FromMembers(members)))
    case _ => None
  }

  /** Marshal then Unmarshal is the identity on every map, but for the type of its ints. */
  lemma UnmarshalInvertsMarshal(fields: Fields)
    ensures Unmarshal(Marshal(fields)) == Some(Some(NormalFields(fields)))
  {
    PrintThenParse(ToJson(Object(fields)));
    DecodeInvertsEncode(Object(fields));
    assert Normal(Object(fields)) == Object(NormalFields(fields));
  }

  // ------------------------------------------------------- already-wired values

  /** No int anywhere: the values that Unmarshal produces. */
  predicate FromWire(a: Any) {
    match a
    case Int(_) => false
    case Slice(items) => forall i :: 0 <= i < |items| ==> FromWire(items[i])
    case Object(fields) => forall k :: k in fields ==> FromWire(fields[k])
    case _ => true
  }

  predicate AllFromWire(fields: Fields) { forall k :: k in fields ==> FromWire(fields[k]) }

  lemma {:induction false} NormalKeepsWired(a: Any)
    requires FromWire(a)
    ensures Normal(a) == a
  {
    match a
    case Slice(items) =>
      forall i | 0 <= i < |items|
        ensures Normal(items[i]) == items[i]
      {
        NormalKeepsWired(items[i]);
      }
      assert Normal(a).items == items;
    case Object(fields) =>
      forall k | k in fields
        ensures Normal(fields[k]) == fields[k]
      {
        NormalKeepsWired(fields[k]);
      }
      assert Normal(a).fields == fields;
    case _ =>
  }

  lemma NormalFieldsKeepsWired(fields: Fields)
    requires AllFromWire(fields)
    ensures NormalFields(fields) == fields
  {
    forall k | k in fields
      ensures Normal(fields[k]) == fields[k]
    {
      NormalKeepsWired(fields[k]);
    }
  }

  lemma {:induction false} FromJsonIsWired(j: Json)
    ensures FromWire(FromJson(j))
    decreases j, 0
  {
    match j
    case JArray(items) =>
      forall i | 0 <= i < |items|
        ensures FromWire(FromItems(items)[i])
      {
        FromJsonIsWired(items[i]);
      }
    case JObject(members) => FromMembersIsWired(members);
    case _ =>
  }

  lemma {:induction false} FromMembersIsWired(members: seq<Member>)
    ensures AllFromWire(FromMembers(members))
    decreases members, 1
  {
    if members != [] {
      FromMembersIsWired(members[..|members| - 1]);
      FromJsonIsWired(members[|members| - 1].value);
    }
  }

  lemma UnmarshalIsWired(data: string)
    requires Unmarshal(data).Some? && Unmarshal(data).value.Some?
    ensures AllFromWire(Unmarshal(data).value.value)
  {
    FromMembersIsWired(ParseJson(data).value.members);
  }
}
