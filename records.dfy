/**
 * Records and tables of the in-memory mock services. A record is a map
 * from field names to values; a table is the ordered list of records,
 * looked up by the numeric "id" field.
 */
module Records {

  datatype Value = Num(n: int) | Text(s: string) | Flag(b: bool)

  type Record = map<string, Value>

  datatype Option<T> = None | Some(value: T)

  /** The outcome of an operation that may throw an Error with a message. */
  datatype Result<T> = Ok(value: T) | Err(message: string)

  /** `record.id === id` */
  predicate HasId(r: Record, id: int) {
    "id" in r && r["id"] == Num(id)
  }

  /** The index `findIndex` returns: the first record with the id, or -1. */
  function FirstIndexOf(data: seq<Record>, id: int): (k: int)
    ensures -1 <= k < |data|
    ensures k == -1 <==> forall j :: 0 <= j < |data| ==> !HasId(data[j], id)
    ensures k >= 0 ==> HasId(data[k], id) && forall j :: 0 <= j < k ==> !HasId(data[j], id)
  {
    if data == [] then -1
    else if HasId(data[0], id) then 0
    else
      var k := FirstIndexOf(data[1..], id);
      if k == -1 then -1 else k + 1
  }

  /** `data.findIndex(r => r.id === id)`, as the scan it performs. */
  method FindIndex(data: seq<Record>, id: int) returns (index: int)
    ensures index == FirstIndexOf(data, id)
  {
    index := 0;
    while index < |data| && !HasId(data[index], id)
      invariant 0 <= index <= |data|
      invariant forall j :: 0 <= j < index ==> !HasId(data[j], id)
    {
      index := index + 1;
    }
    if index == |data| {
      index := -1;
    }
  }

  /** `data.find(r => r.id === id)`, with a missing record as None. */
  function Lookup(data: seq<Record>, id: int): (r: Option<Record>)
    ensures r.None? <==> forall j :: 0 <= j < |data| ==> !HasId(data[j], id)
    ensures r.Some? ==> HasId(r.value, id) && r.value in data
    ensures r.Some? ==> exists k :: 0 <= k < |data| && data[k] == r.value &&
                          forall j :: 0 <= j < k ==> !HasId(data[j], id)
  {
    var k := FirstIndexOf(data, id);
    if k < 0 then None else Some(data[k])
  }

  /** `{ ...fields, id, createdAt }`: the given fields, then the two stamps. */
  function Stamped(fields: Record, id: int, createdAt: string): (r: Record)
    ensures HasId(r, id) && "createdAt" in r && r["createdAt"] == Text(createdAt)
    ensures r.Keys == fields.Keys + {"id", "createdAt"}
    ensures forall f :: f in fields && f != "id" && f != "createdAt" ==> r[f] == fields[f]
  {
    fields["id" := Num(id)]["createdAt" := Text(createdAt)]
  }

  /** `{ ...current, ...updates, updatedAt }`: updates win over the record. */
  function Merged(current: Record, updates: Record, updatedAt: string): (r: Record)
    ensures r.Keys == current.Keys + updates.Keys + {"updatedAt"}
    ensures "updatedAt" in r && r["updatedAt"] == Text(updatedAt)
    ensures forall f :: f in updates && f != "updatedAt" ==> r[f] == updates[f]
    ensures forall f :: f in current && f !in updates && f != "updatedAt" ==> r[f] == current[f]
  {
    (current + updates)["updatedAt" := Text(updatedAt)]
  }

  /** The table after `update(id, updates)`: the first match is merged, nothing else moves. */
  function Updated(data: seq<Record>, id: int, updates: Record, updatedAt: string): (r: seq<Record>)
    ensures |r| == |data|
    ensures FirstIndexOf(data, id) == -1 ==> r == data
    ensures forall j :: 0 <= j < |data| && j != FirstIndexOf(data, id) ==> r[j] == data[j]
    ensures FirstIndexOf(data, id) >= 0 ==>
              r[FirstIndexOf(data, id)] == Merged(data[FirstIndexOf(data, id)], updates, updatedAt)
  {
    var k := FirstIndexOf(data, id);
    if k < 0 then data else data[k := Merged(data[k], updates, updatedAt)]
  }

  /** The table after `delete(id)`: the first match is spliced out, the rest keep their order. */
  function Deleted(data: seq<Record>, id: int): (r: seq<Record>)
    ensures FirstIndexOf(data, id) == -1 ==> r == data
    ensures FirstIndexOf(data, id) >= 0 ==>
              |r| == |data| - 1 &&
              multiset(r) + multiset{data[FirstIndexOf(data, id)]} == multiset(data)
    ensures FirstIndexOf(data, id) >= 0 ==>
              (forall j :: 0 <= j < FirstIndexOf(data, id) ==> r[j] == data[j]) &&
              (forall j :: FirstIndexOf(data, id) <= j < |r| ==> r[j] == data[j + 1])
  {
    var k := FirstIndexOf(data, id);
    if k < 0 then data
    else
      assert data == data[..k] + [data[k]] + data[k + 1..];
      data[..k] + data[k + 1..]
  }

  /** A record created with a fresh id is what a later lookup of that id finds. */
  lemma CreateThenLookup(data: seq<Record>, fields: Record, id: int, createdAt: string)
    requires forall j :: 0 <= j < |data| ==> !HasId(data[j], id)
    ensures FirstIndexOf(data + [Stamped(fields, id, createdAt)], id) == |data|
    ensures Lookup(data + [Stamped(fields, id, createdAt)], id) == Some(Stamped(fields, id, createdAt))
  {
    var grown := data + [Stamped(fields, id, createdAt)];
    assert forall j :: 0 <= j < |data| ==> grown[j] == data[j];
    assert HasId(grown[|data|], id);
  }

  /** An update that leaves the id alone keeps the record where lookups find it. */
  lemma UpdateThenLookup(data: seq<Record>, id: int, updates: Record, updatedAt: string)
    requires FirstIndexOf(data, id) >= 0
    requires "id" !in updates
    ensures FirstIndexOf(Updated(data, id, updates, updatedAt), id) == FirstIndexOf(data, id)
    ensures Lookup(Updated(data, id, updates, updatedAt), id)
              == Some(Merged(data[FirstIndexOf(data, id)], updates, updatedAt))
  {
    var k := FirstIndexOf(data, id);
    var r := Updated(data, id, updates, updatedAt);
    assert r[k]["id"] == data[k]["id"];
    assert HasId(r[k], id);
    assert forall j :: 0 <= j < k ==> r[j] == data[j];
  }

  /** Deleting the only record with an id makes later lookups of it fail. */
  lemma DeleteThenLookup(data: seq<Record>, id: int)
    requires forall i, j :: 0 <= i < j < |data| && HasId(data[i], id) ==> !HasId(data[j], id)
    ensures Lookup(Deleted(data, id), id) == None
  {
    var k := FirstIndexOf(data, id);
    var r := Deleted(data, id);
    if k >= 0 {
      forall j | 0 <= j < |r| ensures !HasId(r[j], id) {
        if j >= k {
          assert r[j] == data[j + 1];
        }
      }
    }
  }
}
