/** The loosely typed records every collection holds: a JavaScript object is
    a map from property names to values, and the store accepts any shape. */
module Records {
  import opened Text

  /** A property value: the seeds and forms only ever store strings and
      integers. `Undefined` is what reading an absent property yields. */
  datatype Value = Str(s: string) | Num(n: int) | Undefined

  type Record = map<string, Value>

  /** `record.key`: the value of a property, `undefined` when it is absent. */
  function Field(r: Record, key: string): Value
  {
    if key in r then r[key] else Undefined
  }

  /** `String(v)`, also what a template literal `${v}` produces. */
  function ToStr(v: Value): string
  {
    match v
    case Str(x) => x
    case Num(n) => IntToString(n)
    case Undefined => "undefined"
  }

  /** `r.id === id`: strict equality, so a record whose id is missing or not
      a string never matches. */
  predicate HasId(r: Record, id: string)
  {
    "id" in r && r["id"] == Str(id)
  }

  /** `list.findIndex(i => i.id === id)`: the first matching position, or -1. */
  function IndexOfId(list: seq<Record>, id: string): (k: int)
    ensures -1 <= k < |list|
    ensures k >= 0 ==> HasId(list[k], id)
    ensures forall j :: 0 <= j < |list| && (k == -1 || j < k) ==> !HasId(list[j], id)
  {
    if list == [] then -1
    else if HasId(list[0], id) then 0
    else
      var k := IndexOfId(list[1..], id);
      if k == -1 then -1 else k + 1
  }

  /** The scan `findIndex` performs, as a loop. */
  method FindIndex(list: seq<Record>, id: string) returns (k: int)
    ensures -1 <= k < |list|
    ensures k >= 0 ==> HasId(list[k], id)
    ensures forall j :: 0 <= j < |list| && (k == -1 || j < k) ==> !HasId(list[j], id)
  {
    k := 0;
    while k < |list| && !HasId(list[k], id)
      invariant 0 <= k <= |list|
      invariant forall j :: 0 <= j < k ==> !HasId(list[j], id)
    {
      k := k + 1;
    }
    if k == |list| {
      k := -1;
    }
  }

  /** `list.find(r => r.id === id)`: the first matching record, if any. */
  function FindById(list: seq<Record>, id: string): (r: Option<Record>)
    ensures r.Some? <==> exists j :: 0 <= j < |list| && HasId(list[j], id)
    ensures r.Some? ==> r.value in list && HasId(r.value, id)
    ensures r.Some? ==> exists k :: 0 <= k < |list| && list[k] == r.value && HasId(list[k], id) &&
                                    forall j :: 0 <= j < k ==> !HasId(list[j], id)
    ensures r.Some? ==> r.value == list[IndexOfId(list, id)]
  {
    var k := IndexOfId(list, id);
    if k == -1 then None else Some(list[k])
  }

  datatype Option<T> = None | Some(value: T)

  /** `{ ...r, ...updates }`: a shallow merge where `updates` wins. */
  function Merge(r: Record, updates: Record): (m: Record)
    ensures m.Keys == r.Keys + updates.Keys
    ensures forall k :: k in updates ==> m[k] == updates[k]
    ensures forall k :: k in r && k !in updates ==> m[k] == r[k]
  {
    r + updates
  }

  /** The list after `list[idx] = { ...list[idx], ...updates }` for the first
      record with that id; the list itself when no record matches. */
  function UpdateFirst(list: seq<Record>, id: string, updates: Record): (r: seq<Record>)
    ensures |r| == |list|
    ensures IndexOfId(list, id) == -1 ==> r == list
    ensures forall j :: 0 <= j < |list| && j != IndexOfId(list, id) ==> r[j] == list[j]
    ensures IndexOfId(list, id) >= 0 ==>
      var k := IndexOfId(list, id);
      && r[k].Keys == list[k].Keys + updates.Keys
      && (forall f :: f in updates ==> r[k][f] == updates[f])
      && (forall f :: f in list[k] && f !in updates ==> r[k][f] == list[k][f])
  {
    var k := IndexOfId(list, id);
    if k == -1 then list else list[k := Merge(list[k], updates)]
  }

  /** The list after `list.splice(idx, 1)` for the first record with that id;
      the list itself when no record matches. */
  function RemoveFirst(list: seq<Record>, id: string): (r: seq<Record>)
    ensures IndexOfId(list, id) == -1 ==> r == list
    ensures IndexOfId(list, id) >= 0 ==>
      var k := IndexOfId(list, id);
      && |r| == |list| - 1
      && (forall j :: 0 <= j < k ==> r[j] == list[j])
      && (forall j :: k <= j < |r| ==> r[j] == list[j + 1])
      && multiset(r) + multiset{list[k]} == multiset(list)
  {
    var k := IndexOfId(list, id);
    if k == -1 then list
    else
      assert list == list[..k] + [list[k]] + list[k + 1..];
      list[..k] + list[k + 1..]
  }

  /** Ids are unique within a collection: no two records carry the same string id. */
  predicate IdsUnique(list: seq<Record>)
  {
    forall i, j :: 0 <= i < j < |list| && Field(list[i], "id").Str? ==> Field(list[i], "id") != Field(list[j], "id")
  }

  /** When ids are unique, deleting by id leaves no record with that id. */
  lemma RemoveFirstRemovesAll(list: seq<Record>, id: string)
    requires IdsUnique(list)
    ensures forall j :: 0 <= j < |RemoveFirst(list, id)| ==> !HasId(RemoveFirst(list, id)[j], id)
  {
    var k := IndexOfId(list, id);
    var r := RemoveFirst(list, id);
    if k >= 0 {
      forall j | 0 <= j < |r|
        ensures !HasId(r[j], id)
      {
        if j >= k {
          assert r[j] == list[j + 1];
          assert Field(list[k], "id") == Str(id);
        }
      }
    }
  }

  /** Deleting keeps ids unique. */
  lemma RemoveFirstKeepsUnique(list: seq<Record>, id: string)
    requires IdsUnique(list)
    ensures IdsUnique(RemoveFirst(list, id))
  {
    var k := IndexOfId(list, id);
    var r := RemoveFirst(list, id);
    if k >= 0 {
      forall i, j | 0 <= i < j < |r| && Field(r[i], "id").Str?
        ensures Field(r[i], "id") != Field(r[j], "id")
      {
        var i' := if i < k then i else i + 1;
        var j' := if j < k then j else j + 1;
        assert r[i] == list[i'] && r[j] == list[j'];
      }
    }
  }

  /** Updating keeps ids unique as long as the update does not change the
      matched record's id (a full-record save carries the same id back). */
  lemma UpdateFirstKeepsUnique(list: seq<Record>, id: string, updates: Record)
    requires IdsUnique(list)
    requires "id" !in updates || updates["id"] == Str(id)
    ensures IdsUnique(UpdateFirst(list, id, updates))
  {
    var k := IndexOfId(list, id);
    var r := UpdateFirst(list, id, updates);
    if k >= 0 {
      assert Field(r[k], "id") == Field(list[k], "id");
      forall j | 0 <= j < |r|
        ensures Field(r[j], "id") == Field(list[j], "id")
      {
      }
    }
  }

  /** Appending a record whose id is new keeps ids unique. */
  lemma AppendKeepsUnique(list: seq<Record>, item: Record)
    requires IdsUnique(list)
    requires forall j :: 0 <= j < |list| && Field(list[j], "id").Str? ==> Field(list[j], "id") != Field(item, "id")
    ensures IdsUnique(list + [item])
  {
  }

  /** `a` is `b` with some elements dropped and the rest kept in order. */
  predicate IsSubsequence(a: seq<Record>, b: seq<Record>)
    decreases |b|
  {
    if a == [] then true
    else if b == [] then false
    else (a[0] == b[0] && IsSubsequence(a[1..], b[1..])) || IsSubsequence(a, b[1..])
  }

  /** Dropping the head of `b` keeps `a` a subsequence of `b`. */
  lemma {:induction false} SubsequenceOfTail(a: seq<Record>, b: seq<Record>)
    requires b != [] && IsSubsequence(a, b[1..])
    ensures IsSubsequence(a, b)
  {
  }
}
