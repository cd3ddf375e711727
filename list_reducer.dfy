/**
 * The reducer behind `useList`: a list of plain objects with ADD, UPDATE by
 * id, REMOVE by id and CLEAR. Identifiers are compared structurally, which is
 * what `===` does on the primitive ids the hook is used with.
 */
module ListReducer {
  import opened JsValue

  type Item = Object

  datatype Action =
    | Add(item: Item)
    | Update(id: Value, data: Object)
    | Remove(id: Value)
    | Clear
      /** an action whose type is none of the four above */
    | Unknown

  /** `item.id`: undefined when the item has no such field. */
  function Id(item: Item): Value {
    Field(item, "id")
  }

  /** `{ ...item, ...data }` on one item whose id matched: data's fields win. */
  function Patch(item: Item, data: Object): (r: Item)
    ensures r.Keys == item.Keys + data.Keys
    ensures forall k :: k in data ==> r[k] == data[k]
    ensures forall k :: k in item && k !in data ==> r[k] == item[k]
  {
    item + data
  }

  /** `state.map(item => item.id === id ? { ...item, ...data } : item)` */
  function UpdateAll(state: seq<Item>, id: Value, data: Object): (r: seq<Item>)
    ensures |r| == |state|
    ensures forall i :: 0 <= i < |state| && Id(state[i]) != id ==> r[i] == state[i]
    ensures forall i :: 0 <= i < |state| && Id(state[i]) == id ==> r[i] == Patch(state[i], data)
  {
    if state == [] then []
    else
      var head := if Id(state[0]) == id then Patch(state[0], data) else state[0];
      [head] + UpdateAll(state[1..], id, data)
  }

  /** `state.filter(item => item.id !== id)` */
  function RemoveAll(state: seq<Item>, id: Value): (r: seq<Item>)
    ensures forall x :: x in r <==> x in state && Id(x) != id
    ensures |r| <= |state|
  {
    if state == [] then []
    else if Id(state[0]) != id then [state[0]] + RemoveAll(state[1..], id)
    else RemoveAll(state[1..], id)
  }

  /** The number of items of `state` whose id is `id`. */
  function CountId(state: seq<Item>, id: Value): nat {
    if state == [] then 0 else (if Id(state[0]) == id then 1 else 0) + CountId(state[1..], id)
  }

  /** The reducer passed to `useReducer`. */
  function Reduce(state: seq<Item>, action: Action): (r: seq<Item>)
    ensures action.Add? ==> |r| == |state| + 1 && r[..|state|] == state && r[|state|] == action.item
    ensures action.Update? ==> r == UpdateAll(state, action.id, action.data)
    ensures action.Remove? ==> r == RemoveAll(state, action.id)
    ensures action.Clear? ==> r == []
    ensures action.Unknown? ==> r == state
  {
    match action
    case Add(item) => state + [item]
    case Update(id, data) => UpdateAll(state, id, data)
    case Remove(id) => RemoveAll(state, id)
    case Clear => []
    case Unknown => state
  }

  /** Filtering distributes over concatenation: REMOVE keeps the surviving items in their order. */
  lemma {:induction false} RemoveAllAppend(a: seq<Item>, b: seq<Item>, id: Value)
    ensures RemoveAll(a + b, id) == RemoveAll(a, id) + RemoveAll(b, id)
  {
    if a == [] {
      assert a + b == b;
    } else {
      assert (a + b)[0] == a[0];
      assert (a + b)[1..] == a[1..] + b;
      RemoveAllAppend(a[1..], b, id);
    }
  }

  /** REMOVE drops exactly the items carrying the id: the length shrinks by their number. */
  lemma {:induction false} RemoveAllLength(state: seq<Item>, id: Value)
    ensures |RemoveAll(state, id)| == |state| - CountId(state, id)
  {
    if state != [] {
      RemoveAllLength(state[1..], id);
    }
  }

  /** Removing an id that no item carries leaves the list unchanged. */
  lemma {:induction false} RemoveAbsent(state: seq<Item>, id: Value)
    requires forall i :: 0 <= i < |state| ==> Id(state[i]) != id
    ensures RemoveAll(state, id) == state
  {
    if state != [] {
      assert state == [state[0]] + state[1..];
      RemoveAbsent(state[1..], id);
    }
  }

  /** REMOVE is idempotent. */
  lemma RemoveTwice(state: seq<Item>, id: Value)
    ensures Reduce(Reduce(state, Remove(id)), Remove(id)) == Reduce(state, Remove(id))
  {
    var once := RemoveAll(state, id);
    forall i | 0 <= i < |once| ensures Id(once[i]) != id {
      assert once[i] in once;
    }
    RemoveAbsent(once, id);
  }

  /** UPDATE of an id no item carries leaves the list unchanged. */
  lemma UpdateAbsent(state: seq<Item>, id: Value, data: Object)
    requires forall i :: 0 <= i < |state| ==> Id(state[i]) != id
    ensures Reduce(state, Update(id, data)) == state
  {
  }

  /** After ADD, REMOVE of a fresh id gives back the list plus the new item. */
  lemma AddThenRemoveOther(state: seq<Item>, item: Item, id: Value)
    requires Id(item) != id
    ensures Reduce(Reduce(state, Add(item)), Remove(id)) == RemoveAll(state, id) + [item]
  {
    RemoveAllAppend(state, [item], id);
  }
}
