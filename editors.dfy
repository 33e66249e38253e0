/** What the ticket and add-on editors (components/TicketEditor.tsx,
    components/AddOnEditor.tsx) share: each keeps an editable copy of the
    list it is given, with a client-side `id` per element for React keys, and
    hands every edit back to its parent without that `id`. */
module Editors {
  import opened Js

  /** `currentItems[index]?.id || uuidv4()`: the element's previous key,
      when there is a truthy one at the same index, else a new uuid;
      `newId(i)` is the uuid drawn for index `i`. */
  function KeyAt(current: seq<Record>, i: nat, newId: nat -> string): JsValue {
    if i < |current| && Truthy(Get(current[i], "id")) then current[i]["id"] else Str(newId(i))
  }

  /** The id-sync effect: `items.map((item, index) => ({ ...item, id: KeyAt(...) }))`. */
  function SyncIds(items: seq<Record>, current: seq<Record>, newId: nat -> string): seq<Record> {
    seq(|items|, i requires 0 <= i < |items| => items[i]["id" := KeyAt(current, i, newId)])
  }

  /** `items.map(item => item.id === id ? { ...item, [field]: value } : item)` */
  function ChangeField(items: seq<Record>, id: JsValue, field: string, value: JsValue): seq<Record> {
    seq(|items|, i requires 0 <= i < |items| => if Get(items[i], "id") == id then items[i][field := value] else items[i])
  }

  /** `items.map(({ id, ...rest }) => rest)` */
  function StripIds(items: seq<Record>): seq<Record> {
    seq(|items|, i requires 0 <= i < |items| => items[i] - {"id"})
  }

  /** Every element has a usable key. */
  predicate Keyed(items: seq<Record>) {
    forall i :: 0 <= i < |items| ==> Truthy(Get(items[i], "id"))
  }

  /** Two records agree on every key but `id`. */
  ghost predicate SameButId(a: Record, b: Record) {
    forall k :: k != "id" ==> (k in a <==> k in b) && (k in a ==> a[k] == b[k])
  }

  /** The sync gives one element per item, in order, each keyed and
      otherwise a copy of its item; an index that had a key keeps it, and
      only a new index draws a fresh one. */
  lemma SyncIdsSpec(items: seq<Record>, current: seq<Record>, newId: nat -> string)
    requires forall i :: 0 <= i < |items| ==> newId(i) != ""
    ensures var r := SyncIds(items, current, newId);
      && |r| == |items|
      && Keyed(r)
      && (forall i :: 0 <= i < |r| ==> SameButId(r[i], items[i]))
      && (forall i :: 0 <= i < |r| && i < |current| && Truthy(Get(current[i], "id")) ==>
            r[i]["id"] == current[i]["id"])
      && (forall i :: 0 <= i < |r| && !(i < |current| && Truthy(Get(current[i], "id"))) ==>
            r[i]["id"] == Str(newId(i)))
  {
  }

  /** An edit reaches only the element with the given key, and only the
      named field of it. */
  lemma ChangeFieldSpec(items: seq<Record>, id: JsValue, field: string, value: JsValue)
    ensures var r := ChangeField(items, id, field, value);
      && |r| == |items|
      && (forall i :: 0 <= i < |r| && Get(items[i], "id") != id ==> r[i] == items[i])
      && (forall i :: 0 <= i < |r| && Get(items[i], "id") == id ==>
            field in r[i] && r[i][field] == value &&
            forall k :: k != field ==> (k in r[i] <==> k in items[i]) && (k in r[i] ==> r[i][k] == items[i][k]))
  {
  }

  /** Stripping keeps the length and order and every field but `id`. */
  lemma StripIdsSpec(items: seq<Record>)
    ensures var r := StripIds(items);
      && |r| == |items|
      && (forall i :: 0 <= i < |r| ==> "id" !in r[i] && SameButId(r[i], items[i]))
  {
  }

  lemma RestoreId(x: Record)
    requires "id" in x
    ensures (x - {"id"})["id" := x["id"]] == x
  {
  }

  /** Keys are stable across an edit: when the parent passes the edited list
      back, the sync restores exactly the edited elements with their keys. */
  lemma KeysStableAcrossEdit(items: seq<Record>, id: JsValue, field: string, value: JsValue, newId: nat -> string)
    requires Keyed(items) && field != "id"
    ensures var edited := ChangeField(items, id, field, value);
      SyncIds(StripIds(edited), edited, newId) == edited
  {
    var edited := ChangeField(items, id, field, value);
    var r := SyncIds(StripIds(edited), edited, newId);
    forall i | 0 <= i < |edited| ensures r[i] == edited[i] {
      assert Truthy(Get(edited[i], "id"));
      RestoreId(edited[i]);
    }
  }

  /** What the parent receives after a sync and a strip: the items without
      their `id` field, so a parent list without ids comes back as it was,
      and an `id` the parent's items did carry is lost. */
  lemma StripSyncIds(items: seq<Record>, current: seq<Record>, newId: nat -> string)
    ensures StripIds(SyncIds(items, current, newId)) == StripIds(items)
    ensures (forall i :: 0 <= i < |items| ==> "id" !in items[i]) ==> StripIds(items) == items
  {
    var r := SyncIds(items, current, newId);
    forall i | 0 <= i < |items| ensures r[i] - {"id"} == items[i] - {"id"} {
      assert r[i] - {"id"} == items[i] - {"id"};
    }
    if forall i :: 0 <= i < |items| ==> "id" !in items[i] {
      forall i | 0 <= i < |items| ensures items[i] - {"id"} == items[i] {
      }
    }
  }

  /** The corrected hand-back: strip the client key, then put back the `id`
      the parent's element at the same index carried. */
  function RestoreParentIds(stripped: seq<Record>, parent: seq<Record>): seq<Record> {
    seq(|stripped|, i requires 0 <= i < |stripped| =>
      if i < |parent| && "id" in parent[i] then stripped[i]["id" := parent[i]["id"]] else stripped[i])
  }

  /** With it, each element carries exactly the parent's `id`, and every
      other field is the edited one. */
  lemma RestoreParentIdsSpec(stripped: seq<Record>, parent: seq<Record>)
    requires |stripped| == |parent|
    requires forall i :: 0 <= i < |stripped| ==> "id" !in stripped[i]
    ensures var r := RestoreParentIds(stripped, parent);
      && |r| == |parent|
      && (forall i :: 0 <= i < |r| ==> Get(r[i], "id") == Get(parent[i], "id") && SameButId(r[i], stripped[i]))
  {
  }
}
