/** The ticket-option editor (components/TicketEditor.tsx): field edits with
    numeric coercion, appending a default ticket, removing one by index, and
    the sales gauge of each ticket. */
module TicketEditor {
  import opened Js
  import opened Lists
  import opened Editors

  predicate IsNumericField(field: string) {
    field == "price" || field == "minimumDonation" || field == "quantity"
  }

  /** The stored value of an input: a numeric field left empty is
      `undefined`, otherwise `parseFloat(value) || 0`; any other field keeps
      the text. `parse` is `parseFloat`, with `None` for NaN. */
  function Coerce(field: string, value: string, parse: string -> Option<real>): (r: JsValue)
    ensures IsNumericField(field) && value == "" ==> r == Undefined
    ensures IsNumericField(field) && value != "" ==> r.Num? && (parse(value).None? ==> r.n == 0.0)
    ensures IsNumericField(field) && value != "" && parse(value).Some? ==> r == Num(parse(value).value)
    ensures !IsNumericField(field) ==> r == Str(value)
  {
    if IsNumericField(field) && value != "" then Num(parse(value).GetOr(0.0))
    else if IsNumericField(field) then Undefined
    else Str(value)
  }

  /** `handleTicketChange(id, field, value)`: the list handed to
      `onTicketsChange`. */
  function HandleTicketChange(editable: seq<Record>, id: JsValue, field: string, value: string,
                              parse: string -> Option<real>): seq<Record> {
    StripIds(ChangeField(editable, id, field, Coerce(field, value, parse)))
  }

  /** The parent gets one ticket per editable ticket, in order, none with an
      `id`; the ticket with the given key has the coerced value in the named
      field, and every other field of every ticket is as it was. */
  lemma HandleTicketChangeSpec(editable: seq<Record>, id: JsValue, field: string, value: string,
                               parse: string -> Option<real>)
    requires field != "id"
    ensures var r := HandleTicketChange(editable, id, field, value, parse);
      && |r| == |editable|
      && (forall i :: 0 <= i < |r| ==> "id" !in r[i])
      && (forall i :: 0 <= i < |r| && Get(editable[i], "id") == id ==>
            field in r[i] && r[i][field] == Coerce(field, value, parse))
      && (forall i, k :: 0 <= i < |r| && k != "id" && !(k == field && Get(editable[i], "id") == id) ==>
            (k in r[i] <==> k in editable[i]) && (k in r[i] ==> r[i][k] == editable[i][k]))
  {
    var edited := ChangeField(editable, id, field, Coerce(field, value, parse));
    ChangeFieldSpec(editable, id, field, Coerce(field, value, parse));
    StripIdsSpec(edited);
  }

  /** The backend id of a ticket loaded from the API does not survive an
      edit: the one ticket below carries id "t1", and after its type is
      changed the list handed back has no `id` at all. */
  lemma EditDropsBackendId(parse: string -> Option<real>, newId: nat -> string)
    ensures var tickets := [map["id" := Str("t1"), "type" := Str("GA")]];
      var editable := SyncIds(tickets, [], newId);
      var r := HandleTicketChange(editable, Str(newId(0)), "type", "VIP", parse);
      |r| == 1 && "id" !in r[0] && r[0]["type"] == Str("VIP")
  {
    var tickets := [map["id" := Str("t1"), "type" := Str("GA")]];
    var editable := SyncIds(tickets, [], newId);
    assert editable[0] == map["id" := Str(newId(0)), "type" := Str("GA")];
  }

  /** The corrected handler: as above, then each ticket gets back the `id`
      of the parent's ticket at its index. */
  function HandleTicketChangeKeepingIds(tickets: seq<Record>, editable: seq<Record>, id: JsValue, field: string,
                                        value: string, parse: string -> Option<real>): seq<Record> {
    RestoreParentIds(HandleTicketChange(editable, id, field, value, parse), tickets)
  }

  /** With it an edit keeps every backend id and still changes only the named
      field of the ticket with the given key. */
  lemma HandleTicketChangeKeepingIdsSpec(tickets: seq<Record>, editable: seq<Record>, id: JsValue, field: string,
                                         value: string, parse: string -> Option<real>)
    requires |editable| == |tickets| && field != "id"
    ensures var r := HandleTicketChangeKeepingIds(tickets, editable, id, field, value, parse);
      && |r| == |tickets|
      && (forall i :: 0 <= i < |r| ==> Get(r[i], "id") == Get(tickets[i], "id"))
      && (forall i :: 0 <= i < |r| && Get(editable[i], "id") == id ==>
            field in r[i] && r[i][field] == Coerce(field, value, parse))
      && (forall i, k :: 0 <= i < |r| && k != "id" && !(k == field && Get(editable[i], "id") == id) ==>
            (k in r[i] <==> k in editable[i]) && (k in r[i] ==> r[i][k] == editable[i][k]))
  {
    var stripped := HandleTicketChange(editable, id, field, value, parse);
    HandleTicketChangeSpec(editable, id, field, value, parse);
    RestoreParentIdsSpec(stripped, tickets);
  }

  /** `{ type: '', price: 0.00, description: '', minimumDonation: 0, quantity: 100 }` */
  const DefaultTicket: Record :=
    map["type" := Str(""), "price" := Num(0.0), "description" := Str(""),
        "minimumDonation" := Num(0.0), "quantity" := Num(100.0)]

  /** `addTicket`: the list handed to `onTicketsChange`. */
  function AddTicket(tickets: seq<Record>): (r: seq<Record>)
    ensures |r| == |tickets| + 1 && r[..|tickets|] == tickets && r[|tickets|] == DefaultTicket
  {
    tickets + [DefaultTicket]
  }

  /** `removeTicket(i)`: the list handed to `onTicketsChange`. */
  function RemoveTicket(tickets: seq<Record>, i: int): seq<Record> {
    RemoveIndex(tickets, i)
  }

  /** The remove control is rendered only when there is more than one
      ticket. */
  predicate CanRemove(tickets: seq<Record>) {
    |tickets| > 1
  }

  /** Removing through the control drops exactly the chosen ticket, keeps
      the rest in order, and never empties the list. */
  lemma RemoveTicketSpec(tickets: seq<Record>, i: int)
    requires CanRemove(tickets) && 0 <= i < |tickets|
    ensures RemoveTicket(tickets, i) == tickets[..i] + tickets[i + 1..]
    ensures |RemoveTicket(tickets, i)| == |tickets| - 1 >= 1
  {
    RemoveIndexSpec(tickets, i);
  }

  /** A count as the gauge reads it: `ticket.sold || 0`, `ticket.quantity || 0`
      (the fields hold numbers, or are absent or `undefined`). */
  function CountOf(v: JsValue): real {
    if v.Num? then v.n else 0.0
  }

  /** `maxCount > 0 ? Math.min((soldCount / maxCount) * 100, 100) : 0` */
  function SalesPercentage(sold: real, max: real): real {
    if max > 0.0 then (var p := sold / max * 100.0; if p <= 100.0 then p else 100.0) else 0.0
  }

  /** The gauge of one editable ticket. */
  function TicketSalesPercentage(ticket: Record): real {
    SalesPercentage(CountOf(Get(ticket, "sold")), CountOf(Get(ticket, "quantity")))
  }

  /** The badge, shown when `maxCount > 0`, reads "SOLD OUT" at 100%. */
  predicate SoldOut(sold: real, max: real) {
    SalesPercentage(sold, max) >= 100.0
  }

  /** For a non-negative sold count the gauge stays within 0..100, and a
      ticket is sold out exactly when it has a capacity and the sold count
      has reached it. */
  lemma SalesPercentageBounds(sold: real, max: real)
    requires sold >= 0.0
    ensures 0.0 <= SalesPercentage(sold, max) <= 100.0
    ensures SoldOut(sold, max) <==> max > 0.0 && sold >= max
  {
    if max > 0.0 {
      var q := sold / max;
      assert q * max == sold;
      if q >= 1.0 {
        assert q * max >= 1.0 * max;
      } else {
        assert q * max < 1.0 * max;
      }
    }
  }
}
