/** The add-on editor (components/AddOnEditor.tsx): the same list editing as
    the ticket editor, with its own numeric coercion and default, and with no
    minimum number of add-ons. */
module AddOnEditor {
  import opened Js
  import opened Lists
  import opened Editors

  predicate IsNumericField(field: string) {
    field == "price" || field == "minimumDonation"
  }

  /** `isNumericField ? parseFloat(value) || 0 : value`: unlike the ticket
      editor, an empty numeric input becomes 0, never `undefined`. */
  function Coerce(field: string, value: string, parse: string -> Option<real>): (r: JsValue)
    ensures IsNumericField(field) ==> r.Num? && r.n == parse(value).GetOr(0.0)
    ensures !IsNumericField(field) ==> r == Str(value)
    ensures r != Undefined
  {
    if IsNumericField(field) then Num(parse(value).GetOr(0.0)) else Str(value)
  }

  /** `handleAddOnChange(id, field, value)`: the list handed to
      `onAddOnsChange`. */
  function HandleAddOnChange(editable: seq<Record>, id: JsValue, field: string, value: string,
                             parse: string -> Option<real>): seq<Record> {
    StripIds(ChangeField(editable, id, field, Coerce(field, value, parse)))
  }

  /** The parent gets one add-on per editable add-on, in order, none with an
      `id`; the add-on with the given key has the coerced value in the named
      field, and every other field of every add-on is as it was. */
  lemma HandleAddOnChangeSpec(editable: seq<Record>, id: JsValue, field: string, value: string,
                              parse: string -> Option<real>)
    requires field != "id"
    ensures var r := HandleAddOnChange(editable, id, field, value, parse);
      && |r| == |editable|
      && (forall i :: 0 <= i < |r| ==> "id" !in r[i])
      && (forall i :: 0 <= i < |r| && Get(editable[i], "id") == id ==>
            field in r[i] && r[i][field] == Coerce(field, value, parse))
      && (forall i, k :: 0 <= i < |r| && k != "id" && !(k == field && Get(editable[i], "id") == id) ==>
            (k in r[i] <==> k in editable[i]) && (k in r[i] ==> r[i][k] == editable[i][k]))
  {
    var edited := ChangeField(editable, id, field, Coerce(field, value, parse));
    ChangeFieldSpec(editable, id, field, Coerce(field, value, parse));
    StripIdsSpec(edited);
  }

  /** `{ name: '', price: 0.00, description: '', minimumDonation: 0 }` */
  const DefaultAddOn: Record :=
    map["name" := Str(""), "price" := Num(0.0), "description" := Str(""), "minimumDonation" := Num(0.0)]

  /** `addAddOn`: the list handed to `onAddOnsChange`. */
  function AddAddOn(addOns: seq<Record>): (r: seq<Record>)
    ensures |r| == |addOns| + 1 && r[..|addOns|] == addOns && r[|addOns|] == DefaultAddOn
  {
    addOns + [DefaultAddOn]
  }

  /** `removeAddOn(i)`: the list handed to `onAddOnsChange`. */
  function RemoveAddOn(addOns: seq<Record>, i: int): seq<Record> {
    RemoveIndex(addOns, i)
  }

  /** Every add-on has a remove control, so removing drops exactly the chosen
      add-on and may leave the list empty. */
  lemma RemoveAddOnSpec(addOns: seq<Record>, i: int)
    requires 0 <= i < |addOns|
    ensures RemoveAddOn(addOns, i) == addOns[..i] + addOns[i + 1..]
    ensures |addOns| == 1 ==> RemoveAddOn(addOns, i) == []
  {
    RemoveIndexSpec(addOns, i);
  }
}
