/** The thank-you dialog after a donation: the selected kinds spelled out by
    name, and when the certificate button appears. */
module DonationSuccess {
  import opened Wrappers
  import opened Text
  import DonatePage

  /** The dialog's id → name table; an id it does not know stands for itself. */
  function ItemName(id: string): (name: string)
    ensures id !in {"school-supplies", "clothes", "toys", "snacks", "birthday-kit"} ==> name == id
  {
    if id == "school-supplies" then "School Supplies"
    else if id == "clothes" then "Clothes"
    else if id == "toys" then "Toys"
    else if id == "snacks" then "Snacks"
    else if id == "birthday-kit" then "Birthday Kit"
    else id
  }

  /** Each known id has its display name. */
  lemma KnownItemNames()
    ensures ItemName("school-supplies") == "School Supplies"
    ensures ItemName("clothes") == "Clothes"
    ensures ItemName("toys") == "Toys"
    ensures ItemName("snacks") == "Snacks"
    ensures ItemName("birthday-kit") == "Birthday Kit"
  {
  }

  /** Every kind the donate page offers is spelled out by name, never shown as its
      raw id: the page's list and the dialog's table agree. */
  lemma OfferedItemsNamed()
    ensures forall i :: 0 <= i < |DonatePage.ItemIds| ==> ItemName(DonatePage.ItemIds[i]) != DonatePage.ItemIds[i]
  {
  }

  /** `selectedItems.map(…)`: the names in selection order. */
  function Names(selected: seq<string>): (names: seq<string>)
    ensures |names| == |selected|
    ensures forall i :: 0 <= i < |selected| ==> names[i] == ItemName(selected[i])
  {
    if |selected| == 0 then [] else [ItemName(selected[0])] + Names(selected[1..])
  }

  /** `itemNames`: the text the dialog shows, built left to right. */
  function ItemNames(selected: seq<string>): (text: string)
    ensures text == Join(Names(selected), ", ")
    ensures |selected| == 0 ==> text == ""
  {
    if |selected| == 0 then ""
    else if |selected| == 1 then ItemName(selected[0])
    else
      assert Names(selected)[1..] == Names(selected[1..]);
      ItemName(selected[0]) + ", " + ItemNames(selected[1..])
  }

  /** ItemName never yields the empty string for a non-empty id. */
  lemma ItemNameNonEmpty(id: string)
    requires id != ""
    ensures ItemName(id) != ""
  {
  }

  lemma ItemNamesExample()
    ensures ItemNames(["toys", "crayons"]) == "Toys, crayons"
  {
  }

  /** `isFirstDonation && onShowCertificate`: shown only for a first donation with
      a handler, and `isFirstDonation` defaults to false. */
  function ShowCertificate(isFirstDonation: Option<bool>, hasHandler: bool): (shown: bool)
    ensures shown <==> isFirstDonation == Some(true) && hasHandler
  {
    isFirstDonation.GetOr(false) && hasHandler
  }
}
