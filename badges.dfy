/** The colour shown for the `remarks2` status of stock-in rows and purchase orders. */
module Badges {
  import opened Wrappers

  /** The four values the `remarks2` choice field admits. */
  const Remarks2Choices: seq<string> := ["On Hold", "For Signature", "Cancelled", "Paid"]

  /** Looks the status up in the colour table; any other value, null included, is black. */
  function Remarks2Colour(remarks2: Option<string>): (colour: string)
    ensures remarks2 == Some("On Hold") <==> colour == "#ff0000"
    ensures remarks2 == Some("For Signature") <==> colour == "#ffa500"
    ensures remarks2 == Some("Cancelled") <==> colour == "#808080"
    ensures remarks2 == Some("Paid") <==> colour == "#008000"
    ensures colour == "#000000" <==> (remarks2.None? || remarks2.value !in Remarks2Choices)
  {
    match remarks2
    case Some("On Hold") => "#ff0000"
    case Some("For Signature") => "#ffa500"
    case Some("Cancelled") => "#808080"
    case Some("Paid") => "#008000"
    case _ => "#000000"
  }
}
