/** The user dashboard: the four statistics counted over the user's donation
    history, the status badge colour and label, and the sample history shown when
    nothing is stored. */
module Dashboard {
  import opened Wrappers
  import opened Seqs
  import opened Text

  /** A history entry; `status` is the stored string (`pending`, `approved` or
      `delivered` when written by the page). */
  datatype Donation = Donation(
    id: string,
    item: string,
    category: string,
    status: string,
    date: string,
    recipient: Option<string>)

  predicate IsDelivered(d: Donation)
  {
    d.status == "delivered"
  }

  /** `d.recipient` is truthy: present and not the empty string. */
  predicate HasRecipient(d: Donation)
  {
    d.recipient.Some? && d.recipient.value != ""
  }

  datatype Stats = Stats(total: nat, delivered: nat, childrenHelped: nat, impactPoints: nat)

  /** The `stats` array: total, delivered, children helped (entries with a
      recipient), and two impact points per delivery. */
  function ComputeStats(ds: seq<Donation>): (s: Stats)
    ensures s.total == |ds|
    ensures s.delivered <= s.total && s.childrenHelped <= s.total
    ensures s.impactPoints == 2 * s.delivered
    ensures s.delivered == 0 <==> forall i :: 0 <= i < |ds| ==> !IsDelivered(ds[i])
    ensures s.childrenHelped == 0 <==> forall i :: 0 <= i < |ds| ==> !HasRecipient(ds[i])
  {
    var delivered := |Keep(ds, IsDelivered)|;
    var helped := |Keep(ds, HasRecipient)|;
    KeepEmptyIff(ds, IsDelivered);
    KeepEmptyIff(ds, HasRecipient);
    Stats(|ds|, delivered, helped, 2 * delivered)
  }

  /** Appending one entry adds one to the total and one to each count it qualifies for. */
  lemma StatsAppend(ds: seq<Donation>, d: Donation)
    ensures ComputeStats(ds + [d]).total == ComputeStats(ds).total + 1
    ensures ComputeStats(ds + [d]).delivered == ComputeStats(ds).delivered + (if IsDelivered(d) then 1 else 0)
    ensures ComputeStats(ds + [d]).childrenHelped
      == ComputeStats(ds).childrenHelped + (if HasRecipient(d) then 1 else 0)
  {
    KeepAppend(ds, [d], IsDelivered);
    KeepAppend(ds, [d], HasRecipient);
  }

  /** `getStatusColor`: the badge classes for a status. */
  function StatusColor(status: string): (classes: string)
    ensures status !in {"delivered", "approved", "pending"} ==> classes == "text-gray-600 bg-gray-50"
  {
    if status == "delivered" then "text-green-600 bg-green-50"
    else if status == "approved" then "text-blue-600 bg-blue-50"
    else if status == "pending" then "text-yellow-600 bg-yellow-50"
    else "text-gray-600 bg-gray-50"
  }

  /** The three known statuses get three different colours, none of them the default. */
  lemma StatusColorsDistinct()
    ensures StatusColor("delivered") != StatusColor("approved")
    ensures StatusColor("delivered") != StatusColor("pending")
    ensures StatusColor("approved") != StatusColor("pending")
    ensures StatusColor("delivered") != StatusColor("other")
    ensures StatusColor("approved") != StatusColor("other")
    ensures StatusColor("pending") != StatusColor("other")
  {
    assert StatusColor("delivered")[5] == 'g';
    assert StatusColor("approved")[5] == 'b';
    assert StatusColor("pending")[5] == 'y';
    assert StatusColor("other")[5] == 'g' && StatusColor("other")[7] == 'a';
    assert StatusColor("delivered")[7] == 'e';
  }

  /** `status.charAt(0).toUpperCase() + status.slice(1)`. */
  function StatusLabel(status: string): (caption: string)
    ensures |caption| == |status|
    ensures |status| > 0 ==> caption[0] == UpperChar(status[0]) && caption[1..] == status[1..]
    ensures |status| > 0 ==> !IsLower(caption[0])
  {
    if |status| == 0 then "" else [UpperChar(status[0])] + status[1..]
  }

  lemma StatusLabelExamples()
    ensures StatusLabel("delivered") == "Delivered"
    ensures StatusLabel("pending") == "Pending"
  {
  }

  const SampleHistory: seq<Donation> := [
    Donation("1", "School Supplies Set", "Education", "delivered", "2024-01-15", Some("Emma, Age 8")),
    Donation("2", "Winter Jacket", "Clothing", "approved", "2024-01-20", None),
    Donation("3", "Birthday Party Kit", "Special Occasions", "pending", "2024-01-25", None)
  ]

  /** The mount effect: the stored history, or the three sample entries when nothing is stored. */
  function LoadHistory(saved: Option<seq<Donation>>): (ds: seq<Donation>)
    ensures saved.Some? ==> ds == saved.value
    ensures saved.None? ==> |ds| == 3
  {
    if saved.Some? then saved.value else SampleHistory
  }

  /** Exactly one sample entry is delivered, and exactly one names a recipient. */
  lemma {:induction false} SampleCounts()
    ensures |Keep(SampleHistory, IsDelivered)| == 1
    ensures |Keep(SampleHistory, HasRecipient)| == 1
  {
    var h := SampleHistory;
    var tail := h[1..];
    assert IsDelivered(h[0]) && HasRecipient(h[0]);
    assert !IsDelivered(tail[0]) && !HasRecipient(tail[0]);
    assert !IsDelivered(tail[1]) && !HasRecipient(tail[1]);
    KeepNone(tail, IsDelivered);
    KeepNone(tail, HasRecipient);
  }

  /** A dashboard with nothing stored shows 3 donations, 1 delivered, 1 child helped, 2 points. */
  lemma SeededStats()
    ensures ComputeStats(LoadHistory(None)) == Stats(3, 1, 1, 2)
  {
    SampleCounts();
  }


}
