/** The Kindness Exchange board: a list of donated items and a list of need
    requests, a four-way filter over each, append-only creation by the signed-in
    user, and the two status changes the page performs (a donation becomes
    pending when someone asks for it, a request becomes matched when someone
    offers to fill it). */
module Exchange {
  import opened Wrappers
  import opened Seqs
  import opened Text
  import Auth

  datatype Urgency = Low | Medium | High

  /** The string the page stores and compares for an urgency. */
  function UrgencyName(u: Urgency): string
  {
    match u
    case Low => "low"
    case Medium => "medium"
    case High => "high"
  }

  /** `'available' | 'claimed' | 'pending'`; only `available → pending` is ever written. */
  datatype DonationStatus = Available | Pending | Claimed

  /** `'open' | 'matched' | 'fulfilled'`; only `open → matched` is ever written. */
  datatype RequestStatus = Open | Matched | Fulfilled

  datatype DonationItem = DonationItem(
    id: string,
    title: string,
    description: string,
    category: string,
    location: Option<string>,
    donorName: string,
    donorId: string,
    status: DonationStatus,
    imageUrl: Option<string>,
    createdAt: string,
    urgency: Option<Urgency>)

  datatype NeedRequest = NeedRequest(
    id: string,
    title: string,
    description: string,
    category: string,
    childAge: Option<int>,
    reason: string,
    requesterName: string,
    requesterId: string,
    isAnonymous: bool,
    status: RequestStatus,
    urgency: Urgency,
    createdAt: string)

  /** The selector value that switches a category or urgency filter off. */
  const All: string := "all"

  /** The page's filter state: search box, category selector, urgency selector. */
  datatype Filters = Filters(searchTerm: string, category: string, urgency: string)

  /** The filter state a fresh page starts with. */
  const NoFilters: Filters := Filters("", All, All)

  // ---------------------------------------------------------------------------
  // Filtering

  /** Case-insensitive substring match of the search term in title or description. */
  predicate SearchMatches(title: string, description: string, term: string)
  {
    Contains(ToLower(title), ToLower(term)) || Contains(ToLower(description), ToLower(term))
  }

  predicate CategoryMatches(selected: string, category: string)
  {
    selected == All || category == selected
  }

  /** `selected === 'all' || item.urgency === selected`; an absent urgency equals no selector value. */
  predicate UrgencyMatches(selected: string, urgency: Option<Urgency>)
  {
    selected == All || (urgency.Some? && UrgencyName(urgency.value) == selected)
  }

  predicate DonationShown(f: Filters, d: DonationItem)
  {
    && SearchMatches(d.title, d.description, f.searchTerm)
    && CategoryMatches(f.category, d.category)
    && UrgencyMatches(f.urgency, d.urgency)
    && d.status == Available
  }

  predicate RequestShown(f: Filters, r: NeedRequest)
  {
    && SearchMatches(r.title, r.description, f.searchTerm)
    && CategoryMatches(f.category, r.category)
    && UrgencyMatches(f.urgency, Some(r.urgency))
    && r.status == Open
  }

  /** `filteredDonations`: the shown donations, in board order. */
  function FilteredDonations(ds: seq<DonationItem>, f: Filters): (r: seq<DonationItem>)
    ensures IsSubsequence(r, ds)
    ensures forall i :: 0 <= i < |r| ==> DonationShown(f, r[i])
    ensures forall i :: 0 <= i < |ds| && DonationShown(f, ds[i]) ==> ds[i] in r
    ensures multiset(r) <= multiset(ds)
    ensures forall i :: 0 <= i < |ds| && DonationShown(f, ds[i]) ==> multiset(r)[ds[i]] == multiset(ds)[ds[i]]
  {
    KeepIsSubsequence(ds, d => DonationShown(f, d));
    Keep(ds, d => DonationShown(f, d))
  }

  /** `filteredRequests`: the shown requests, in board order. */
  function FilteredRequests(rs: seq<NeedRequest>, f: Filters): (r: seq<NeedRequest>)
    ensures IsSubsequence(r, rs)
    ensures forall i :: 0 <= i < |r| ==> RequestShown(f, r[i])
    ensures forall i :: 0 <= i < |rs| && RequestShown(f, rs[i]) ==> rs[i] in r
    ensures multiset(r) <= multiset(rs)
    ensures forall i :: 0 <= i < |rs| && RequestShown(f, rs[i]) ==> multiset(r)[rs[i]] == multiset(rs)[rs[i]]
  {
    KeepIsSubsequence(rs, r => RequestShown(f, r));
    Keep(rs, r => RequestShown(f, r))
  }

  /** A listed donation survives the filter exactly when all four conditions hold. */
  lemma DonationFilterIff(ds: seq<DonationItem>, f: Filters, d: DonationItem)
    requires d in ds
    ensures d in FilteredDonations(ds, f) <==>
      && (Contains(ToLower(d.title), ToLower(f.searchTerm)) || Contains(ToLower(d.description), ToLower(f.searchTerm)))
      && (f.category == All || d.category == f.category)
      && (f.urgency == All || (d.urgency.Some? && UrgencyName(d.urgency.value) == f.urgency))
      && d.status == Available
  {
  }

  /** A listed request survives the filter exactly when all four conditions hold. */
  lemma RequestFilterIff(rs: seq<NeedRequest>, f: Filters, r: NeedRequest)
    requires r in rs
    ensures r in FilteredRequests(rs, f) <==>
      && (Contains(ToLower(r.title), ToLower(f.searchTerm)) || Contains(ToLower(r.description), ToLower(f.searchTerm)))
      && (f.category == All || r.category == f.category)
      && (f.urgency == All || UrgencyName(r.urgency) == f.urgency)
      && r.status == Open
  {
  }

  /** With an empty search and both selectors on `all`, the view is exactly the
      available donations in board order. */
  lemma UnfilteredDonations(ds: seq<DonationItem>)
    ensures FilteredDonations(ds, NoFilters) == Keep(ds, (d: DonationItem) => d.status == Available)
  {
    forall i | 0 <= i < |ds|
      ensures DonationShown(NoFilters, ds[i]) == (ds[i].status == Available)
    {
      ContainsEmpty(ToLower(ds[i].title));
    }
    KeepCongruent(ds, d => DonationShown(NoFilters, d), (d: DonationItem) => d.status == Available);
  }

  /** With an empty search and both selectors on `all`, the view is exactly the
      open requests in board order. */
  lemma UnfilteredRequests(rs: seq<NeedRequest>)
    ensures FilteredRequests(rs, NoFilters) == Keep(rs, (r: NeedRequest) => r.status == Open)
  {
    forall i | 0 <= i < |rs|
      ensures RequestShown(NoFilters, rs[i]) == (rs[i].status == Open)
    {
      ContainsEmpty(ToLower(rs[i].title));
    }
    KeepCongruent(rs, r => RequestShown(NoFilters, r), (r: NeedRequest) => r.status == Open);
  }

  /** A donation without an urgency disappears as soon as an urgency is selected. */
  lemma NoUrgencyHidden(ds: seq<DonationItem>, f: Filters, d: DonationItem)
    requires d.urgency.None? && f.urgency != All
    ensures d !in FilteredDonations(ds, f)
  {
  }

  // ---------------------------------------------------------------------------
  // Creating listings

  /** The short display name: the first space-separated word, a space, the first
      letter of the second word (nothing if there is none), and a full stop. */
  function ShortName(name: string): (r: string)
    ensures |r| >= 2 && r[|r| - 1] == '.'
    ensures StartsWith(r, Split(name, ' ')[0] + " ")
    ensures StartsWith(name, Split(name, ' ')[0]) && ' ' !in Split(name, ' ')[0]
  {
    SplitHead(name, ' ');
    var words := Split(name, ' ');
    var initial := if |words| > 1 && |words[1]| > 0 then [words[1][0]] else "";
    words[0] + " " + initial + "."
  }

  /** A name without a space keeps its whole self and gets an empty initial. */
  lemma ShortNameOneWord(name: string)
    requires ' ' !in name
    ensures ShortName(name) == name + " ."
  {
    SplitWithoutSeparator(name, ' ');
  }

  /** For a name `first rest`, the short name is `first`, a space, the first
      character of `rest` unless `rest` is empty or starts with another space,
      and a full stop. */
  lemma ShortNameShape(first: string, rest: string)
    requires ' ' !in first
    ensures ShortName(first + " " + rest) ==
      first + " " + (if |rest| > 0 && rest[0] != ' ' then [rest[0]] else "") + "."
  {
    SplitAfterWord(first, ' ', rest);
    SplitHead(rest, ' ');
  }

  /** Splitting `a + sep + b` with no separator in `a` gives `a` followed by the parts of `b`. */
  lemma {:induction false} SplitAfterWord(a: string, sep: char, b: string)
    requires sep !in a
    ensures Split(a + [sep] + b, sep) == [a] + Split(b, sep)
    decreases |a|
  {
    if |a| == 0 {
      assert a + [sep] + b == [sep] + b;
      assert ([sep] + b)[1..] == b;
    } else {
      var s := a + [sep] + b;
      assert s[0] == a[0] && s[1..] == a[1..] + [sep] + b;
      SplitAfterWord(a[1..], sep, b);
      assert [a[0]] + a[1..] == a;
    }
  }

  /** A two-word name keeps the first word and the second word's initial. */
  lemma ShortNameTwoWords()
    ensures ShortName("Jane Doe") == "Jane D."
  {
    ShortNameShape("Jane", "Doe");
    assert "Jane" + " " + "Doe" == "Jane Doe";
  }

  /** A one-word name keeps a space before the full stop. */
  lemma ShortNameMononym()
    ensures ShortName("Madonna") == "Madonna ."
  {
    ShortNameOneWord("Madonna");
  }

  /** The fields `AddDonationModal` hands to `handleAddDonation`. */
  datatype DonationDraft = DonationDraft(
    title: string,
    description: string,
    category: string,
    location: Option<string>,
    urgency: Option<Urgency>)

  /** The fields `AddRequestModal` hands to `handleAddRequest`. */
  datatype RequestDraft = RequestDraft(
    title: string,
    description: string,
    category: string,
    childAge: Option<int>,
    reason: string,
    urgency: Urgency,
    isAnonymous: bool)

  /** `handleAddDonation`: without a user nothing happens; otherwise one available
      item owned by the user is appended and every earlier item stays put. */
  function AddDonation(user: Option<Auth.User>, ds: seq<DonationItem>, draft: DonationDraft,
                       id: string, createdAt: string): (r: seq<DonationItem>)
    ensures user.None? ==> r == ds
    ensures user.Some? ==> |r| == |ds| + 1 && r[..|ds|] == ds
    ensures user.Some? ==>
      && r[|ds|].status == Available
      && r[|ds|].donorId == user.value.id
      && r[|ds|].donorName == ShortName(user.value.name)
      && r[|ds|].id == id && r[|ds|].createdAt == createdAt
      && r[|ds|].title == draft.title && r[|ds|].description == draft.description
      && r[|ds|].category == draft.category && r[|ds|].location == draft.location
      && r[|ds|].urgency == draft.urgency && r[|ds|].imageUrl.None?
  {
    match user
    case None => ds
    case Some(u) =>
      ds + [DonationItem(id, draft.title, draft.description, draft.category, draft.location,
                         ShortName(u.name), u.id, Available, None, createdAt, draft.urgency)]
  }

  /** `handleAddRequest`: without a user nothing happens; otherwise one open request
      owned by the user is appended, named `Anonymous` exactly when the draft asks
      for anonymity, and every earlier request stays put. */
  function AddRequest(user: Option<Auth.User>, rs: seq<NeedRequest>, draft: RequestDraft,
                      id: string, createdAt: string): (r: seq<NeedRequest>)
    ensures user.None? ==> r == rs
    ensures user.Some? ==> |r| == |rs| + 1 && r[..|rs|] == rs
    ensures user.Some? ==>
      && r[|rs|].status == Open
      && r[|rs|].requesterId == user.value.id
      && (r[|rs|].requesterName == "Anonymous" <==> draft.isAnonymous)
      && (!draft.isAnonymous ==> r[|rs|].requesterName == ShortName(user.value.name))
      && r[|rs|].id == id && r[|rs|].createdAt == createdAt
      && r[|rs|].title == draft.title && r[|rs|].description == draft.description
      && r[|rs|].category == draft.category && r[|rs|].childAge == draft.childAge
      && r[|rs|].reason == draft.reason && r[|rs|].urgency == draft.urgency
      && r[|rs|].isAnonymous == draft.isAnonymous
  {
    match user
    case None => rs
    case Some(u) =>
      var name := if draft.isAnonymous then "Anonymous" else ShortName(u.name);
      assert "Anonymous"[8] != '.';
      rs + [NeedRequest(id, draft.title, draft.description, draft.category, draft.childAge,
                        draft.reason, name, u.id, draft.isAnonymous, Open, draft.urgency, createdAt)]
  }

  // ---------------------------------------------------------------------------
  // Status changes

  /** The `map` in `handleRequestItem`: every donation with the given id becomes
      pending, every other donation and the length stay as they were. */
  function MarkPending(ds: seq<DonationItem>, id: string): (r: seq<DonationItem>)
    ensures |r| == |ds|
    ensures forall i :: 0 <= i < |ds| && ds[i].id == id ==>
      r[i].status == Pending && r[i].(status := ds[i].status) == ds[i]
    ensures forall i :: 0 <= i < |ds| && ds[i].id != id ==> r[i] == ds[i]
  {
    if |ds| == 0 then []
    else
      var head := if ds[0].id == id then ds[0].(status := Pending) else ds[0];
      [head] + MarkPending(ds[1..], id)
  }

  /** The `map` in `handleDonateToRequest`: every request with the given id becomes
      matched, every other request and the length stay as they were. */
  function MarkMatched(rs: seq<NeedRequest>, id: string): (r: seq<NeedRequest>)
    ensures |r| == |rs|
    ensures forall i :: 0 <= i < |rs| && rs[i].id == id ==>
      r[i].status == Matched && r[i].(status := rs[i].status) == rs[i]
    ensures forall i :: 0 <= i < |rs| && rs[i].id != id ==> r[i] == rs[i]
  {
    if |rs| == 0 then []
    else
      var head := if rs[0].id == id then rs[0].(status := Matched) else rs[0];
      [head] + MarkMatched(rs[1..], id)
  }

  /** `handleRequestItem(item, requestData)`: every donation carrying the chosen
      item's id becomes pending and nothing else changes; the request form's
      contents play no part. */
  function HandleRequestItem<D>(ds: seq<DonationItem>, item: DonationItem, requestData: D)
    : (r: seq<DonationItem>)
    ensures |r| == |ds|
    ensures forall i :: 0 <= i < |ds| && ds[i].id == item.id ==> r[i] == ds[i].(status := Pending)
    ensures forall i :: 0 <= i < |ds| && ds[i].id != item.id ==> r[i] == ds[i]
  {
    MarkPending(ds, item.id)
  }

  /** `handleDonateToRequest(request, donationData)`: every request carrying the
      chosen request's id becomes matched and nothing else changes; the offer
      form's contents play no part. */
  function HandleDonateToRequest<D>(rs: seq<NeedRequest>, request: NeedRequest, donationData: D)
    : (r: seq<NeedRequest>)
    ensures |r| == |rs|
    ensures forall i :: 0 <= i < |rs| && rs[i].id == request.id ==> r[i] == rs[i].(status := Matched)
    ensures forall i :: 0 <= i < |rs| && rs[i].id != request.id ==> r[i] == rs[i]
  {
    MarkMatched(rs, request.id)
  }

  /** After a donation is requested, the filtered view is the old view with that
      id removed and nothing else changed. */
  lemma {:induction false} RequestedDonationLeavesView(ds: seq<DonationItem>, f: Filters, id: string)
    ensures FilteredDonations(MarkPending(ds, id), f)
      == Keep(FilteredDonations(ds, f), (d: DonationItem) => d.id != id)
  {
    if |ds| > 0 {
      RequestedDonationLeavesView(ds[1..], f, id);
      var m := MarkPending(ds, id);
      assert m[1..] == MarkPending(ds[1..], id);
      if ds[0].id == id {
        assert !DonationShown(f, m[0]);
      } else {
        assert m[0] == ds[0];
      }
    }
  }

  /** After a request is answered, the filtered view is the old view with that id
      removed and nothing else changed. */
  lemma {:induction false} AnsweredRequestLeavesView(rs: seq<NeedRequest>, f: Filters, id: string)
    ensures FilteredRequests(MarkMatched(rs, id), f)
      == Keep(FilteredRequests(rs, f), (r: NeedRequest) => r.id != id)
  {
    if |rs| > 0 {
      AnsweredRequestLeavesView(rs[1..], f, id);
      var m := MarkMatched(rs, id);
      assert m[1..] == MarkMatched(rs[1..], id);
      if rs[0].id == id {
        assert !RequestShown(f, m[0]);
      } else {
        assert m[0] == rs[0];
      }
    }
  }

  // ---------------------------------------------------------------------------
  // Owner guard

  /** `disabled={item.donorId === user?.id}`: nobody can request their own donation. */
  predicate RequestDisabled(d: DonationItem, user: Option<Auth.User>)
  {
    user.Some? && d.donorId == user.value.id
  }

  /** `disabled={item.requesterId === user?.id}`: nobody can answer their own request. */
  predicate DonateDisabled(r: NeedRequest, user: Option<Auth.User>)
  {
    user.Some? && r.requesterId == user.value.id
  }

  /** A donation the user just listed is closed to that user and open to every
      user with another id. */
  lemma OwnDonationDisabled(u: Auth.User, v: Auth.User, ds: seq<DonationItem>, draft: DonationDraft,
                            id: string, createdAt: string)
    ensures var r := AddDonation(Some(u), ds, draft, id, createdAt);
      RequestDisabled(r[|ds|], Some(u)) && (v.id != u.id ==> !RequestDisabled(r[|ds|], Some(v)))
  {
  }

  /** A request the user just posted is closed to that user and open to every
      user with another id. */
  lemma OwnRequestDisabled(u: Auth.User, v: Auth.User, rs: seq<NeedRequest>, draft: RequestDraft,
                           id: string, createdAt: string)
    ensures var r := AddRequest(Some(u), rs, draft, id, createdAt);
      DonateDisabled(r[|rs|], Some(u)) && (v.id != u.id ==> !DonateDisabled(r[|rs|], Some(v)))
  {
  }

  // ---------------------------------------------------------------------------
  // Loading

  /** The page's mount effect: the stored list, or, when nothing is stored, two
      sample available donations (stamped with `now`). */
  function LoadDonations(saved: Option<seq<DonationItem>>, now: string): (r: seq<DonationItem>)
    ensures saved.Some? ==> r == saved.value
    ensures saved.None? ==> |r| == 2 && r[0].status == Available && r[1].status == Available
  {
    match saved
    case Some(ds) => ds
    case None => [
      DonationItem("1", "School Backpack",
        "Brand new school backpack with multiple compartments, perfect for elementary school kids.",
        "Education", Some("Downtown"), "Sarah M.", "donor1", Available, None, now, Some(Medium)),
      DonationItem("2", "Winter Jacket Size 8",
        "Warm winter jacket, size 8, in excellent condition. Perfect for keeping kids warm.",
        "Clothing", Some("North Side"), "Mike R.", "donor2", Available, None, now, Some(High))
    ]
  }

  const ArtRequestText: string :=
    "Looking for crayons, markers, and drawing paper for my 7-year-old who loves to draw."
  const ArtRequestReason: string :=
    "My daughter has shown incredible artistic talent and would love to explore her creativity further."
  const CleatsRequestText: string := "Need soccer cleats for my son to join the local youth league."
  const CleatsRequestReason: string := "My son wants to join the soccer team but we need proper equipment."

  /** The page's mount effect for requests: the stored list, or two sample open
      requests, the second one anonymous. */
  function LoadRequests(saved: Option<seq<NeedRequest>>, now: string): (r: seq<NeedRequest>)
    ensures saved.Some? ==> r == saved.value
    ensures saved.None? ==> |r| == 2 && r[0].status == Open && r[1].status == Open
    ensures saved.None? ==> forall i :: 0 <= i < |r| ==>
      (r[i].requesterName == "Anonymous" <==> r[i].isAnonymous)
  {
    if saved.Some? then saved.value
    else [
      NeedRequest("1", "Art Supplies for Creative Child", ArtRequestText, "Art Supplies", Some(7),
        ArtRequestReason, "Anna L.", "requester1", false, Open, Low, now),
      NeedRequest("2", "Soccer Cleats Size 5", CleatsRequestText, "Sports", Some(10),
        CleatsRequestReason, "Anonymous", "requester2", true, Open, Medium, now)
    ]
  }
}
