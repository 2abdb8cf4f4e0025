/** The admin pages that list guides: src/pages/admin/GuideVerification.tsx
    (search, then status filter, and the local update after a verification),
    src/pages/admin/guide-verification.tsx (one combined filter) and
    src/pages/admin/GuideApprovals.tsx (search only, with local approve and
    reject on both lists). */
module GuidePages {
  import opened Wrappers
  import opened Text
  import opened ListOps

  // ------------------------------------------------- GuideVerification.tsx

  /** A guide as GuideVerification.tsx lists it. */
  datatype Guide = Guide(id: int, fullName: string, email: string, phoneNumber: string, status: string)

  /** The search test: name, email or phone contains the term, ignoring case. */
  predicate GuideMatches(g: Guide, term: string) {
    MatchesIgnoringCase(g.fullName, term) || MatchesIgnoringCase(g.email, term)
    || MatchesIgnoringCase(g.phoneNumber, term)
  }

  /** The filter effect: search if the term is non-empty, then keep exact
      status matches unless the filter is 'all'. */
  function FilterGuides(guides: seq<Guide>, term: string, statusFilter: string): (r: seq<Guide>)
    ensures multiset(r) <= multiset(guides)
  {
    Staged(guides, term != "", SearchTest(term), statusFilter != "all", StatusTest(statusFilter))
  }

  function SearchTest(term: string): Guide -> bool {
    g => GuideMatches(g, term)
  }

  function StatusTest(statusFilter: string): Guide -> bool {
    (g: Guide) => g.status == statusFilter
  }

  /** A guide is listed exactly when it is in the list and passes both
      filters; the listed guides keep their order; with no term and 'all'
      nothing is filtered out. */
  lemma FilterGuidesOutcomes(guides: seq<Guide>, term: string, statusFilter: string, g: Guide)
    ensures g in FilterGuides(guides, term, statusFilter) <==>
      g in guides && (term == "" || GuideMatches(g, term)) && (statusFilter == "all" || g.status == statusFilter)
    ensures SubsequenceOf(FilterGuides(guides, term, statusFilter), guides)
    ensures term == "" && statusFilter == "all" ==> FilterGuides(guides, term, statusFilter) == guides
  {
    StagedOutcomes(guides, term != "", SearchTest(term), statusFilter != "all", StatusTest(statusFilter), g);
  }

  /** The status a verification action writes. */
  function VerifiedStatus(approve: bool): string {
    if approve then "approved" else "rejected"
  }

  /** How the PATCH request of `handleVerification` came back. */
  datatype PatchReply = PatchOk | PatchNotOk | PatchThrew(message: string)

  /** `guides.map(g => g.id === id ? {...g, status} : g)`. */
  function SetGuideStatus(guides: seq<Guide>, id: int, status: string): (r: seq<Guide>)
    ensures |r| == |guides|
    ensures forall k :: 0 <= k < |r| ==> r[k].id == guides[k].id
    ensures forall k :: 0 <= k < |r| && guides[k].id == id ==> r[k] == guides[k].(status := status)
    ensures forall k :: 0 <= k < |r| && guides[k].id != id ==> r[k] == guides[k]
  {
    MapWhere(guides, (g: Guide) => g.id == id, (g: Guide) => g.(status := status))
  }

  class GuideVerificationPage {
    var guides: seq<Guide>
    var filteredGuides: seq<Guide>
    var searchTerm: string
    var statusFilter: string
    var error: Option<string>

    /** The first render: empty lists, no search, status filter 'pending'. */
    constructor ()
      ensures guides == [] && filteredGuides == [] && searchTerm == "" && statusFilter == "pending"
      ensures error.None?
    {
      guides := [];
      filteredGuides := [];
      searchTerm := "";
      statusFilter := "pending";
      error := None;
    }

    /** The list on screen is the filter of the full list. */
    predicate Filtered()
      reads this
    {
      filteredGuides == FilterGuides(guides, searchTerm, statusFilter)
    }

    /** The filter effect, run whenever the term, the status filter or the
        list changes. */
    method ApplyFilters()
      modifies this
      ensures Filtered()
      ensures guides == old(guides) && searchTerm == old(searchTerm) && statusFilter == old(statusFilter)
      ensures error == old(error)
    {
      filteredGuides := FilterGuides(guides, searchTerm, statusFilter);
    }

    /** `handleVerification(guideId, action)`: on success only that guide's
        status changes; on failure the list stays and the error is set. */
    method HandleVerification(guideId: int, approve: bool, reply: PatchReply)
      modifies this
      ensures reply.PatchOk? ==> guides == SetGuideStatus(old(guides), guideId, VerifiedStatus(approve))
                                 && error == old(error)
      ensures reply.PatchNotOk? ==>
                guides == old(guides)
                && error == Some(if approve then "Failed to approve guide" else "Failed to reject guide")
      ensures reply.PatchThrew? ==> guides == old(guides) && error == Some(reply.message)
      ensures filteredGuides == old(filteredGuides) && searchTerm == old(searchTerm)
      ensures statusFilter == old(statusFilter)
    {
      match reply {
        case PatchOk =>
          guides := SetGuideStatus(guides, guideId, VerifiedStatus(approve));
        case PatchNotOk =>
          error := Some(if approve then "Failed to approve guide" else "Failed to reject guide");
        case PatchThrew(m) =>
          error := Some(m);
      }
    }
  }

  /** A verified guide leaves the default 'pending' view at the next filter
      run, while every other guide's presence is unchanged. */
  lemma VerifiedGuideLeavesPendingView(guides: seq<Guide>, term: string, id: int, approve: bool, g: Guide)
    requires g in guides && g.id == id
    ensures g.(status := VerifiedStatus(approve)) !in FilterGuides(SetGuideStatus(guides, id, VerifiedStatus(approve)), term, "pending")
  {
    FilterGuidesOutcomes(SetGuideStatus(guides, id, VerifiedStatus(approve)), term, "pending", g.(status := VerifiedStatus(approve)));
  }

  // ------------------------------------------------- guide-verification.tsx

  /** A guide as guide-verification.tsx lists it. */
  datatype GuideCard = GuideCard(id: string, name: string, email: string, phone: string, status: string)

  /** `filteredGuides`: the search looks at name and email only. */
  function FilteredGuideCards(guides: seq<GuideCard>, term: string, statusFilter: string): (r: seq<GuideCard>)
    ensures multiset(r) <= multiset(guides)
  {
    Filter(guides, CardTest(term, statusFilter))
  }

  function CardTest(term: string, statusFilter: string): GuideCard -> bool {
    (g: GuideCard) => (MatchesIgnoringCase(g.name, term) || MatchesIgnoringCase(g.email, term))
                      && (statusFilter == "all" || g.status == statusFilter)
  }

  /** A card is shown iff it matches both the search and the status test;
      an empty term matches every card; the phone number plays no part; the
      cards keep their order. */
  lemma FilteredGuideCardsOutcomes(guides: seq<GuideCard>, term: string, statusFilter: string, g: GuideCard, phone: string)
    ensures g in FilteredGuideCards(guides, term, statusFilter) <==>
      g in guides && (MatchesIgnoringCase(g.name, term) || MatchesIgnoringCase(g.email, term))
      && (statusFilter == "all" || g.status == statusFilter)
    ensures term == "" && statusFilter == "all" ==> FilteredGuideCards(guides, term, statusFilter) == guides
    ensures (g.(phone := phone) in FilteredGuideCards([g.(phone := phone)], term, statusFilter))
            == (g in FilteredGuideCards([g], term, statusFilter))
    ensures SubsequenceOf(FilteredGuideCards(guides, term, statusFilter), guides)
  {
    var keep := CardTest(term, statusFilter);
    FilterMembership(guides, keep, g);
    FilterMembership([g], keep, g);
    FilterMembership([g.(phone := phone)], keep, g.(phone := phone));
    FilterKeepsOrder(guides, keep);
    if term == "" {
      assert Lower(term) == "";
      forall x: GuideCard ensures MatchesIgnoringCase(x.name, term) {
        EmptyIncludedEverywhere(Lower(x.name));
      }
      if statusFilter == "all" {
        FilterAll(guides, keep);
      }
    }
  }

  // ----------------------------------------------------- GuideApprovals.tsx

  /** A guide application. */
  datatype Application = Application(id: string, name: string, email: string, phone: string, status: string)

  predicate ApplicationMatches(a: Application, term: string) {
    MatchesIgnoringCase(a.name, term) || MatchesIgnoringCase(a.email, term)
  }

  /** The filter effect: a blank term shows everything; otherwise the
      untrimmed term is looked for in name and email. */
  function FilterApplications(apps: seq<Application>, term: string): (r: seq<Application>)
    ensures multiset(r) <= multiset(apps)
  {
    if JsTrim(term) == "" then apps else Filter(apps, ApplicationTest(term))
  }

  function ApplicationTest(term: string): Application -> bool {
    a => ApplicationMatches(a, term)
  }

  /** A blank or white-space-only term shows every application; any other
      keeps exactly the matches, in order. */
  lemma FilterApplicationsOutcomes(apps: seq<Application>, term: string, a: Application)
    ensures IsBlank(term) ==> FilterApplications(apps, term) == apps
    ensures !IsBlank(term) ==> (a in FilterApplications(apps, term) <==> a in apps && ApplicationMatches(a, term))
    ensures SubsequenceOf(FilterApplications(apps, term), apps)
  {
    TrimEmptyIffBlank(term);
    if !IsBlank(term) {
      FilterMembership(apps, ApplicationTest(term), a);
      FilterKeepsOrder(apps, ApplicationTest(term));
    } else {
      SubsequenceOfSelf(apps);
    }
  }

  /** `prev.map(app => app.id === id ? {...app, status} : app)`. */
  function SetApplicationStatus(apps: seq<Application>, id: string, status: string): (r: seq<Application>)
    ensures |r| == |apps|
    ensures forall k :: 0 <= k < |r| && apps[k].id == id ==> r[k] == apps[k].(status := status)
    ensures forall k :: 0 <= k < |r| && apps[k].id != id ==> r[k] == apps[k]
  {
    MapWhere(apps, (a: Application) => a.id == id, (a: Application) => a.(status := status))
  }

  /** The search ignores the status, so changing a status in both lists
      keeps the filtered list equal to the filter of the full one. */
  lemma SetStatusKeepsFilter(apps: seq<Application>, term: string, id: string, status: string)
    ensures FilterApplications(SetApplicationStatus(apps, id, status), term)
         == SetApplicationStatus(FilterApplications(apps, term), id, status)
  {
    if JsTrim(term) != "" {
      MapWhereCommutesWithFilter(apps, ApplicationTest(term), (a: Application) => a.id == id,
        (a: Application) => a.(status := status));
    }
  }

  class GuideApprovalsPage {
    var applications: seq<Application>
    var filteredApplications: seq<Application>
    var searchTerm: string

    constructor (apps: seq<Application>)
      ensures applications == apps && filteredApplications == apps && searchTerm == ""
    {
      applications := apps;
      filteredApplications := apps;
      searchTerm := "";
    }

    predicate Filtered()
      reads this
    {
      filteredApplications == FilterApplications(applications, searchTerm)
    }

    /** The filter effect. */
    method ApplyFilter()
      modifies this
      ensures Filtered() && applications == old(applications) && searchTerm == old(searchTerm)
    {
      filteredApplications := FilterApplications(applications, searchTerm);
    }

    /** `handleApprove(id)`: both lists mark that application 'Approved'. */
    method HandleApprove(id: string)
      modifies this
      ensures applications == SetApplicationStatus(old(applications), id, "Approved")
      ensures filteredApplications == SetApplicationStatus(old(filteredApplications), id, "Approved")
      ensures searchTerm == old(searchTerm)
      ensures old(Filtered()) ==> Filtered()
    {
      SetStatusKeepsFilter(applications, searchTerm, id, "Approved");
      applications := SetApplicationStatus(applications, id, "Approved");
      filteredApplications := SetApplicationStatus(filteredApplications, id, "Approved");
    }

    /** `handleReject(id)`: both lists mark that application 'Rejected'. */
    method HandleReject(id: string)
      modifies this
      ensures applications == SetApplicationStatus(old(applications), id, "Rejected")
      ensures filteredApplications == SetApplicationStatus(old(filteredApplications), id, "Rejected")
      ensures searchTerm == old(searchTerm)
      ensures old(Filtered()) ==> Filtered()
    {
      SetStatusKeepsFilter(applications, searchTerm, id, "Rejected");
      applications := SetApplicationStatus(applications, id, "Rejected");
      filteredApplications := SetApplicationStatus(filteredApplications, id, "Rejected");
    }
  }

  /** `getStatusColor`. */
  function ApplicationStatusColor(status: string): (c: string)
    ensures status == "Pending" <==> c == "warning"
    ensures status == "Approved" <==> c == "success"
    ensures status == "Rejected" <==> c == "error"
    ensures c == "default" <==> status !in {"Pending", "Approved", "Rejected"}
  {
    match status
    case "Pending" => "warning"
    case "Approved" => "success"
    case "Rejected" => "error"
    case _ => "default"
  }
}
