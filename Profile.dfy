/**
 * The derived views of the profile page (`src/components/pages/Profile.tsx`):
 * the completed count and top skills of the ID card, the earned badges and
 * the history list of the history tab with its rate button, the ranking tab
 * that inserts the current user, and the page state behind the rating and
 * edit dialogs.
 */
module Profile {
  import opened Types
  import Js
  import StableSort
  import opened VolunteerContext
  import Leaderboard

  // ---------------------------------------------------------------------------
  // ID card

  predicate IsCompleted(o: RegisteredOpportunity) {
    o.status == Completed
  }

  /** `registeredOpportunities.filter(o => o.status === COMPLETED).length` */
  function CompletedCount(regs: seq<RegisteredOpportunity>): (n: nat)
    ensures n <= |regs|
  {
    |Js.Filter(regs, IsCompleted)|
  }

  lemma {:induction false} CompletedCountConcat(a: seq<RegisteredOpportunity>, b: seq<RegisteredOpportunity>)
    ensures CompletedCount(a + b) == CompletedCount(a) + CompletedCount(b)
  {
    Js.FilterConcat(a, b, IsCompleted);
  }

  /** Registering for an opportunity leaves the completed count as it was. */
  lemma RegisterKeepsCompleted(regs: seq<RegisteredOpportunity>, id: int, text: string)
    ensures CompletedCount(RegisterRecords(regs, id, text)) == CompletedCount(regs)
  {
    if !HasActive(regs, id) {
      var kept := Js.Filter(regs, NotFor(id));
      assert RegisterRecords(regs, id, text) == kept + [RegisteredOpportunity(id, Registered, Some(text))];
      CompletedCountConcat(kept, [RegisteredOpportunity(id, Registered, Some(text))]);
      assert Js.Filter([RegisteredOpportunity(id, Registered, Some(text))], IsCompleted) == [];
      Js.FilterCommute(regs, NotFor(id), IsCompleted);
      var done := Js.Filter(regs, IsCompleted);
      Js.FilterMembers(regs, IsCompleted);
      forall k | 0 <= k < |done| ensures NotFor(id)(done[k]) {
        assert done[k] in regs;
      }
      Js.FilterAll(done, NotFor(id));
    }
  }

  /** Cancelling leaves the completed count as it was. */
  lemma {:induction false} CancelKeepsCompleted(regs: seq<RegisteredOpportunity>, id: int)
    ensures CompletedCount(CancelRecords(regs, id)) == CompletedCount(regs)
  {
    if regs != [] {
      CancelKeepsCompleted(regs[1..], id);
      var c := CancelRecords(regs, id);
      assert c == [CancelRecord(regs[0], id)] + CancelRecords(regs[1..], id);
      assert c[1..] == CancelRecords(regs[1..], id);
    }
  }

  /** `skills.slice(0, 5)`: the first five skills, or all of them. */
  function TopSkills(skills: seq<string>): (r: seq<string>)
    ensures |r| == if |skills| < 5 then |skills| else 5
    ensures r == skills[..|r|]
  {
    Js.Slice(skills, 0, 5)
  }

  // ---------------------------------------------------------------------------
  // History tab

  function EarnedBy(ids: seq<int>): Badge -> bool {
    (b: Badge) => b.id in ids
  }

  /** `BADGES.filter(b => volunteer.badges.includes(b.id))` */
  function UserBadges(catalog: seq<Badge>, ids: seq<int>): (r: seq<Badge>)
    ensures forall b :: b in r <==> b in catalog && b.id in ids
    ensures Js.InOrderSelection(r, catalog, EarnedBy(ids))
  {
    Js.FilterMembers(catalog, EarnedBy(ids));
    Js.FilterInOrder(catalog, EarnedBy(ids));
    Js.Filter(catalog, EarnedBy(ids))
  }

  /** An opportunity of the history, tagged with the registration's status. */
  datatype HistoryItem = HistoryItem(opportunity: Opportunity, registrationStatus: OpportunityStatus)

  function OpportunityHasId(id: int): Opportunity -> bool {
    (o: Opportunity) => o.id == id
  }

  /** `OPPORTUNITIES.find(opp => opp.id === id)`: the first entry with the id. */
  function Lookup(catalog: seq<Opportunity>, id: int): (r: Option<Opportunity>)
    ensures r.None? <==> forall k :: 0 <= k < |catalog| ==> catalog[k].id != id
    ensures r.Some? ==> r.value in catalog && r.value.id == id
    ensures r.Some? ==>
      exists k :: 0 <= k < |catalog| && catalog[k] == r.value && forall j :: 0 <= j < k ==> catalog[j].id != id
  {
    var k := Js.FindIndex(catalog, OpportunityHasId(id));
    if k < 0 then None else Some(catalog[k])
  }

  /** One element of the `map`: the details, or `null`. */
  function Details(catalog: seq<Opportunity>, reg: RegisteredOpportunity): Option<HistoryItem> {
    match Lookup(catalog, reg.opportunityId)
    case None => None
    case Some(o) => Some(HistoryItem(o, reg.status))
  }

  /** The `map` followed by the `filter` of nulls. */
  function Joined(regs: seq<RegisteredOpportunity>, catalog: seq<Opportunity>): seq<HistoryItem> {
    if regs == [] then []
    else
      (match Details(catalog, regs[0]) case None => [] case Some(i) => [i])
      + Joined(regs[1..], catalog)
  }

  function InCatalog(catalog: seq<Opportunity>): RegisteredOpportunity -> bool {
    (reg: RegisteredOpportunity) => Lookup(catalog, reg.opportunityId).Some?
  }

  /** An element of the join: the catalogue's opportunity for a
      registration known to the catalogue, tagged with its status. */
  ghost predicate JoinedAs(j: seq<HistoryItem>, known: seq<RegisteredOpportunity>, catalog: seq<Opportunity>) {
    && |j| == |known|
    && forall k :: 0 <= k < |known| ==>
      && Lookup(catalog, known[k].opportunityId).Some?
      && j[k] == HistoryItem(Lookup(catalog, known[k].opportunityId).value, known[k].status)
  }

  lemma JoinedAsCons(x: RegisteredOpportunity, rest: seq<RegisteredOpportunity>, jt: seq<HistoryItem>, catalog: seq<Opportunity>)
    requires Lookup(catalog, x.opportunityId).Some?
    requires JoinedAs(jt, rest, catalog)
    ensures JoinedAs([HistoryItem(Lookup(catalog, x.opportunityId).value, x.status)] + jt, [x] + rest, catalog)
  {
    var j := [HistoryItem(Lookup(catalog, x.opportunityId).value, x.status)] + jt;
    var known := [x] + rest;
    forall k | 1 <= k < |known|
      ensures j[k] == HistoryItem(Lookup(catalog, known[k].opportunityId).value, known[k].status)
    {
      assert known[k] == rest[k - 1] && j[k] == jt[k - 1];
    }
  }

  lemma JoinedConsKnown(regs: seq<RegisteredOpportunity>, catalog: seq<Opportunity>)
    requires regs != [] && InCatalog(catalog)(regs[0])
    requires JoinedAs(Joined(regs[1..], catalog), Js.Filter(regs[1..], InCatalog(catalog)), catalog)
    ensures JoinedAs(Joined(regs, catalog), Js.Filter(regs, InCatalog(catalog)), catalog)
  {
    var p := InCatalog(catalog);
    var rest := Js.Filter(regs[1..], p);
    var jt := Joined(regs[1..], catalog);
    var o := Lookup(catalog, regs[0].opportunityId).value;
    assert Js.Filter(regs, p) == [regs[0]] + rest;
    assert Joined(regs, catalog) == [HistoryItem(o, regs[0].status)] + jt;
    JoinedAsCons(regs[0], rest, jt, catalog);
  }

  lemma JoinedConsUnknown(regs: seq<RegisteredOpportunity>, catalog: seq<Opportunity>)
    requires regs != [] && !InCatalog(catalog)(regs[0])
    ensures Js.Filter(regs, InCatalog(catalog)) == Js.Filter(regs[1..], InCatalog(catalog))
    ensures Joined(regs, catalog) == Joined(regs[1..], catalog)
  {
  }

  /** The join keeps exactly the registrations whose opportunity is in the
      catalogue, in their order, each with that opportunity and its status. */
  lemma {:induction false} JoinedKnown(regs: seq<RegisteredOpportunity>, catalog: seq<Opportunity>)
    ensures JoinedAs(Joined(regs, catalog), Js.Filter(regs, InCatalog(catalog)), catalog)
  {
    if regs != [] {
      JoinedKnown(regs[1..], catalog);
      if InCatalog(catalog)(regs[0]) {
        JoinedConsKnown(regs, catalog);
      } else {
        JoinedConsUnknown(regs, catalog);
      }
    }
  }

  /** `new Date(startDate || 0).getTime()` */
  function StartTime(i: HistoryItem): int {
    match i.opportunity.startDate
    case None => 0
    case Some(t) => t
  }

  /** The comparator `b - a` on start times: later first. */
  predicate LaterFirst(a: HistoryItem, b: HistoryItem) {
    StartTime(b) - StartTime(a) < 0
  }

  function History(regs: seq<RegisteredOpportunity>, catalog: seq<Opportunity>): seq<HistoryItem> {
    StableSort.Sort(Joined(regs, catalog), LaterFirst)
  }

  lemma LaterFirstIsStrictWeakOrder()
    ensures StableSort.StrictWeakOrder(LaterFirst)
  {
  }

  /** The history is the joined list rearranged from the latest start to the
      earliest (absent dates counting as time 0); items starting at the same
      time keep their registration order. */
  lemma HistoryOrder(regs: seq<RegisteredOpportunity>, catalog: seq<Opportunity>, k: HistoryItem)
    ensures var h := History(regs, catalog);
      && multiset(h) == multiset(Joined(regs, catalog))
      && (forall i, j :: 0 <= i < j < |h| ==> StartTime(h[i]) >= StartTime(h[j]))
      && StableSort.Tied(h, LaterFirst, k) == StableSort.Tied(Joined(regs, catalog), LaterFirst, k)
  {
    LaterFirstIsStrictWeakOrder();
    StableSort.SortSorted(Joined(regs, catalog), LaterFirst);
    StableSort.SortStable(Joined(regs, catalog), LaterFirst, k);
  }

  /** The rate button: completed and not yet reviewed. */
  predicate CanRate(i: HistoryItem, reviewed: seq<int>) {
    i.registrationStatus == Completed && i.opportunity.id !in reviewed
  }

  /** Reviewing an opportunity hides its rate button and no other. */
  lemma ReviewHidesRateButton(i: HistoryItem, reviewed: seq<int>, id: int)
    ensures CanRate(i, ReviewIds(reviewed, id)) <==> CanRate(i, reviewed) && i.opportunity.id != id
  {
    var r := ReviewIds(reviewed, id);
    if id !in reviewed {
      assert r == reviewed + [id];
    }
  }

  // ---------------------------------------------------------------------------
  // Ranking tab

  datatype RankBy = ByPoints | ByHours

  /** The comparator `b.points - a.points` or `b.hours - a.hours`. */
  function RankLt(key: RankBy): (Volunteer, Volunteer) -> bool {
    (a: Volunteer, b: Volunteer) =>
      if key == ByPoints then b.points - a.points < 0 else b.hours - a.hours < 0
  }

  /** `{ ...LEADERBOARD_VOLUNTEERS[0], ...currentUser }`: the user's record,
      with the optional fields the user lacks taken from the first entry. */
  function ForBoard(board: seq<Volunteer>, user: Volunteer): (r: Volunteer)
    ensures r.id == user.id && r.points == user.points && r.hours == user.hours
    ensures r.fullName == user.fullName
    ensures board == [] ==> r == user
  {
    if board == [] then user
    else
      var base := board[0];
      user.(nationalId := if user.nationalId.Some? then user.nationalId else base.nationalId,
            profilePictureUrl := if user.profilePictureUrl.Some? then user.profilePictureUrl else base.profilePictureUrl,
            university := if user.university.Some? then user.university else base.university)
  }

  /** The list before sorting: the board, plus the user unless an entry with
      the user's id is there already. */
  function WithUser(board: seq<Volunteer>, user: Volunteer): seq<Volunteer> {
    if Js.FindIndex(board, Leaderboard.HasId(user.id)) >= 0 then board
    else board + [ForBoard(board, user)]
  }

  function RankingTab(board: seq<Volunteer>, user: Volunteer, key: RankBy): seq<Volunteer> {
    StableSort.Sort(WithUser(board, user), RankLt(key))
  }

  lemma RankLtIsStrictWeakOrder(key: RankBy)
    ensures StableSort.StrictWeakOrder(RankLt(key))
  {
  }

  /** The ranking tab lists the board plus the user's own record exactly
      when the board lacks the user's id, so the user is always listed;
      it is ordered by the chosen key, descending, and entries tied on that
      key keep their board order with the user last. */
  lemma RankingTabContents(board: seq<Volunteer>, user: Volunteer, key: RankBy, k: Volunteer)
    ensures var present := exists j :: 0 <= j < |board| && board[j].id == user.id;
      var r := RankingTab(board, user, key);
      && multiset(r) == multiset(board) + (if present then multiset{} else multiset{ForBoard(board, user)})
      && (exists j :: 0 <= j < |r| && r[j].id == user.id)
      && StableSort.Sorted(r, RankLt(key))
      && StableSort.Tied(r, RankLt(key), k) == StableSort.Tied(WithUser(board, user), RankLt(key), k)
  {
    var w := WithUser(board, user);
    RankLtIsStrictWeakOrder(key);
    StableSort.SortSorted(w, RankLt(key));
    StableSort.SortStable(w, RankLt(key), k);
    WithUserContents(board, user);
    IdKept(w, RankingTab(board, user, key), user.id);
  }

  /** The list before sorting holds the user's id, and adds the user's
      record to the board exactly when the board lacks that id. */
  lemma WithUserContents(board: seq<Volunteer>, user: Volunteer)
    ensures var present := exists j :: 0 <= j < |board| && board[j].id == user.id;
      multiset(WithUser(board, user)) == multiset(board) + (if present then multiset{} else multiset{ForBoard(board, user)})
    ensures exists j :: 0 <= j < |WithUser(board, user)| && WithUser(board, user)[j].id == user.id
  {
    var w := WithUser(board, user);
    if Js.FindIndex(board, Leaderboard.HasId(user.id)) < 0 {
      assert w[|board|].id == user.id;
    }
  }

  /** A rearrangement keeps every id. */
  lemma IdKept(w: seq<Volunteer>, r: seq<Volunteer>, id: int)
    requires multiset(r) == multiset(w)
    requires exists j :: 0 <= j < |w| && w[j].id == id
    ensures exists j :: 0 <= j < |r| && r[j].id == id
  {
    var x :| 0 <= x < |w| && w[x].id == id;
    assert w[x] in multiset(r);
    var j :| 0 <= j < |r| && r[j] == w[x];
  }

  /** When the board already holds the user's id, the board's own entry is
      ranked, not the user's current record. */
  lemma RankingTabKeepsBoardEntry(board: seq<Volunteer>, user: Volunteer, key: RankBy)
    requires exists j :: 0 <= j < |board| && board[j].id == user.id
    ensures RankingTab(board, user, key) == StableSort.Sort(board, RankLt(key))
  {
  }

  // ---------------------------------------------------------------------------
  // The page

  datatype Tab = ProfileTab | InterestsTab | HistoryTab | LeaderboardTab

  /** The page's selection state, over the session provider. */
  class ProfilePage {
    const session: VolunteerProvider
    var opportunityToRate: Option<Opportunity>
    var isEditModalOpen: bool
    var activeTab: Tab

    constructor (session: VolunteerProvider)
      ensures this.session == session
      ensures opportunityToRate == None && !isEditModalOpen && activeTab == ProfileTab
    {
      this.session := session;
      opportunityToRate := None;
      isEditModalOpen := false;
      activeTab := ProfileTab;
    }

    /** A tab button. */
    method SelectTab(tab: Tab)
      modifies this`activeTab
      ensures activeTab == tab
    {
      activeTab := tab;
    }

    /** The edit button of the identity card opens the edit dialog. */
    method OpenEditModal()
      modifies this`isEditModalOpen
      ensures isEditModalOpen
    {
      isEditModalOpen := true;
    }

    /** The edit dialog's `onClose`: closes it without saving. */
    method CloseEditModal()
      modifies this`isEditModalOpen
      ensures !isEditModalOpen
    {
      isEditModalOpen := false;
    }

    /** The rating dialog's `onClose`: nothing is reviewed. */
    method CloseRating()
      modifies this`opportunityToRate
      ensures opportunityToRate == None
    {
      opportunityToRate := None;
    }

    /** The rate button of a history item opens the rating dialog for it. */
    method RateClick(o: Opportunity)
      modifies this
      ensures opportunityToRate == Some(o)
      ensures isEditModalOpen == old(isEditModalOpen) && activeTab == old(activeTab)
    {
      opportunityToRate := Some(o);
    }

    /** `handleSubmitRating`: reviews the selected opportunity, if any, and
        always clears the selection. */
    method HandleSubmitRating()
      modifies this, session
      ensures opportunityToRate == None
      ensures old(opportunityToRate).Some? ==>
        session.volunteer == Review(old(session.volunteer), old(opportunityToRate).value.id)
      ensures old(opportunityToRate).None? ==> session.volunteer == old(session.volunteer)
      ensures session.isAuthenticated == old(session.isAuthenticated)
      ensures isEditModalOpen == old(isEditModalOpen) && activeTab == old(activeTab)
    {
      if opportunityToRate.Some? {
        session.SubmitReview(opportunityToRate.value.id);
      }
      opportunityToRate := None;
    }

    /** `handleSaveProfile`: stores the edited profile and closes the dialog. */
    method HandleSaveProfile(updated: Volunteer)
      modifies this, session
      ensures session.volunteer == Some(updated) && !isEditModalOpen
      ensures session.isAuthenticated == old(session.isAuthenticated)
      ensures opportunityToRate == old(opportunityToRate) && activeTab == old(activeTab)
    {
      session.UpdateVolunteer(updated);
      isEditModalOpen := false;
    }
  }
}
