/**
 * The session provider of `contexts/VolunteerContext.tsx`: the current
 * volunteer and the authentication flag, and the three updaters that
 * rewrite the current volunteer's registrations and reviewed ids.
 *
 * The updaters are pure old-volunteer to new-volunteer functions; the
 * provider is a class whose two fields they, and login, signup, logout and
 * update, replace.
 */
module VolunteerContext {
  import opened Types
  import Js

  // ---------------------------------------------------------------------------
  // Registration records

  /** `o => o.opportunityId !== id` */
  function NotFor(id: int): RegisteredOpportunity -> bool {
    (o: RegisteredOpportunity) => o.opportunityId != id
  }

  /** `o => o.opportunityId === id` */
  function For(id: int): RegisteredOpportunity -> bool {
    (o: RegisteredOpportunity) => o.opportunityId == id
  }

  /** REGISTERED or COMPLETED. */
  predicate IsActive(o: RegisteredOpportunity) {
    o.status == Registered || o.status == Completed
  }

  /** The `some` test of `registerForOpportunity`: an active record for `id`. */
  predicate HasActive(regs: seq<RegisteredOpportunity>, id: int) {
    exists k :: 0 <= k < |regs| && regs[k].opportunityId == id && IsActive(regs[k])
  }

  /** Two records of one opportunity are never both active. */
  predicate NotBothActive(a: RegisteredOpportunity, b: RegisteredOpportunity) {
    a.opportunityId == b.opportunityId ==> !(IsActive(a) && IsActive(b))
  }

  /** The data-model invariant: at most one active registration per opportunity. */
  ghost predicate AtMostOneActive(regs: seq<RegisteredOpportunity>) {
    Js.Pairwise(regs, NotBothActive)
  }

  /** `registeredOpportunities.find(o => o.opportunityId === id)`: the first
      record of the opportunity, if any. */
  function RecordFor(regs: seq<RegisteredOpportunity>, id: int): (r: Option<RegisteredOpportunity>)
    ensures r.None? <==> forall k :: 0 <= k < |regs| ==> regs[k].opportunityId != id
    ensures r.Some? ==> r.value in regs && r.value.opportunityId == id
    ensures r.Some? ==>
      exists k :: 0 <= k < |regs| && regs[k] == r.value && forall j :: 0 <= j < k ==> regs[j].opportunityId != id
  {
    var k := Js.FindIndex(regs, For(id));
    if k < 0 then None else Some(regs[k])
  }

  /** The registrations after `registerForOpportunity(id, text)`. */
  function RegisterRecords(regs: seq<RegisteredOpportunity>, id: int, text: string)
    : (r: seq<RegisteredOpportunity>)
    ensures HasActive(regs, id) ==> r == regs
    ensures !HasActive(regs, id) ==>
      && |r| > 0
      && r[|r| - 1] == RegisteredOpportunity(id, Registered, Some(text))
      && (forall k :: 0 <= k < |r| - 1 ==> r[k].opportunityId != id)
      && multiset(r[..|r| - 1]) <= multiset(regs)
    ensures !HasActive(regs, id) ==> Js.InOrderSelection(r[..|r| - 1], regs, NotFor(id))
    ensures HasActive(r, id)
  {
    if HasActive(regs, id) then regs
    else
      var kept := Js.Filter(regs, NotFor(id));
      Js.FilterMembers(regs, NotFor(id));
      Js.FilterInOrder(regs, NotFor(id));
      var r := kept + [RegisteredOpportunity(id, Registered, Some(text))];
      assert r[..|r| - 1] == kept;
      r
  }

  /** One record after `cancelRegistration(id)`. */
  function CancelRecord(o: RegisteredOpportunity, id: int): RegisteredOpportunity {
    if o.opportunityId == id && o.status == Registered then o.(status := Cancelled) else o
  }

  /** The registrations after `cancelRegistration(id)`. */
  function CancelRecords(regs: seq<RegisteredOpportunity>, id: int): (r: seq<RegisteredOpportunity>)
    ensures |r| == |regs|
    ensures forall k :: 0 <= k < |r| ==>
      && r[k].opportunityId == regs[k].opportunityId
      && r[k].applicationText == regs[k].applicationText
      && r[k].status == (if regs[k].opportunityId == id && regs[k].status == Registered
                         then Cancelled else regs[k].status)
  {
    if regs == [] then [] else [CancelRecord(regs[0], id)] + CancelRecords(regs[1..], id)
  }

  /** The reviewed ids after `submitReview(id, ...)`. */
  function ReviewIds(ids: seq<int>, id: int): (r: seq<int>)
    ensures id in r
    ensures |r| == if id in ids then |ids| else |ids| + 1
    ensures r[..|ids|] == ids
  {
    if id in ids then ids else ids + [id]
  }

  // ---------------------------------------------------------------------------
  // The updaters, on the current volunteer (absent when logged out)

  function Register(cur: Option<Volunteer>, id: int, text: string): (r: Option<Volunteer>)
    ensures r.Some? <==> cur.Some?
    ensures r.Some? ==> r.value == cur.value.(registeredOpportunities :=
      RegisterRecords(cur.value.registeredOpportunities, id, text))
  {
    match cur
    case None => None
    case Some(v) => Some(v.(registeredOpportunities := RegisterRecords(v.registeredOpportunities, id, text)))
  }

  function Cancel(cur: Option<Volunteer>, id: int): (r: Option<Volunteer>)
    ensures r.Some? <==> cur.Some?
    ensures r.Some? ==> r.value == cur.value.(registeredOpportunities :=
      CancelRecords(cur.value.registeredOpportunities, id))
  {
    match cur
    case None => None
    case Some(v) => Some(v.(registeredOpportunities := CancelRecords(v.registeredOpportunities, id)))
  }

  function Review(cur: Option<Volunteer>, id: int): (r: Option<Volunteer>)
    ensures r.Some? <==> cur.Some?
    ensures r.Some? ==> r.value == cur.value.(reviewedOpportunityIds :=
      ReviewIds(cur.value.reviewedOpportunityIds, id))
  {
    match cur
    case None => None
    case Some(v) => Some(v.(reviewedOpportunityIds := ReviewIds(v.reviewedOpportunityIds, id)))
  }

  // ---------------------------------------------------------------------------
  // Registering

  /** Dropping the records of one opportunity leaves those of any other as
      they were, in their order. */
  lemma {:induction false} DropOtherId(regs: seq<RegisteredOpportunity>, id: int, j: int)
    requires j != id
    ensures Js.Filter(Js.Filter(regs, NotFor(id)), For(j)) == Js.Filter(regs, For(j))
  {
    if regs != [] {
      DropOtherId(regs[1..], id, j);
      if regs[0].opportunityId != id {
        var t := Js.Filter(regs[1..], NotFor(id));
        assert Js.Filter(regs, NotFor(id)) == [regs[0]] + t;
        assert ([regs[0]] + t)[1..] == t;
      }
    }
  }

  /** Registering leaves the records of every other opportunity unchanged and
      in order, and, unless it was a no-op, leaves exactly one record for the
      opportunity: a new REGISTERED one carrying the text. */
  lemma {:induction false} RegisterReplaces(regs: seq<RegisteredOpportunity>, id: int, text: string, j: int)
    ensures j != id ==> Js.Filter(RegisterRecords(regs, id, text), For(j)) == Js.Filter(regs, For(j))
    ensures !HasActive(regs, id) ==>
      Js.Filter(RegisterRecords(regs, id, text), For(id)) == [RegisteredOpportunity(id, Registered, Some(text))]
  {
    if !HasActive(regs, id) {
      var kept := Js.Filter(regs, NotFor(id));
      var added := RegisteredOpportunity(id, Registered, Some(text));
      Js.FilterConcat(kept, [added], For(j));
      Js.FilterConcat(kept, [added], For(id));
      assert Js.Filter([added], For(j)) == (if j == id then [added] else []) by {
        assert [added][1..] == [];
      }
      assert Js.Filter([added], For(id)) == [added] by {
        assert [added][1..] == [];
      }
      if j != id {
        DropOtherId(regs, id, j);
      }
      Js.FilterNone(kept, For(id));
    }
  }

  /** Registering keeps at most one active record per opportunity. */
  lemma RegisterKeepsInvariant(regs: seq<RegisteredOpportunity>, id: int, text: string)
    requires AtMostOneActive(regs)
    ensures AtMostOneActive(RegisterRecords(regs, id, text))
  {
    if !HasActive(regs, id) {
      var kept := Js.Filter(regs, NotFor(id));
      Js.FilterPairwise(regs, NotFor(id), NotBothActive);
      var r := RegisterRecords(regs, id, text);
      assert r[..|r| - 1] == kept;
      forall i, j | 0 <= i < j < |r| ensures NotBothActive(r[i], r[j]) {
        if j < |r| - 1 {
          assert r[i] == kept[i] && r[j] == kept[j];
        }
      }
    }
  }

  // ---------------------------------------------------------------------------
  // Cancelling

  /** After cancelling, no REGISTERED record for the opportunity remains, and
      COMPLETED and CANCELLED records are exactly as before. */
  lemma CancelEffect(regs: seq<RegisteredOpportunity>, id: int)
    ensures forall k :: 0 <= k < |regs| ==>
      var c := CancelRecords(regs, id)[k];
      && !(c.opportunityId == id && c.status == Registered)
      && (regs[k].status != Registered ==> c == regs[k])
      && (regs[k].opportunityId != id ==> c == regs[k])
  {
  }

  /** Cancelling twice is cancelling once. */
  lemma {:induction false} CancelIdempotent(regs: seq<RegisteredOpportunity>, id: int)
    ensures CancelRecords(CancelRecords(regs, id), id) == CancelRecords(regs, id)
  {
    var once := CancelRecords(regs, id);
    var twice := CancelRecords(once, id);
    assert forall k :: 0 <= k < |twice| ==> twice[k] == once[k];
  }

  /** Cancelling keeps at most one active record per opportunity. */
  lemma CancelKeepsInvariant(regs: seq<RegisteredOpportunity>, id: int)
    requires AtMostOneActive(regs)
    ensures AtMostOneActive(CancelRecords(regs, id))
  {
    var r := CancelRecords(regs, id);
    forall i, j | 0 <= i < j < |r| ensures NotBothActive(r[i], r[j]) {
      assert NotBothActive(regs[i], regs[j]);
    }
  }

  // ---------------------------------------------------------------------------
  // Reviewing

  /** Submitting a review adds no duplicate id... */
  lemma ReviewKeepsDistinct(ids: seq<int>, id: int)
    requires forall i, j :: 0 <= i < j < |ids| ==> ids[i] != ids[j]
    ensures var r := ReviewIds(ids, id);
      forall i, j :: 0 <= i < j < |r| ==> r[i] != r[j]
  {
    var r := ReviewIds(ids, id);
    if id !in ids {
      assert r == ids + [id];
    }
  }

  /** ...and submitting it twice is submitting it once. */
  lemma ReviewIdempotent(ids: seq<int>, id: int)
    ensures ReviewIds(ReviewIds(ids, id), id) == ReviewIds(ids, id)
  {
  }

  // ---------------------------------------------------------------------------
  // The register / cancel / re-register scenario

  /** With no record for `o` yet, registering appends one. */
  lemma FirstRegistration(regs: seq<RegisteredOpportunity>, o: int, text: string)
    requires forall k :: 0 <= k < |regs| ==> regs[k].opportunityId != o
    ensures RegisterRecords(regs, o, text) == regs + [RegisteredOpportunity(o, Registered, Some(text))]
  {
    Js.FilterAll(regs, NotFor(o));
  }

  /** The record `find` returns when the last record is the only one for `o`. */
  lemma SoleRecord(regs: seq<RegisteredOpportunity>, o: int, x: RegisteredOpportunity)
    requires forall k :: 0 <= k < |regs| ==> regs[k].opportunityId != o
    requires x.opportunityId == o
    ensures RecordFor(regs + [x], o) == Some(x)
  {
    var s := regs + [x];
    assert s[|regs|] == x;
    var r := RecordFor(s, o);
    assert r.value in s;
    var m :| 0 <= m < |s| && s[m] == r.value;
    assert m == |regs|;
  }

  /** Cancelling the only record for `o`, a REGISTERED one at the end. */
  lemma CancelSoleRecord(regs: seq<RegisteredOpportunity>, o: int, t: Option<string>)
    requires forall k :: 0 <= k < |regs| ==> regs[k].opportunityId != o
    ensures CancelRecords(regs + [RegisteredOpportunity(o, Registered, t)], o)
      == regs + [RegisteredOpportunity(o, Cancelled, t)]
  {
    var r := CancelRecords(regs + [RegisteredOpportunity(o, Registered, t)], o);
    assert forall k :: 0 <= k < |regs| ==> r[k] == regs[k];
  }

  /** Registering again over a CANCELLED record, the only one for `o`. */
  lemma Reregistration(regs: seq<RegisteredOpportunity>, o: int, t: Option<string>, text: string)
    requires forall k :: 0 <= k < |regs| ==> regs[k].opportunityId != o
    ensures RegisterRecords(regs + [RegisteredOpportunity(o, Cancelled, t)], o, text)
      == regs + [RegisteredOpportunity(o, Registered, Some(text))]
  {
    var c := RegisteredOpportunity(o, Cancelled, t);
    var r := regs + [c];
    assert !HasActive(r, o) by {
      forall k | 0 <= k < |r| && r[k].opportunityId == o ensures !IsActive(r[k]) {
        assert k == |regs|;
      }
    }
    Js.FilterConcat(regs, [c], NotFor(o));
    Js.FilterAll(regs, NotFor(o));
    assert Js.Filter([c], NotFor(o)) == [] by {
      assert [c][1..] == [];
    }
  }

  /** A first registration records the text; a second one while registered
      changes nothing; cancelling flips the status; registering again after
      the cancellation records the new text. Points and hours never move. */
  lemma RegistrationScenario(v: Volunteer, o: int)
    requires forall k :: 0 <= k < |v.registeredOpportunities| ==>
      v.registeredOpportunities[k].opportunityId != o
    ensures
      var v1 := Register(Some(v), o, "text");
      var v2 := Register(v1, o, "other text");
      var v3 := Cancel(v2, o);
      var v4 := Register(v3, o, "text2");
      && RecordFor(v1.value.registeredOpportunities, o) == Some(RegisteredOpportunity(o, Registered, Some("text")))
      && v2 == v1
      && RecordFor(v3.value.registeredOpportunities, o) == Some(RegisteredOpportunity(o, Cancelled, Some("text")))
      && RecordFor(v4.value.registeredOpportunities, o) == Some(RegisteredOpportunity(o, Registered, Some("text2")))
      && v4.value.points == v.points && v4.value.hours == v.hours
  {
    var regs := v.registeredOpportunities;
    var a := RegisteredOpportunity(o, Registered, Some("text"));
    var c := RegisteredOpportunity(o, Cancelled, Some("text"));
    var b := RegisteredOpportunity(o, Registered, Some("text2"));
    FirstRegistration(regs, o, "text");
    SoleRecord(regs, o, a);
    var r1 := regs + [a];
    assert r1[|regs|] == a;
    assert HasActive(r1, o);
    CancelSoleRecord(regs, o, Some("text"));
    SoleRecord(regs, o, c);
    Reregistration(regs, o, Some("text"), "text2");
    SoleRecord(regs, o, b);
  }

  // ---------------------------------------------------------------------------
  // Session

  const DemoEmail: string := "ahmed@taww.sa"
  const DemoPassword: string := "password123"

  /** The demo account check of `login`: the e-mail compared after
      `toLowerCase`, the password exactly. */
  predicate IsDemoLogin(email: string, pass: string) {
    Js.ToLower(email) == DemoEmail && pass == DemoPassword
  }

  /** The e-mail is accepted in any mix of upper and lower case letters, and
      in no other spelling. */
  lemma DemoEmailCaseInsensitive(email: string)
    ensures Js.ToLower(email) == DemoEmail <==>
      && |email| == |DemoEmail|
      && forall k :: 0 <= k < |email| ==>
        email[k] == DemoEmail[k] || ('a' <= DemoEmail[k] <= 'z' && email[k] as int == DemoEmail[k] as int - 32)
  {
    Js.ToLowerMatches(email, DemoEmail);
  }

  /** The avatar service address a new profile's picture is keyed under. */
  const AvatarBase: string := "https://i.pravatar.cc/150?u="

  datatype SignupData = SignupData(
    fullName: string,
    email: string,
    phone: string,
    birthDate: string,
    city: string,
    nationalId: Option<string>,
    password: Option<string>)

  /** The profile `signup` creates: the signup data, the time `now` as id,
      an avatar keyed by the e-mail, no progress, the new-user defaults, and
      the template's values for the remaining fields. */
  function NewVolunteer(template: Volunteer, data: SignupData, now: int): (r: Volunteer)
    ensures r.id == now && r.email == data.email && r.fullName == data.fullName
    ensures r.phone == data.phone && r.birthDate == data.birthDate && r.city == data.city
    ensures r.nationalId == data.nationalId
    ensures r.profilePictureUrl == Some(AvatarBase + data.email)
    ensures r.registeredOpportunities == [] && r.badges == [] && r.reviewedOpportunityIds == []
    ensures r.hours == 0 && r.points == 0
    ensures r.academicQualification == Student && r.experienceYears == ZeroToOne
    ensures r.skills == [] && r.motivation == "" && r.shortBio == ""
    ensures r.specialization == template.specialization && r.university == template.university
    ensures r.graduationYear == template.graduationYear && r.languages == template.languages
    ensures r.commitmentLevel == template.commitmentLevel
  {
    template.(
      id := now,
      fullName := data.fullName,
      email := data.email,
      phone := data.phone,
      birthDate := data.birthDate,
      city := data.city,
      nationalId := data.nationalId,
      profilePictureUrl := Some(AvatarBase + data.email),
      registeredOpportunities := [],
      badges := [],
      hours := 0,
      points := 0,
      reviewedOpportunityIds := [],
      academicQualification := Student,
      experienceYears := ZeroToOne,
      skills := [],
      motivation := "",
      shortBio := "")
  }

  /** A new account can register for any opportunity: it has no record yet. */
  lemma NewVolunteerCanRegister(template: Volunteer, data: SignupData, now: int, id: int, text: string)
    ensures var v := NewVolunteer(template, data, now);
      && AtMostOneActive(v.registeredOpportunities)
      && RegisterRecords(v.registeredOpportunities, id, text) == [RegisteredOpportunity(id, Registered, Some(text))]
  {
    var v := NewVolunteer(template, data, now);
    assert !HasActive(v.registeredOpportunities, id);
  }

  /** The provider's state. */
  class VolunteerProvider {
    var volunteer: Option<Volunteer>
    var isAuthenticated: bool

    /** A volunteer is present exactly while the session is authenticated. */
    predicate Valid()
      reads this
    {
      volunteer.Some? == isAuthenticated
    }

    constructor ()
      ensures volunteer == None && !isAuthenticated && Valid()
    {
      volunteer := None;
      isAuthenticated := false;
    }

    /** `login`: the demo account logs in as `mock`; anything else changes nothing. */
    method Login(email: string, pass: string, mock: Volunteer) returns (ok: bool)
      modifies this
      ensures ok == IsDemoLogin(email, pass)
      ensures ok ==> volunteer == Some(mock) && isAuthenticated
      ensures !ok ==> volunteer == old(volunteer) && isAuthenticated == old(isAuthenticated)
      ensures old(Valid()) ==> Valid()
    {
      ok := Js.ToLower(email) == DemoEmail && pass == DemoPassword;
      if ok {
        volunteer := Some(mock);
        isAuthenticated := true;
      }
    }

    /** `signup`: always succeeds, with a new profile built on `template`. */
    method Signup(data: SignupData, template: Volunteer, now: int) returns (ok: bool)
      modifies this
      ensures ok && isAuthenticated && Valid()
      ensures volunteer == Some(NewVolunteer(template, data, now))
    {
      volunteer := Some(NewVolunteer(template, data, now));
      isAuthenticated := true;
      ok := true;
    }

    method Logout()
      modifies this
      ensures volunteer == None && !isAuthenticated && Valid()
    {
      volunteer := None;
      isAuthenticated := false;
    }

    method RegisterForOpportunity(id: int, text: string)
      modifies this
      ensures volunteer == Register(old(volunteer), id, text)
      ensures isAuthenticated == old(isAuthenticated)
      ensures old(Valid()) ==> Valid()
    {
      volunteer := Register(volunteer, id, text);
    }

    method CancelRegistration(id: int)
      modifies this
      ensures volunteer == Cancel(old(volunteer), id)
      ensures isAuthenticated == old(isAuthenticated)
      ensures old(Valid()) ==> Valid()
    {
      volunteer := Cancel(volunteer, id);
    }

    /** The rating and comment are only logged; they are not parameters here. */
    method SubmitReview(id: int)
      modifies this
      ensures volunteer == Review(old(volunteer), id)
      ensures isAuthenticated == old(isAuthenticated)
      ensures old(Valid()) ==> Valid()
    {
      volunteer := Review(volunteer, id);
    }

    method UpdateVolunteer(updated: Volunteer)
      modifies this
      ensures volunteer == Some(updated)
      ensures isAuthenticated == old(isAuthenticated)
      ensures old(isAuthenticated) ==> Valid()
    {
      volunteer := Some(updated);
    }
  }
}
