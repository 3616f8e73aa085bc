/**
 * The optional "complete your profile" page of
 * `components/pages/CompleteProfile.tsx`: a partial profile form seeded
 * from the signed-in volunteer, a LinkedIn import that fills the form, and
 * a save that turns the comma-separated skills and languages texts into
 * lists.
 */
module CompleteProfile {
  import opened Types
  import opened Js
  import opened JsValue
  import opened TextLists

  function LinkedInFailureMessage(): string { "تعذّر استخراج بيانات LinkedIn، يُرجى التعديل يدويًا." }
  /** The graduation year saved while the volunteer is still studying. */
  function StillStudying(): string { "لا زال يدرس" }

  // ---------------------------------------------------------------------------
  // The LinkedIn address check

  const ProfileMarker: string := "linkedin.com/in/"

  /** `[a-zA-Z0-9-._~:?#\[\]@!$&'()*+,;=]` */
  predicate UrlChar(c: char) {
    ('a' <= c <= 'z') || ('A' <= c <= 'Z') || ('0' <= c <= '9') || c in "-._~:?#[]@!$&'()*+,;="
  }

  /**
   * The unanchored test of `/linkedin\.com\/in\/[...]+/`: the marker occurs
   * somewhere, followed by at least one allowed character.
   */
  predicate ValidLinkedIn(url: string) {
    exists i :: 0 <= i < |url| && MarkerAt(url, i)
  }

  /** The marker starts at `i` and an allowed character follows it. */
  predicate MarkerAt(url: string, i: int) {
    0 <= i && i + |ProfileMarker| < |url| &&
    url[i..i + |ProfileMarker|] == ProfileMarker && UrlChar(url[i + |ProfileMarker|])
  }

  /** Text around an accepted address does not make it rejected. */
  lemma ValidLinkedInExtends(pre: string, url: string, post: string)
    requires ValidLinkedIn(url)
    ensures ValidLinkedIn(pre + url + post)
  {
    var i :| 0 <= i < |url| && MarkerAt(url, i);
    var s := pre + url + post;
    var j := |pre| + i;
    assert s[j..j + |ProfileMarker|] == url[i..i + |ProfileMarker|];
    assert s[j + |ProfileMarker|] == url[i + |ProfileMarker|];
    assert MarkerAt(s, j);
  }

  /** Example: a profile address is accepted. */
  lemma ProfileAddressAccepted()
    ensures ValidLinkedIn("https://www." + ProfileMarker + "jane-doe")
  {
    var url := ProfileMarker + "jane-doe";
    assert url[..|ProfileMarker|] == ProfileMarker;
    assert MarkerAt(url, 0);
    ValidLinkedInExtends("https://www.", url, "");
    assert "https://www." + url + "" == "https://www." + ProfileMarker + "jane-doe";
  }

  /** The marker alone is rejected: a name must follow it. */
  lemma BareMarkerRejected()
    ensures !ValidLinkedIn(ProfileMarker)
  {
  }

  /** The marker followed by a space is rejected. */
  lemma SpacedMarkerRejected()
    ensures !ValidLinkedIn(ProfileMarker + " ")
  {
    var bad := ProfileMarker + " ";
    assert bad[16] == ' ';
  }

  // ---------------------------------------------------------------------------
  // The initial form

  const QualificationKey: string := "academicQualification"
  const GraduationYearKey: string := "graduationYear"
  const LinkedInKey: string := "linkedinUrl"
  const SkillsKey: string := "skills"
  const LanguagesKey: string := "languages"

  /** The text fields of the form, each defaulting to `""`. */
  const TextKeys: set<string> := {"specialization", "university", GraduationYearKey, LinkedInKey,
    "shortBio", "currentJobTitle", "currentEmployer"}

  /** `volunteer?.[k]` */
  function Field(volunteer: Option<Object>, k: string): Value {
    if volunteer.Some? then Get(volunteer.value, k) else Undefined
  }

  /**
   * The form the page starts with: each field is the volunteer's value when
   * truthy, else its default (`BACHELOR` for the qualification, `""` for
   * the text fields).
   */
  function InitialForm(volunteer: Option<Object>): (r: Object)
    ensures r.Keys == TextKeys + {QualificationKey}
    ensures Truthy(Field(volunteer, QualificationKey)) ==> r[QualificationKey] == Field(volunteer, QualificationKey)
    ensures !Truthy(Field(volunteer, QualificationKey)) ==> r[QualificationKey] == Str(QualificationValue(Bachelor))
    ensures forall k :: k in TextKeys ==>
      (Truthy(Field(volunteer, k)) ==> r[k] == Field(volunteer, k)) &&
      (!Truthy(Field(volunteer, k)) ==> r[k] == Str(""))
  {
    var texts := map k | k in TextKeys :: OrElse(Field(volunteer, k), Str(""));
    texts[QualificationKey := OrElse(Field(volunteer, QualificationKey), Str(QualificationValue(Bachelor)))]
  }

  /**
   * `l.language` for each language entry, in order; reading the property of
   * a `null` or `undefined` entry throws, which fails the whole `map`.
   */
  function LanguageNames(items: seq<Value>): (r: Outcome<seq<string>>)
    ensures r.Failure? <==> exists k :: 0 <= k < |items| && (items[k].Undefined? || items[k].Null?)
    ensures r.Success? ==> |r.value| == |items|
    ensures r.Success? ==> forall k :: 0 <= k < |items| ==>
      r.value[k] == (if items[k].Obj? then StrText(Get(items[k].fields, "language")) else "")
  {
    if items == [] then Success([])
    else
      var head := Property(items[0], "language");
      var tail := LanguageNames(items[1..]);
      if head.Failure? then Failure
      else if tail.Failure? then
        assert exists k :: 0 <= k < |items[1..]| && (items[1..][k].Undefined? || items[1..][k].Null?);
        Failure
      else
        var r := Success([StrText(head.value)] + tail.value);
        assert forall k :: 0 < k < |items| ==> items[k] == items[1..][k - 1];
        r
  }

  /**
   * `volunteer?.languages?.map(l => l.language).join(', ') || ''`: "" when
   * there is no volunteer or no languages; a TypeError when the languages
   * are present but not an array (no `map`) or hold a `null` or `undefined`
   * entry.
   */
  function LanguagesText(volunteer: Option<Object>): (r: Outcome<string>)
    ensures var v := Field(volunteer, LanguagesKey);
      r.Failure? <==>
        if v.Arr? then LanguageNames(v.items).Failure? else !(v.Undefined? || v.Null?)
    ensures var v := Field(volunteer, LanguagesKey);
      v.Undefined? || v.Null? ==> r == Success("")
    ensures var v := Field(volunteer, LanguagesKey);
      v.Arr? && r.Success? ==> r.value == Join(LanguageNames(v.items).value, ", ")
  {
    var v := Field(volunteer, LanguagesKey);
    if v.Undefined? || v.Null? then Success("")
    else if !v.Arr? then Failure
    else
      var names := LanguageNames(v.items);
      if names.Failure? then Failure else Success(Join(names.value, ", "))
  }

  /**
   * `volunteer?.skills?.join(', ') || ''`: "" when there is no volunteer or
   * no skills; a TypeError when the skills are present but not an array.
   */
  function SkillsText(volunteer: Option<Object>): (r: Outcome<string>)
    ensures var v := Field(volunteer, SkillsKey);
      r.Failure? <==> !(v.Arr? || v.Undefined? || v.Null?)
    ensures var v := Field(volunteer, SkillsKey);
      v.Undefined? || v.Null? ==> r == Success("")
    ensures var v := Field(volunteer, SkillsKey);
      v.Arr? ==> r == Success(Join(Texts(v.items), ", "))
  {
    var v := Field(volunteer, SkillsKey);
    if v.Undefined? || v.Null? then Success("")
    else if v.Arr? then Success(Join(Texts(v.items), ", "))
    else Failure
  }

  // ---------------------------------------------------------------------------
  // The LinkedIn import

  /**
   * What the import merges into the form, and the new skills text: truthy
   * `skills` must be an array (anything else has no `join` and throws); it
   * becomes the `", "`-joined skills text and leaves the update.
   */
  function ExtractUpdate(extracted: Object): (r: Outcome<(Object, Option<string>)>)
    ensures r.Failure? <==> Truthy(Get(extracted, SkillsKey)) && !Get(extracted, SkillsKey).Arr?
    ensures r.Success? ==> SkillsKey !in r.value.0 || !Truthy(Get(extracted, SkillsKey))
    ensures r.Success? ==> forall k :: k != SkillsKey ==>
      (k in r.value.0 <==> k in extracted) && (k in extracted ==> r.value.0[k] == extracted[k])
    ensures r.Success? ==>
      (r.value.1.Some? <==> Truthy(Get(extracted, SkillsKey))) &&
      (r.value.1.Some? ==> r.value.1.value == Join(Texts(Get(extracted, SkillsKey).items), ", "))
    ensures r.Success? && !Truthy(Get(extracted, SkillsKey)) ==> r.value.0 == extracted
  {
    var skills := Get(extracted, SkillsKey);
    if !Truthy(skills) then Success((extracted, None))
    else if skills.Arr? then Success((extracted - {SkillsKey}, Some(Join(Texts(skills.items), ", "))))
    else Failure
  }

  /**
   * Imported skills that are items come back unchanged when the skills
   * text is saved.
   */
  lemma {:induction false} ImportedSkillsRoundTrip(xs: seq<string>)
    requires forall k :: 0 <= k < |xs| ==> IsItem(xs[k])
    ensures ParseList(Join(Texts(StrArray(xs).items), ", ")) == xs
  {
    assert Texts(StrArray(xs).items) == xs;
    ParseJoined(xs);
  }

  // ---------------------------------------------------------------------------
  // Saving

  /** A language entry at the level every saved language gets. */
  function LanguageEntry(name: string): Value {
    Obj(map["language" := Str(name), "level" := Str(LevelValue(Intermediate))])
  }

  /** `languages.map(lang => ({ language: lang, level: INTERMEDIATE }))` */
  function LanguageEntries(names: seq<string>): (r: Value)
    ensures r.Arr? && |r.items| == |names|
    ensures forall k :: 0 <= k < |names| ==> r.items[k] == LanguageEntry(names[k])
  {
    if names == [] then Arr([]) else Arr([LanguageEntry(names[0])] + LanguageEntries(names[1..]).items)
  }

  /**
   * The saved skills, given the items of the skills text: those items, else
   * the volunteer's skills, else `[]`.
   */
  function SavedSkills(volunteer: Option<Object>, skills: seq<string>): (r: Value)
    ensures skills != [] ==> (r.Arr? && |r.items| == |skills| &&
      forall k :: 0 <= k < |skills| ==> r.items[k] == Str(skills[k]))
    ensures skills == [] && Truthy(Field(volunteer, SkillsKey)) ==> r == Field(volunteer, SkillsKey)
    ensures skills == [] && !Truthy(Field(volunteer, SkillsKey)) ==> r == Arr([])
  {
    if |skills| > 0 then StrArray(skills) else OrElse(Field(volunteer, SkillsKey), Arr([]))
  }

  /**
   * The saved languages, given the items of the languages text: one entry per
   * item at the intermediate level, else the volunteer's languages, else `[]`.
   */
  function SavedLanguages(volunteer: Option<Object>, languages: seq<string>): (r: Value)
    ensures languages != [] ==> (r.Arr? && |r.items| == |languages| &&
      forall k :: 0 <= k < |languages| ==> r.items[k] == LanguageEntry(languages[k]))
    ensures languages == [] && Truthy(Field(volunteer, LanguagesKey)) ==> r == Field(volunteer, LanguagesKey)
    ensures languages == [] && !Truthy(Field(volunteer, LanguagesKey)) ==> r == Arr([])
  {
    if |languages| > 0 then LanguageEntries(languages) else OrElse(Field(volunteer, LanguagesKey), Arr([]))
  }

  /** The graduation year saved: the still-studying text when the box is checked. */
  function SavedYear(formData: Object, isStudying: bool): Value {
    if isStudying then Str(StillStudying()) else Get(formData, GraduationYearKey)
  }

  /**
   * The object handed to `updateVolunteer`, given the items of the languages
   * and skills texts: the volunteer's properties, overridden by the form's,
   * with the graduation year, languages and skills set as the save computes
   * them.
   */
  function SavedProfile(volunteer: Option<Object>, formData: Object, languages: seq<string>,
                        skills: seq<string>, isStudying: bool): (r: Object)
    ensures r.Keys == (if volunteer.Some? then volunteer.value.Keys else {}) + formData.Keys +
      {GraduationYearKey, LanguagesKey, SkillsKey}
    ensures forall k :: k in formData && k != GraduationYearKey && k != LanguagesKey && k != SkillsKey ==>
      r[k] == formData[k]
    ensures forall k :: (volunteer.Some? && k in volunteer.value && k !in formData &&
      k != GraduationYearKey && k != LanguagesKey && k != SkillsKey) ==> r[k] == volunteer.value[k]
    ensures r[GraduationYearKey] == SavedYear(formData, isStudying)
    ensures r[LanguagesKey] == SavedLanguages(volunteer, languages)
    ensures r[SkillsKey] == SavedSkills(volunteer, skills)
  {
    var base := Spread(if volunteer.Some? then volunteer.value else map[], formData);
    base[GraduationYearKey := SavedYear(formData, isStudying)]
        [LanguagesKey := SavedLanguages(volunteer, languages)]
        [SkillsKey := SavedSkills(volunteer, skills)]
  }

  /** The skills text of a volunteer whose skills are the strings `xs`. */
  lemma {:induction false} SkillsTextOf(volunteer: Object, xs: seq<string>)
    requires SkillsKey in volunteer && volunteer[SkillsKey] == StrArray(xs)
    ensures SkillsText(Some(volunteer)) == Success(Join(xs, ", "))
  {
    assert Texts(StrArray(xs).items) == xs;
  }

  /** The skills text of a volunteer whose skills are items reads back as those skills. */
  lemma {:induction false} SkillsTextReadsBack(volunteer: Object, xs: seq<string>)
    requires SkillsKey in volunteer && volunteer[SkillsKey] == StrArray(xs)
    requires forall k :: 0 <= k < |xs| ==> IsItem(xs[k])
    ensures SkillsText(Some(volunteer)).Success?
    ensures ParseList(SkillsText(Some(volunteer)).value) == xs
  {
    var text := Join(xs, ", ");
    SkillsTextOf(volunteer, xs);
    ParseShown(text, xs);
  }

  /** Skills that are all strings are saved as they are when the text holds none. */
  lemma {:induction false} SavedOwnSkills(volunteer: Object, xs: seq<string>)
    requires SkillsKey in volunteer && volunteer[SkillsKey] == StrArray(xs)
    ensures SavedSkills(Some(volunteer), xs) == StrArray(xs)
  {
    if xs == [] {
      assert Field(Some(volunteer), SkillsKey) == Arr([]);
    }
  }

  // ---------------------------------------------------------------------------
  // The page

  class CompleteProfilePage {
    /** The signed-in volunteer, as a plain object. */
    const volunteer: Option<Object>
    var formData: Object
    var languagesInput: string
    var skillsInput: string
    var isStudying: bool
    var isLoading: bool
    var isValidLinkedInUrl: bool
    var isExtracting: bool
    var extractionError: Option<string>

    /** The first render; a volunteer whose texts throw never gets a page. */
    constructor (volunteer: Option<Object>)
      ensures this.volunteer == volunteer
      ensures formData == InitialForm(volunteer)
      requires LanguagesText(volunteer).Success? && SkillsText(volunteer).Success?
      ensures languagesInput == LanguagesText(volunteer).value
      ensures skillsInput == SkillsText(volunteer).value
      ensures !isStudying && !isLoading && !isValidLinkedInUrl && !isExtracting
      ensures extractionError == None
    {
      this.volunteer := volunteer;
      formData := InitialForm(volunteer);
      languagesInput := LanguagesText(volunteer).value;
      skillsInput := SkillsText(volunteer).value;
      isStudying := false;
      isLoading := false;
      isValidLinkedInUrl := false;
      isExtracting := false;
      extractionError := None;
    }

    /** A form field changed: only that property changes. */
    method HandleChange(name: string, value: string)
      modifies this
      ensures formData == old(formData)[name := Str(value)]
      ensures languagesInput == old(languagesInput) && skillsInput == old(skillsInput)
      ensures isStudying == old(isStudying) && isLoading == old(isLoading)
      ensures isValidLinkedInUrl == old(isValidLinkedInUrl) && isExtracting == old(isExtracting)
      ensures extractionError == old(extractionError)
    {
      formData := formData[name := Str(value)];
    }

    /**
     * The LinkedIn address changed: it is stored, its validity recorded, and
     * an invalid address clears the import error.
     */
    method HandleLinkedInChange(name: string, value: string)
      modifies this
      ensures formData == old(formData)[name := Str(value)]
      ensures isValidLinkedInUrl == ValidLinkedIn(value)
      ensures !ValidLinkedIn(value) ==> extractionError == None
      ensures ValidLinkedIn(value) ==> extractionError == old(extractionError)
      ensures languagesInput == old(languagesInput) && skillsInput == old(skillsInput)
      ensures isStudying == old(isStudying) && isLoading == old(isLoading)
      ensures isExtracting == old(isExtracting)
    {
      formData := formData[name := Str(value)];
      var isValid := ValidLinkedIn(value);
      isValidLinkedInUrl := isValid;
      if !isValid {
        extractionError := None;
      }
    }

    /** The import starts only with a non-empty address; it clears the error. */
    method StartExtract() returns (started: bool)
      modifies this
      ensures started == Truthy(Get(old(formData), LinkedInKey))
      ensures started ==> isExtracting && extractionError == None
      ensures !started ==> isExtracting == old(isExtracting) && extractionError == old(extractionError)
      ensures formData == old(formData)
      ensures languagesInput == old(languagesInput) && skillsInput == old(skillsInput)
      ensures isStudying == old(isStudying) && isLoading == old(isLoading)
      ensures isValidLinkedInUrl == old(isValidLinkedInUrl)
    {
      started := Truthy(Get(formData, LinkedInKey));
      if started {
        isExtracting := true;
        extractionError := None;
      }
    }

    /**
     * The import's answer arrived (`extracted` is what
     * `extractInfoFromLinkedIn` produced, or its failure): imported skills
     * replace the skills text, the other properties are merged over the
     * form; any failure sets the error and leaves the form alone; the import
     * ends in every case.
     */
    method FinishExtract(extracted: Outcome<Object>)
      modifies this
      ensures !isExtracting
      ensures extracted.Failure? || ExtractUpdate(extracted.value).Failure? ==>
        extractionError == Some(LinkedInFailureMessage()) &&
        formData == old(formData) && skillsInput == old(skillsInput)
      ensures extracted.Success? && ExtractUpdate(extracted.value).Success? ==>
        var u := ExtractUpdate(extracted.value).value;
        extractionError == old(extractionError) &&
        formData == Spread(old(formData), u.0) &&
        skillsInput == (if u.1.Some? then u.1.value else old(skillsInput))
      ensures languagesInput == old(languagesInput)
      ensures isStudying == old(isStudying) && isLoading == old(isLoading)
      ensures isValidLinkedInUrl == old(isValidLinkedInUrl)
    {
      if extracted.Failure? {
        extractionError := Some(LinkedInFailureMessage());
      } else {
        var update := ExtractUpdate(extracted.value);
        if update.Failure? {
          extractionError := Some(LinkedInFailureMessage());
        } else {
          var (u, text) := update.value;
          if text.Some? {
            skillsInput := text.value;
          }
          formData := Spread(formData, u);
        }
      }
      isExtracting := false;
    }

    /** The still-studying box. */
    method SetStudying(checked: bool)
      modifies this
      ensures isStudying == checked
      ensures formData == old(formData)
      ensures languagesInput == old(languagesInput) && skillsInput == old(skillsInput)
      ensures isLoading == old(isLoading) && isValidLinkedInUrl == old(isValidLinkedInUrl)
      ensures isExtracting == old(isExtracting) && extractionError == old(extractionError)
    {
      isStudying := checked;
    }

    /** Saving: loading starts and the profile to store is handed over. */
    method HandleSave() returns (saved: Object)
      modifies this
      ensures saved == SavedProfile(volunteer, formData, ParseList(languagesInput), ParseList(skillsInput), isStudying)
      ensures isLoading
      ensures formData == old(formData)
      ensures languagesInput == old(languagesInput) && skillsInput == old(skillsInput)
      ensures isStudying == old(isStudying) && isValidLinkedInUrl == old(isValidLinkedInUrl)
      ensures isExtracting == old(isExtracting) && extractionError == old(extractionError)
    {
      isLoading := true;
      saved := SavedProfile(volunteer, formData, ParseList(languagesInput), ParseList(skillsInput), isStudying);
    }

    /** The save timer fires: loading ends (and the page navigates to the profile). */
    method FinishSave()
      modifies this
      ensures !isLoading
      ensures formData == old(formData)
      ensures languagesInput == old(languagesInput) && skillsInput == old(skillsInput)
      ensures isStudying == old(isStudying) && isValidLinkedInUrl == old(isValidLinkedInUrl)
      ensures isExtracting == old(isExtracting) && extractionError == old(extractionError)
    {
      isLoading := false;
    }
  }
}
