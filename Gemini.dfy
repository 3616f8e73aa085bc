/**
 * The post-processing `services/geminiService.ts` applies to the AI model's
 * answers. The model call itself is an input: its answer text, or a
 * failure; `JSON.parse` is a parameter `parse` that yields a value or a
 * failure.
 */
module Gemini {
  import opened Types
  import opened Js
  import opened JsValue

  // ---------------------------------------------------------------------------
  // getRecommendations

  predicate AllNumbers(items: seq<Value>) {
    forall k :: 0 <= k < |items| ==> items[k].Num?
  }

  /** The ids of a parsed answer: an array of numbers is kept, anything else is `[]`. */
  function Recommendations(parsed: Outcome<Value>): (r: seq<real>)
    ensures parsed.Success? && parsed.value.Arr? && AllNumbers(parsed.value.items) ==>
      |r| == |parsed.value.items| &&
      forall k :: 0 <= k < |r| ==> parsed.value.items[k] == Num(r[k])
    ensures !(parsed.Success? && parsed.value.Arr? && AllNumbers(parsed.value.items)) ==> r == []
  {
    if parsed.Success? && parsed.value.Arr? && AllNumbers(parsed.value.items) then
      Numbers(parsed.value.items)
    else []
  }

  function Numbers(items: seq<Value>): (r: seq<real>)
    requires AllNumbers(items)
    ensures |r| == |items| && forall k :: 0 <= k < |r| ==> items[k] == Num(r[k])
  {
    if items == [] then [] else [items[0].n] + Numbers(items[1..])
  }

  /** `getRecommendations`: any failure of the call or of the parse gives `[]`. */
  function GetRecommendations(answer: Outcome<string>, parse: string -> Outcome<Value>): (r: seq<real>)
    ensures answer.Failure? ==> r == []
    ensures answer.Success? ==> r == Recommendations(parse(Trim(answer.value)))
  {
    if answer.Failure? then [] else Recommendations(parse(Trim(answer.value)))
  }

  // ---------------------------------------------------------------------------
  // extractInfoFromCV

  /**
   * `extractInfoFromCV`: a failure of the call or of the parse is a
   * failure; a parsed value of type `object` other than `null` (which
   * includes arrays) is returned, anything else becomes `{}`.
   */
  function CvData(answer: Outcome<string>, parse: string -> Outcome<Value>): (r: Outcome<Value>)
    ensures answer.Failure? ==> r.Failure?
    ensures answer.Success? ==> (r.Failure? <==> parse(Trim(answer.value)).Failure?)
    ensures r.Success? ==> r.value.Obj? || r.value.Arr?
    ensures r.Success? ==>
      var p := parse(Trim(answer.value)).value;
      r.value == (if p.Obj? || p.Arr? then p else Obj(map[]))
  {
    if answer.Failure? then Failure
    else
      var p := parse(Trim(answer.value));
      if p.Failure? then Failure
      else if p.value.Obj? || p.value.Arr? then p
      else Success(Obj(map[]))
  }

  // ---------------------------------------------------------------------------
  // mapQualificationToEnum

  /** The order in which the mapper tries the qualifications; `STUDENT` is never tried. */
  function Rank(a: AcademicQualification): nat {
    match a
    case Bachelor => 0
    case Master => 1
    case Phd => 2
    case Diploma => 3
    case HighSchool => 4
    case Student => 5
  }

  /** The lower-cased text names qualification `a` in English or Arabic. */
  predicate Mentions(q: string, a: AcademicQualification) {
    match a
    case Bachelor => Includes(q, "bachelor") || Includes(q, "بكالوريوس")
    case Master => Includes(q, "master") || Includes(q, "ماجستير")
    case Phd => Includes(q, "phd") || Includes(q, "دكتوراه")
    case Diploma => Includes(q, "diploma") || Includes(q, "دبلوم")
    case HighSchool => Includes(q, "high school") || Includes(q, "ثانوية")
    case Student => false
  }

  /**
   * `mapQualificationToEnum`: empty text maps to nothing; otherwise the
   * first qualification of `Tried` the lower-cased text mentions, or nothing.
   */
  function MapQualification(qualification: string): (r: Option<AcademicQualification>)
    ensures qualification == "" ==> r == None
    ensures r.Some? ==> r.value != Student && Mentions(ToLower(qualification), r.value)
    ensures r.Some? ==> forall b :: Rank(b) < Rank(r.value) ==> !Mentions(ToLower(qualification), b)
    ensures r.None? && qualification != "" ==> forall b :: !Mentions(ToLower(qualification), b)
  {
    if qualification == "" then None
    else
      var q := ToLower(qualification);
      if Mentions(q, Bachelor) then Some(Bachelor)
      else if Mentions(q, Master) then Some(Master)
      else if Mentions(q, Phd) then Some(Phd)
      else if Mentions(q, Diploma) then Some(Diploma)
      else if Mentions(q, HighSchool) then Some(HighSchool)
      else None
  }

  lemma LowerCharIdempotent(c: char)
    ensures LowerChar(LowerChar(c)) == LowerChar(c)
  {
  }

  /** Lower-casing is idempotent. */
  lemma ToLowerIdempotent(s: string)
    ensures ToLower(ToLower(s)) == ToLower(s)
  {
    var t := ToLower(s);
    forall k | 0 <= k < |s| ensures ToLower(t)[k] == t[k] {
      LowerCharIdempotent(s[k]);
    }
  }

  /** The mapper does not depend on letter case. */
  lemma MapQualificationIgnoresCase(qualification: string)
    ensures MapQualification(ToLower(qualification)) == MapQualification(qualification)
  {
    ToLowerIdempotent(qualification);
  }

  /** A text that has no position where `t` could start does not include `t`. */
  lemma NotIncluded(s: string, t: string)
    requires t != ""
    requires forall i :: 0 <= i && i + |t| <= |s| ==> s[i] != t[0]
    ensures !Includes(s, t)
  {
    forall i | 0 <= i <= |s| ensures !(t <= s[i..]) {
      if |t| <= |s| - i {
        assert s[i..][0] == s[i];
      }
    }
  }

  lemma PrefixIncluded(s: string, t: string)
    requires t <= s
    ensures Includes(s, t)
  {
    assert s[0..] == s;
  }

  lemma ToLowerArabic(s: string)
    requires forall k :: 0 <= k < |s| ==> !('A' <= s[k] <= 'Z')
    ensures ToLower(s) == s
  {
  }

  /** A lower-case text that mentions `a` and none of the qualifications
      tried before it maps to `a`. */
  lemma MapsFirstMentioned(q: string, a: AcademicQualification)
    requires q != "" && ToLower(q) == q && a != Student && Mentions(q, a)
    requires Rank(a) > 0 ==> !Mentions(q, Bachelor)
    requires Rank(a) > 1 ==> !Mentions(q, Master)
    requires Rank(a) > 2 ==> !Mentions(q, Phd)
    requires Rank(a) > 3 ==> !Mentions(q, Diploma)
    ensures MapQualification(q) == Some(a)
  {
  }

  // The lemmas from here to MapQualificationValues are its steps, one
  // enum value and one fact each: which names a value's own text mentions,
  // and that it is already lower case.

  lemma HighSchoolLower(v: string)
    requires v == QualificationValue(HighSchool)
    ensures ToLower(v) == v
  {
    ToLowerArabic(v);
  }

  lemma HighSchoolNamed(v: string)
    requires v == QualificationValue(HighSchool)
    ensures Mentions(v, HighSchool)
  {
    PrefixIncluded(v, "ثانوية");
  }

  lemma DiplomaLower(v: string)
    requires v == QualificationValue(Diploma)
    ensures ToLower(v) == v
  {
    ToLowerArabic(v);
  }

  lemma DiplomaNamed(v: string)
    requires v == QualificationValue(Diploma)
    ensures Mentions(v, Diploma)
  {
    PrefixIncluded(v, "دبلوم");
  }

  lemma BachelorLower(v: string)
    requires v == QualificationValue(Bachelor)
    ensures ToLower(v) == v
  {
    ToLowerArabic(v);
  }

  lemma BachelorNamed(v: string)
    requires v == QualificationValue(Bachelor)
    ensures Mentions(v, Bachelor)
  {
    PrefixIncluded(v, "بكالوريوس");
  }

  lemma MasterLower(v: string)
    requires v == QualificationValue(Master)
    ensures ToLower(v) == v
  {
    ToLowerArabic(v);
  }

  lemma MasterNamed(v: string)
    requires v == QualificationValue(Master)
    ensures Mentions(v, Master)
  {
    PrefixIncluded(v, "ماجستير");
  }

  lemma PhdLower(v: string)
    requires v == QualificationValue(Phd)
    ensures ToLower(v) == v
  {
    ToLowerArabic(v);
  }

  lemma PhdNamed(v: string)
    requires v == QualificationValue(Phd)
    ensures Mentions(v, Phd)
  {
    PrefixIncluded(v, "دكتوراه");
  }

  lemma StudentLower(v: string)
    requires v == QualificationValue(Student)
    ensures ToLower(v) == v
  {
    ToLowerArabic(v);
  }

  lemma HighSchoolSkips1(v: string)
    requires v == QualificationValue(HighSchool)
    ensures !Mentions(v, Bachelor)
    ensures !Mentions(v, Master)
  {
    NotIncluded(v, "bachelor"); NotIncluded(v, "بكالوريوس");
    NotIncluded(v, "master"); NotIncluded(v, "ماجستير");
  }

  lemma HighSchoolSkips2(v: string)
    requires v == QualificationValue(HighSchool)
    ensures !Mentions(v, Phd)
    ensures !Mentions(v, Diploma)
  {
    NotIncluded(v, "phd"); NotIncluded(v, "دكتوراه");
    NotIncluded(v, "diploma"); NotIncluded(v, "دبلوم");
  }

  lemma MapsHighSchool(v: string)
    requires v == QualificationValue(HighSchool)
    ensures MapQualification(v) == Some(HighSchool)
  {
    HighSchoolLower(v);
    HighSchoolNamed(v);
    HighSchoolSkips1(v);
    HighSchoolSkips2(v);
    MapsFirstMentioned(v, HighSchool);
  }

  lemma DiplomaSkips1(v: string)
    requires v == QualificationValue(Diploma)
    ensures !Mentions(v, Bachelor)
    ensures !Mentions(v, Master)
  {
    NotIncluded(v, "bachelor"); NotIncluded(v, "بكالوريوس");
    NotIncluded(v, "master"); NotIncluded(v, "ماجستير");
  }

  lemma DiplomaSkips2(v: string)
    requires v == QualificationValue(Diploma)
    ensures !Mentions(v, Phd)
  {
    NotIncluded(v, "phd"); NotIncluded(v, "دكتوراه");
  }

  lemma MapsDiploma(v: string)
    requires v == QualificationValue(Diploma)
    ensures MapQualification(v) == Some(Diploma)
  {
    DiplomaLower(v);
    DiplomaNamed(v);
    DiplomaSkips1(v);
    DiplomaSkips2(v);
    MapsFirstMentioned(v, Diploma);
  }

  lemma MapsBachelor(v: string)
    requires v == QualificationValue(Bachelor)
    ensures MapQualification(v) == Some(Bachelor)
  {
    BachelorLower(v);
    BachelorNamed(v);
    MapsFirstMentioned(v, Bachelor);
  }

  lemma MasterSkips1(v: string)
    requires v == QualificationValue(Master)
    ensures !Mentions(v, Bachelor)
  {
    NotIncluded(v, "bachelor"); NotIncluded(v, "بكالوريوس");
  }

  lemma MapsMaster(v: string)
    requires v == QualificationValue(Master)
    ensures MapQualification(v) == Some(Master)
  {
    MasterLower(v);
    MasterNamed(v);
    MasterSkips1(v);
    MapsFirstMentioned(v, Master);
  }

  lemma PhdSkips1(v: string)
    requires v == QualificationValue(Phd)
    ensures !Mentions(v, Bachelor)
    ensures !Mentions(v, Master)
  {
    NotIncluded(v, "bachelor"); NotIncluded(v, "بكالوريوس");
    NotIncluded(v, "master"); NotIncluded(v, "ماجستير");
  }

  lemma MapsPhd(v: string)
    requires v == QualificationValue(Phd)
    ensures MapQualification(v) == Some(Phd)
  {
    PhdLower(v);
    PhdNamed(v);
    PhdSkips1(v);
    MapsFirstMentioned(v, Phd);
  }

  lemma StudentSkips1(v: string)
    requires v == QualificationValue(Student)
    ensures !Mentions(v, Bachelor)
    ensures !Mentions(v, Master)
  {
    NotIncluded(v, "bachelor"); NotIncluded(v, "بكالوريوس");
    NotIncluded(v, "master"); NotIncluded(v, "ماجستير");
  }

  lemma StudentSkips2(v: string)
    requires v == QualificationValue(Student)
    ensures !Mentions(v, Phd)
    ensures !Mentions(v, Diploma)
  {
    NotIncluded(v, "phd"); NotIncluded(v, "دكتوراه");
    NotIncluded(v, "diploma"); NotIncluded(v, "دبلوم");
  }

  lemma StudentSkips3(v: string)
    requires v == QualificationValue(Student)
    ensures !Mentions(v, HighSchool)
  {
    NotIncluded(v, "high school"); NotIncluded(v, "ثانوية");
  }

  /** A non-empty lower-case text that mentions no qualification maps to nothing. */
  lemma MapsNothing(q: string)
    requires q != "" && ToLower(q) == q
    requires !Mentions(q, Bachelor) && !Mentions(q, Master) && !Mentions(q, Phd)
    requires !Mentions(q, Diploma) && !Mentions(q, HighSchool)
    ensures MapQualification(q) == None
  {
  }

  lemma MapsStudentToNothing(v: string)
    requires v == QualificationValue(Student)
    ensures MapQualification(v) == None
  {
    StudentLower(v);
    StudentSkips1(v);
    StudentSkips2(v);
    StudentSkips3(v);
    MapsNothing(v);
  }

  /**
   * Read back through the mapper, every qualification value except that of
   * `STUDENT` gives its own qualification; `STUDENT`'s gives nothing.
   */
  lemma MapQualificationValues(a: AcademicQualification)
    ensures a != Student ==> MapQualification(QualificationValue(a)) == Some(a)
    ensures a == Student ==> MapQualification(QualificationValue(a)) == None
  {
    match a
    case HighSchool => MapsHighSchool(QualificationValue(a));
    case Diploma => MapsDiploma(QualificationValue(a));
    case Bachelor => MapsBachelor(QualificationValue(a));
    case Master => MapsMaster(QualificationValue(a));
    case Phd => MapsPhd(QualificationValue(a));
    case Student => MapsStudentToNothing(QualificationValue(a));
  }

  // ---------------------------------------------------------------------------
  // Locating the JSON text in the LinkedIn answer

  const Opener: string := "```json\n"
  const Closer: string := "\n```"

  /**
   * The group of ```` /```json\n([\s\S]*?)\n```/ ````: the text between the
   * first opener and the first closer after it.
   */
  function FencedBlock(text: string): Option<string> {
    var p := IndexOf(text, Opener);
    if p == -1 then None
    else
      var rest := text[p + |Opener|..];
      var c := IndexOf(rest, Closer);
      if c == -1 then None else Some(rest[..c])
  }

  /** The regular expression matches at `p`: an opener there, a closer after it. */
  ghost predicate FenceAt(text: string, p: int) {
    0 <= p <= |text| && Opener <= text[p..] && Includes(text[p..][|Opener|..], Closer)
  }

  lemma IncludesSuffix(s: string, j: nat, t: string)
    requires j <= |s| && Includes(s[j..], t)
    ensures Includes(s, t)
  {
    var i :| 0 <= i <= |s[j..]| && t <= s[j..][i..];
    assert s[j..][i..] == s[j + i..];
  }

  lemma NoOpener(text: string)
    requires !Includes(text, Opener)
    ensures forall q :: 0 <= q <= |text| ==> !FenceAt(text, q)
  {
    forall q | 0 <= q <= |text| ensures !FenceAt(text, q) {
      if Opener <= text[q..] {
        assert Includes(text, Opener);
      }
    }
  }

  lemma NoCloserAfter(text: string, p: nat)
    requires p + |Opener| <= |text|
    requires forall q :: 0 <= q < p ==> !(Opener <= text[q..])
    requires !Includes(text[p + |Opener|..], Closer)
    ensures forall q :: 0 <= q <= |text| ==> !FenceAt(text, q)
  {
    var rest := text[p + |Opener|..];
    forall q | 0 <= q <= |text| ensures !FenceAt(text, q) {
      if q >= p && Opener <= text[q..] && Includes(text[q..][|Opener|..], Closer) {
        assert text[q..][|Opener|..] == rest[q - p..];
        IncludesSuffix(rest, q - p, Closer);
      }
    }
  }

  lemma BlockAt(text: string, p: nat, rest: string, c: nat)
    requires p + |Opener| <= |text| && Opener <= text[p..] && rest == text[p + |Opener|..]
    requires c + |Closer| <= |rest| && rest[c..c + |Closer|] == Closer
    requires forall q :: 0 <= q < c ==> !(Closer <= rest[q..])
    ensures var b := rest[..c];
      FenceAt(text, p) && Opener + b + Closer <= text[p..] && !Includes(b, Closer)
  {
    assert text[p..][|Opener|..] == rest;
    assert Closer <= rest[c..];
    assert Includes(rest, Closer);
    PrefixBeforeFirst(rest, Closer, c);
    assert text[p..] == Opener + rest[..c] + Closer + rest[c + |Closer|..];
  }

  /** The leftmost match of the regular expression is at `p`, and its
      group, the shortest, is `b`: no closer inside it. */
  ghost predicate FirstMatchAt(text: string, p: int, b: string) {
    && FenceAt(text, p)
    && (forall q :: 0 <= q < p ==> !FenceAt(text, q))
    && Opener + b + Closer <= text[p..]
    && !Includes(b, Closer)
  }

  /**
   * There is no block exactly when the regular expression matches nowhere;
   * otherwise the block is the group of the leftmost match.
   */
  lemma FencedBlockIsFirstMatch(text: string)
    ensures FencedBlock(text).None? <==> forall p :: 0 <= p <= |text| ==> !FenceAt(text, p)
    ensures FencedBlock(text).Some? ==> exists p :: FirstMatchAt(text, p, FencedBlock(text).value)
  {
    if FencedBlock(text).None? {
      NoFencedBlock(text);
    } else {
      var p := IndexOf(text, Opener);
      FoundFencedBlock(text);
      assert FenceAt(text, p);
    }
  }

  lemma NoFencedBlock(text: string)
    requires FencedBlock(text).None?
    ensures forall p :: 0 <= p <= |text| ==> !FenceAt(text, p)
  {
    var p := IndexOf(text, Opener);
    IndexOfFirst(text, Opener);
    if p == -1 {
      NoOpener(text);
    } else {
      IndexOfFirst(text[p + |Opener|..], Closer);
      NoCloserAfter(text, p);
    }
  }

  lemma FoundFencedBlock(text: string)
    requires FencedBlock(text).Some?
    ensures IndexOf(text, Opener) >= 0
    ensures FirstMatchAt(text, IndexOf(text, Opener), FencedBlock(text).value)
  {
    var p := IndexOf(text, Opener);
    IndexOfFirst(text, Opener);
    var rest := text[p + |Opener|..];
    var c := IndexOf(rest, Closer);
    assert c != -1;
    IndexOfFirst(rest, Closer);
    BlockAt(text, p, rest, c);
  }

  /**
   * The fallback: from the first `{` through the last `}`, when both exist
   * and the last `}` comes after the first `{`.
   */
  function BracedBlock(text: string): (r: Option<string>)
    ensures r.Some? ==> r.value != ""
  {
    var s := IndexOf(text, "{");
    var e := LastIndexOf(text, '}');
    if s != -1 && e != -1 && e > s then Some(text[s..e + 1]) else None
  }

  /** The braced block exists exactly when some `{` precedes some `}`. */
  lemma BracedBlockShape(text: string)
    ensures BracedBlock(text).None? <==>
      forall i, j :: 0 <= i < j < |text| && text[i] == '{' ==> text[j] != '}'
  {
    FirstOpenBrace(text);
    LastCloseBrace(text);
    var s := IndexOf(text, "{");
    var e := LastIndexOf(text, '}');
    if s != -1 && e != -1 && e > s {
      assert text[s] == '{' && text[e] == '}';
    }
  }

  /** `s` is the first `{` of the text and `e`, after it, the last `}`. */
  predicate OuterBraces(text: string, s: int, e: int) {
    && 0 <= s < e < |text| && text[s] == '{' && text[e] == '}'
    && '{' !in text[..s] && '}' !in text[e + 1..]
  }

  /** The braced block runs from the first `{` to the last `}`. */
  lemma BracedBlockBounds(text: string)
    requires BracedBlock(text).Some?
    ensures exists s, e :: OuterBraces(text, s, e) && BracedBlock(text).value == text[s..e + 1]
  {
    FirstOpenBrace(text);
    LastCloseBrace(text);
    var s := IndexOf(text, "{");
    var e := LastIndexOf(text, '}');
    assert OuterBraces(text, s, e);
    assert BracedBlock(text).value == text[s..e + 1];
  }

  /** The first `{`: every `{` is at or after it, and none is before it. */
  lemma FirstOpenBrace(text: string)
    ensures var s := IndexOf(text, "{");
      && (forall i :: 0 <= i < |text| && text[i] == '{' ==> 0 <= s <= i)
      && (s != -1 ==> text[s] == '{' && '{' !in text[..s])
  {
    var s := IndexOf(text, "{");
    IndexOfFirst(text, "{");
    forall i | 0 <= i < |text| && text[i] == '{' ensures 0 <= s <= i {
      assert text[i..][..1] == "{";
      assert Includes(text, "{");
    }
    if s != -1 {
      assert text[s] == text[s..s + 1][0];
      forall i | 0 <= i < s ensures text[..s][i] != '{' {
        assert text[..s][i] == text[i];
      }
    }
  }

  /** The last `}`: every `}` is at or before it, and none is after it. */
  lemma LastCloseBrace(text: string)
    ensures var e := LastIndexOf(text, '}');
      && (forall j :: 0 <= j < |text| && text[j] == '}' ==> j <= e)
      && (e != -1 ==> '}' !in text[e + 1..])
  {
    var e := LastIndexOf(text, '}');
    if e != -1 {
      var tail := text[e + 1..];
      forall p | 0 <= p < |tail| ensures tail[p] != '}' {
        assert tail[p] == text[e + 1 + p];
      }
    }
  }

  /**
   * The JSON text of the LinkedIn answer: a non-empty fenced block, else the
   * braced block; nothing means the answer is rejected.
   */
  function JsonText(text: string): (r: Option<string>)
    ensures r.Some? ==> r.value != ""
    ensures FencedBlock(text).Some? && FencedBlock(text).value != "" ==> r == FencedBlock(text)
    ensures !(FencedBlock(text).Some? && FencedBlock(text).value != "") ==> r == BracedBlock(text)
  {
    var f := FencedBlock(text);
    if f.Some? && f.value != "" then f else BracedBlock(text)
  }

  // ---------------------------------------------------------------------------
  // extractInfoFromLinkedIn

  const QualificationKey: string := "academicQualification"

  /**
   * `extractedData.academicQualification || ''` handed to the mapper: a
   * falsy value gives `""`, a non-empty string itself; any other value has no
   * `toLowerCase` and throws.
   */
  function QualificationText(v: Value): (r: Outcome<string>)
    ensures !Truthy(v) ==> r == Success("")
    ensures v.Str? ==> r == Success(v.s)
    ensures r.Failure? <==> Truthy(v) && !v.Str?
  {
    if !Truthy(v) then Success("")
    else if v.Str? then Success(v.s)
    else Failure
  }

  /** The value stored for a mapped qualification (`mappedQualification || undefined`). */
  function QualificationEntry(m: Option<AcademicQualification>): Value {
    if m.Some? then Str(QualificationValue(m.value)) else Undefined
  }

  /**
   * `finalData` before the empty fields are removed: the parsed object's
   * properties with the qualification replaced by its mapped value.
   */
  function Mapped(data: Value): (r: Outcome<Object>)
    ensures r.Failure? <==>
      Property(data, QualificationKey).Failure? ||
      QualificationText(Property(data, QualificationKey).value).Failure?
    ensures r.Success? ==> r.value.Keys == OwnFields(data).Keys + {QualificationKey}
    ensures r.Success? ==> forall k :: k in OwnFields(data) && k != QualificationKey ==>
      r.value[k] == OwnFields(data)[k]
    ensures r.Success? ==> (r.value[QualificationKey] == Undefined ||
      exists a :: a != Student && r.value[QualificationKey] == Str(QualificationValue(a)))
  {
    var q := Property(data, QualificationKey);
    if q.Failure? then Failure
    else
      var text := QualificationText(q.value);
      if text.Failure? then Failure
      else
        var m := MapQualification(text.value);
        Success(OwnFields(data)[QualificationKey := QualificationEntry(m)])
  }

  /** The LinkedIn answer up to `finalData`: locate, parse, map. */
  function Prepared(answer: Outcome<string>, parse: string -> Outcome<Value>): Outcome<Object> {
    if answer.Failure? then Failure
    else
      var j := JsonText(answer.value);
      if j.None? then Failure
      else
        var p := parse(j.value);
        if p.Failure? then Failure else Mapped(p.value)
  }

  /** A value that would only blank out a form field when merged: `undefined`, `""` or `[]`. */
  predicate Removable(v: Value) {
    v == Undefined || v == Str("") || v == Arr([])
  }

  /** `r` is `m` without its removable properties. */
  ghost predicate StrippedOf(r: Object, m: Object) {
    (forall k :: k in r <==> k in m && !Removable(m[k])) &&
    (forall k :: k in r ==> r[k] == m[k])
  }

  /** The loop that deletes the removable properties of `finalData`. */
  method StripEmpty(data: Object) returns (r: Object)
    ensures StrippedOf(r, data)
  {
    r := data;
    var keys := data.Keys;
    while keys != {}
      invariant keys <= data.Keys
      invariant forall k :: k in r <==> k in data && (k in keys || !Removable(data[k]))
      invariant forall k :: k in r ==> r[k] == data[k]
      decreases keys
    {
      var k :| k in keys;
      if Removable(r[k]) {
        r := r - {k};
      }
      keys := keys - {k};
    }
  }

  /**
   * `extractInfoFromLinkedIn`: fails when the call fails, no JSON text is
   * found, the parse fails or the qualification cannot be read; otherwise
   * `finalData` without removable properties.
   */
  method ExtractInfoFromLinkedIn(answer: Outcome<string>, parse: string -> Outcome<Value>)
    returns (r: Outcome<Object>)
    ensures r.Failure? <==> Prepared(answer, parse).Failure?
    ensures r.Success? ==> StrippedOf(r.value, Prepared(answer, parse).value)
    ensures r.Success? ==> forall k :: k in r.value ==> !Removable(r.value[k])
  {
    var p := Prepared(answer, parse);
    if p.Failure? {
      r := Failure;
    } else {
      var s := StripEmpty(p.value);
      r := Success(s);
    }
  }

  /**
   * Merging a stripped result into a form never blanks a field the form had
   * filled: a merged property is removable only if the form's was.
   */
  lemma MergeKeepsFilled(form: Object, update: Object, m: Object)
    requires StrippedOf(update, m)
    ensures forall k :: k in Spread(form, update) && Removable(Spread(form, update)[k]) ==>
      k in form && Removable(form[k])
  {
  }

  /** Whatever the answer, a successful extraction sets the qualification only to a mapped value. */
  lemma ExtractedQualification(answer: Outcome<string>, parse: string -> Outcome<Value>, r: Object)
    requires Prepared(answer, parse).Success?
    requires StrippedOf(r, Prepared(answer, parse).value)
    ensures QualificationKey in r ==>
      exists a :: a != Student && r[QualificationKey] == Str(QualificationValue(a))
  {
  }

  // ---------------------------------------------------------------------------
  // The deletion loop as written

  /** The test the source's deletion loop applies: `""` or an empty array. */
  predicate EmptyAsWritten(v: Value) {
    v == Str("") || (v.Arr? && |v.items| == 0)
  }

  /** `finalData` after the deletion loop as written. */
  function StrippedAsWritten(m: Object): (r: Object)
    ensures forall k :: k in r <==> k in m && !EmptyAsWritten(m[k])
    ensures forall k :: k in r ==> r[k] == m[k]
  {
    map k | k in m && !EmptyAsWritten(m[k]) :: m[k]
  }

  /**
   * As written, an answer without a usable qualification keeps
   * `academicQualification: undefined`, and merging it into a form that had
   * a qualification blanks it.
   */
  lemma UndefinedQualificationSurvives()
    ensures Mapped(Obj(map[])).Success?
    ensures var r := StrippedAsWritten(Mapped(Obj(map[])).value);
      QualificationKey in r && r[QualificationKey] == Undefined &&
      Spread(map[QualificationKey := Str(QualificationValue(Bachelor))], r)[QualificationKey] == Undefined
  {
    assert Mapped(Obj(map[])).value == map[QualificationKey := Undefined];
  }
}
