/**
 * The recommendation box of `components/AiRecommender.tsx`: the user
 * describes their interests, the service answers with opportunity ids,
 * and the box lists the catalogue's opportunities with those ids.
 *
 * The service's answer is an input: `Success(ids)` for the ids
 * `getRecommendations` resolves to (see `Gemini.GetRecommendations`, which
 * turns every failure of its own into `[]`), `Failure` for a rejection of
 * the call. The 1.5-second pause before the call is not modelled.
 */
module AiRecommender {
  import opened Types
  import opened Js
  import opened JsValue

  const BlankInputError: string := "يرجى وصف اهتماماتك أو مهاراتك."
  const NoMatchError: string := "لم نجد فرصًا تطابق وصفك الحالي بدقة. جرب كلمات مفتاحية أخرى أو صف لنا شغفك بشكل مختلف!"
  const RequestError: string := "حدث خطأ أثناء الحصول على التوصيات. يرجى المحاولة مرة أخرى."

  /** The four suggestion chips. */
  const Suggestions: seq<string> := ["مبادرات بيئية", "مساعدة كبار السن", "مهاراتي في التنظيم", "تعليم الأطفال"]

  /** `recommendedIds.includes(opp.id)`; the ids are JSON numbers. */
  function Recommended(ids: seq<real>): Opportunity -> bool {
    (o: Opportunity) => o.id as real in ids
  }

  /** `opportunities.filter(opp => recommendedIds.includes(opp.id))`. */
  function Pick(catalog: seq<Opportunity>, ids: seq<real>): (r: seq<Opportunity>)
    ensures forall o :: o in r <==> o in catalog && o.id as real in ids
    ensures multiset(r) <= multiset(catalog)
    ensures InOrderSelection(r, catalog, Recommended(ids))
  {
    FilterMembers(catalog, Recommended(ids));
    FilterInOrder(catalog, Recommended(ids));
    Filter(catalog, Recommended(ids))
  }

  lemma {:induction false} FilterSame<T>(s: seq<T>, p: T -> bool, q: T -> bool)
    requires forall x :: x in s ==> p(x) == q(x)
    ensures Filter(s, p) == Filter(s, q)
  {
    if s != [] {
      FilterSame(s[1..], p, q);
    }
  }

  /** Only which ids came back matters, not their order or repetition:
      the list keeps the catalogue's order. */
  lemma PickIgnoresIdOrder(catalog: seq<Opportunity>, ids: seq<real>, other: seq<real>)
    requires forall x :: x in ids <==> x in other
    ensures Pick(catalog, ids) == Pick(catalog, other)
  {
    FilterSame(catalog, Recommended(ids), Recommended(other));
  }

  /** An id that is no catalogue opportunity's is ignored. */
  lemma PickIgnoresUnknown(catalog: seq<Opportunity>, ids: seq<real>, x: real)
    requires forall k :: 0 <= k < |catalog| ==> catalog[k].id as real != x
    ensures Pick(catalog, ids + [x]) == Pick(catalog, ids)
  {
    FilterSame(catalog, Recommended(ids + [x]), Recommended(ids));
  }

  /** Recommending every catalogue id lists the whole catalogue. */
  lemma PickAll(catalog: seq<Opportunity>, ids: seq<real>)
    requires forall k :: 0 <= k < |catalog| ==> catalog[k].id as real in ids
    ensures Pick(catalog, ids) == catalog
  {
    FilterAll(catalog, Recommended(ids));
  }

  class Recommender {
    const opportunities: seq<Opportunity>
    var userInput: string
    var isLoading: bool
    var error: Option<string>
    var recommendations: seq<Opportunity>

    constructor (opportunities: seq<Opportunity>)
      ensures this.opportunities == opportunities
      ensures userInput == "" && !isLoading && error == None && recommendations == []
    {
      this.opportunities := opportunities;
      userInput := "";
      isLoading := false;
      error := None;
      recommendations := [];
    }

    method TypeInput(text: string)
      modifies this
      ensures userInput == text
      ensures isLoading == old(isLoading) && error == old(error)
      ensures recommendations == old(recommendations)
    {
      userInput := text;
    }

    /** `handleSuggestionClick`: the chip's text replaces the input. */
    method SuggestionClick(suggestion: string)
      modifies this
      ensures userInput == suggestion
      ensures isLoading == old(isLoading) && error == old(error)
      ensures recommendations == old(recommendations)
    {
      userInput := suggestion;
    }

    /**
     * The synchronous part of `handleGetRecommendations`: blank input only
     * sets the error; otherwise the request starts with loading on, no
     * error and no recommendations.
     */
    method StartRequest() returns (started: bool)
      modifies this
      ensures started <==> !IsBlank(userInput)
      ensures !started ==>
        error == Some(BlankInputError)
        && isLoading == old(isLoading) && recommendations == old(recommendations)
      ensures started ==> isLoading && error == None && recommendations == []
      ensures userInput == old(userInput)
    {
      if IsBlank(userInput) {
        error := Some(BlankInputError);
        return false;
      }
      isLoading := true;
      error := None;
      recommendations := [];
      return true;
    }

    /**
     * The rest, once the service has answered: no ids is the "no match"
     * error, ids are looked up in the catalogue, a rejection is the
     * generic error; loading is off in every case.
     */
    method FinishRequest(answer: Outcome<seq<real>>)
      modifies this
      ensures !isLoading
      ensures answer.Failure? ==> error == Some(RequestError) && recommendations == old(recommendations)
      ensures answer.Success? && answer.value == [] ==>
        error == Some(NoMatchError) && recommendations == old(recommendations)
      ensures answer.Success? && answer.value != [] ==>
        error == old(error) && recommendations == Pick(opportunities, answer.value)
      ensures userInput == old(userInput)
    {
      match answer {
        case Failure =>
          error := Some(RequestError);
        case Success(ids) =>
          if |ids| == 0 {
            error := Some(NoMatchError);
          } else {
            recommendations := Pick(opportunities, ids);
          }
      }
      isLoading := false;
    }

    /** `handleGetRecommendations` from the click to the answer. */
    method HandleGetRecommendations(answer: Outcome<seq<real>>) returns (called: bool)
      modifies this
      ensures called <==> !IsBlank(old(userInput))
      ensures !called ==>
        error == Some(BlankInputError)
        && isLoading == old(isLoading) && recommendations == old(recommendations)
      ensures called ==> !isLoading
      ensures called && answer.Failure? ==> error == Some(RequestError) && recommendations == []
      ensures called && answer.Success? && answer.value == [] ==>
        error == Some(NoMatchError) && recommendations == []
      ensures called && answer.Success? && answer.value != [] ==>
        error == None && recommendations == Pick(opportunities, answer.value)
      ensures called && error.Some? ==> recommendations == []
      ensures userInput == old(userInput)
    {
      called := StartRequest();
      if called {
        FinishRequest(answer);
      }
    }
  }
}
