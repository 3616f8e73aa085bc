/**
 * The profile editing dialog of `components/EditProfileModal.tsx`. Its form
 * is the volunteer record as a plain object, edited field by field, filled
 * from an uploaded CV and handed to the caller's `onSave` one timer step
 * after submission.
 */
module EditProfile {
  import opened Types
  import opened Js
  import opened JsValue
  import opened TextLists
  import Gemini

  const CvFailureMessage: string :=
    "عذراً، لم نتمكن من تحليل السيرة الذاتية. يرجى التأكد من أنها ملف نصي واضح."

  /** The filter applied to each extracted property: not `null`, not `""`, not an empty array. */
  predicate Kept(v: Value) {
    v != Null && v != Str("") && !(v.Arr? && |v.items| == 0)
  }

  /** `Object.fromEntries(Object.entries(extracted).filter(...))` */
  function FilteredCv(extracted: Object): (r: Object)
    ensures forall k :: k in r <==> k in extracted && Kept(extracted[k])
    ensures forall k :: k in r ==> r[k] == extracted[k]
  {
    map k | k in extracted && Kept(extracted[k]) :: extracted[k]
  }

  /**
   * Merging the filtered CV data overrides exactly the properties that
   * survived the filter and leaves every other field of the form as it was;
   * in particular no field the form holds becomes `null`, `""` or `[]`.
   */
  lemma CvMerge(form: Object, extracted: Object)
    ensures var merged := Spread(form, FilteredCv(extracted));
      (forall k :: k in extracted && Kept(extracted[k]) ==> merged[k] == extracted[k]) &&
      (forall k :: k in form && !(k in extracted && Kept(extracted[k])) ==> merged[k] == form[k]) &&
      (forall k :: k in merged ==> k in form || k in extracted) &&
      (forall k :: k in form && Kept(form[k]) ==> Kept(merged[k]))
  {
  }

  const SkillsKey: string := "skills"

  /** The form's skills after the skills text changed. */
  function SkillsValue(text: string): Value {
    StrArray(ParseList(text))
  }

  /**
   * The skills are the comma-separated items of the text, trimmed, without
   * empties, in order.
   */
  lemma SkillsValueShape(text: string)
    ensures var r := SkillsValue(text);
      r.Arr? && |r.items| == |ParseList(text)| &&
      forall k :: 0 <= k < |r.items| ==> r.items[k] == Str(ParseList(text)[k]) && IsItem(ParseList(text)[k])
  {
    ParseListItems(text);
  }

  /**
   * A CV answer that is an array is merged element by element: each element
   * that survives the filter lands in the form under its index key ("0",
   * "1", ...), as `Object.entries` lists an array's elements, and every other
   * field of the form stays.
   */
  lemma CvArrayMerge(form: Object, items: seq<Value>)
    ensures var merged := Spread(form, FilteredCv(OwnFields(Arr(items))));
      (forall i :: 0 <= i < |items| && Kept(items[i]) ==> IndexKey(i) in merged && merged[IndexKey(i)] == items[i]) &&
      (forall k :: k in form && k !in OwnFields(Arr(items)) ==> merged[k] == form[k])
  {
    ArrayFields(items);
  }

  class EditProfileModal {
    var formData: Object
    var isSaving: bool
    var isClosing: bool
    var isParsingCv: bool
    var parsingError: Option<string>
    /** The file input's value, reset after each upload. */
    var fileInput: string
    /** The form data the pending save timer hands to `onSave`. */
    var pendingSave: Option<Object>

    constructor (volunteer: Object)
      ensures formData == volunteer
      ensures !isSaving && !isClosing && !isParsingCv
      ensures parsingError == None && pendingSave == None
    {
      formData := volunteer;
      isSaving := false;
      isClosing := false;
      isParsingCv := false;
      parsingError := None;
      fileInput := "";
      pendingSave := None;
    }

    /** The close button or the backdrop: the dialog starts closing, and the
        caller's `onClose` runs 300 ms later (a timer outside this model). */
    method HandleClose()
      modifies this`isClosing
      ensures isClosing
    {
      isClosing := true;
    }

    /** A text field changed: only that property of the form changes. */
    method HandleChange(name: string, value: string)
      modifies this
      ensures formData == old(formData)[name := Str(value)]
      ensures forall k :: k != name ==> (k in formData <==> k in old(formData))
      ensures forall k :: k != name && k in formData ==> formData[k] == old(formData)[k]
      ensures isSaving == old(isSaving) && isParsingCv == old(isParsingCv)
      ensures parsingError == old(parsingError) && pendingSave == old(pendingSave)
      ensures isClosing == old(isClosing) && fileInput == old(fileInput)
    {
      formData := formData[name := Str(value)];
    }

    /**
     * The skills text changed: the form's skills become the comma-separated
     * items of the text, trimmed, without empties, in order.
     */
    method HandleSkillsChange(text: string)
      modifies this`formData
      ensures formData == old(formData)[SkillsKey := SkillsValue(text)]
      ensures forall k :: k != SkillsKey ==> (k in formData <==> k in old(formData))
      ensures forall k :: k != SkillsKey && k in formData ==> formData[k] == old(formData)[k]
    {
      formData := formData[SkillsKey := SkillsValue(text)];
    }

    /** A file was chosen (or not): with a file, parsing starts and the error is cleared. */
    method StartCvUpload(hasFile: bool) returns (started: bool)
      modifies this
      ensures started == hasFile
      ensures hasFile ==> isParsingCv && parsingError == None
      ensures !hasFile ==> isParsingCv == old(isParsingCv) && parsingError == old(parsingError)
      ensures formData == old(formData) && fileInput == old(fileInput)
      ensures isSaving == old(isSaving) && isClosing == old(isClosing) && pendingSave == old(pendingSave)
    {
      started := hasFile;
      if hasFile {
        isParsingCv := true;
        parsingError := None;
      }
    }

    /**
     * The CV text was read and sent to the AI service, whose answer is
     * `answer` (a failure also stands for a failed file read). Success merges
     * the filtered properties into the form; failure sets the error; in every
     * case parsing ends and the file input is cleared.
     */
    method FinishCvUpload(answer: Outcome<string>, parse: string -> Outcome<Value>)
      modifies this`formData, this`parsingError, this`isParsingCv, this`fileInput
      ensures !isParsingCv && fileInput == ""
      ensures Gemini.CvData(answer, parse).Failure? ==>
        parsingError == Some(CvFailureMessage) && formData == old(formData)
      ensures Gemini.CvData(answer, parse).Success? ==>
        parsingError == old(parsingError) &&
        formData == Spread(old(formData), FilteredCv(OwnFields(Gemini.CvData(answer, parse).value)))
      ensures isSaving == old(isSaving) && isClosing == old(isClosing) && pendingSave == old(pendingSave)
    {
      var extracted := Gemini.CvData(answer, parse);
      if extracted.Failure? {
        parsingError := Some(CvFailureMessage);
      } else {
        formData := Spread(formData, FilteredCv(OwnFields(extracted.value)));
      }
      isParsingCv := false;
      fileInput := "";
    }

    /** Submission: saving starts, and the save timer will hand over the form as it is now. */
    method HandleSubmit()
      modifies this
      ensures isSaving && pendingSave == Some(formData)
      ensures formData == old(formData) && isParsingCv == old(isParsingCv)
      ensures parsingError == old(parsingError) && isClosing == old(isClosing)
      ensures fileInput == old(fileInput)
    {
      isSaving := true;
      pendingSave := Some(formData);
    }

    /**
     * The save timer fires: `onSave` receives the form data captured at
     * submission, saving ends and the dialog starts closing.
     */
    method SaveTimer() returns (saved: Option<Object>)
      modifies this
      ensures saved == old(pendingSave)
      ensures saved.Some? ==> !isSaving && isClosing && pendingSave == None
      ensures saved.None? ==> isSaving == old(isSaving) && isClosing == old(isClosing) && pendingSave == None
      ensures formData == old(formData) && isParsingCv == old(isParsingCv)
      ensures parsingError == old(parsingError) && fileInput == old(fileInput)
    {
      saved := pendingSave;
      if pendingSave.Some? {
        isSaving := false;
        isClosing := true;
      }
      pendingSave := None;
    }
  }

  /**
   * A submission hands over the form as it was at submission: edits made
   * while the save timer runs are not saved.
   */
  method EditDuringSave(volunteer: Object, name: string, value: string) returns (saved: Option<Object>)
    ensures saved == Some(volunteer)
  {
    var modal := new EditProfileModal(volunteer);
    modal.HandleSubmit();
    modal.HandleChange(name, value);
    saved := modal.SaveTimer();
  }
}
