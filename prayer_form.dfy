/** The prayer submission and listing widget (`prayer-form.tsx`). Its two async
    handlers are each split at their `await`: a Begin method runs the code before
    the request, and a Finish method runs the code after it, with what `fetch`
    delivered passed in as an input. The responses are the endpoint's own. */
module PrayerForm {
  import opened Common
  import opened Text
  import opened PrayerApi

  /** A thrown JavaScript error: its `name` and `message`. */
  datatype JsError = JsError(name: string, message: string)

  /** What `fetch` settles with: a response (with the transport's status text),
      or a rejection such as a network failure. */
  datatype Delivery = Delivered(response: Response, statusText: string) | Rejected(error: JsError)

  /** `response.ok`. */
  predicate IsOk(r: Response) {
    200 <= r.status <= 299
  }

  /** The endpoint answers OK only with the body its operation promises. */
  predicate ListWhenOk(d: Delivery) {
    d.Delivered? && IsOk(d.response) ==> d.response.body.PrayerList?
  }

  predicate ItemWhenOk(d: Delivery) {
    d.Delivered? && IsOk(d.response) ==> d.response.body.PrayerItem?
  }

  /** `a || b` for an optional string and a fallback. */
  function OrElse(a: Option<string>, b: string): (r: string)
    ensures Falsy(a) ==> r == b
    ensures !Falsy(a) ==> r == a.value
  {
    if Falsy(a) then b else a.value
  }

  function Details(body: Body): Option<string> {
    if body.ErrorBody? then body.details else None
  }

  function ErrorField(body: Body): Option<string> {
    if body.ErrorBody? then Some(body.error) else None
  }

  /** `fetchPrayers()`: the listed prayers, or an error for a rejection or any
      status that is not OK. */
  function FetchPrayers(d: Delivery): (r: Result<seq<Prayer>, JsError>)
    requires ListWhenOk(d)
    ensures r.Success? <==> d.Delivered? && IsOk(d.response)
    ensures r.Success? ==> r.value == d.response.body.prayers
    ensures d.Rejected? ==> r == Failure(d.error)
    ensures d.Delivered? && !IsOk(d.response) ==>
      r.error.name == "Error" && |r.error.message| > 0
  {
    match d
    case Rejected(e) => Failure(e)
    case Delivered(resp, statusText) =>
      if !IsOk(resp) then
        Failure(JsError("Error", "Failed to fetch prayers: " + NatToString(resp.status) + " " +
                                 OrElse(Details(resp.body), statusText)))
      else Success(resp.body.prayers)
  }

  /** `savePrayer(prayer)`: the created prayer, or an error for a rejection or
      any status that is not OK, carrying the endpoint's details or error text. */
  function SavePrayer(d: Delivery): (r: Result<Prayer, JsError>)
    requires ItemWhenOk(d)
    ensures r.Success? <==> d.Delivered? && IsOk(d.response)
    ensures r.Success? ==> r.value == d.response.body.prayer
    ensures d.Rejected? ==> r == Failure(d.error)
    ensures d.Delivered? && !IsOk(d.response) ==>
      r == Failure(JsError("Error", OrElse(Details(d.response.body),
                                           OrElse(ErrorField(d.response.body), "Failed to save prayer"))))
  {
    match d
    case Rejected(e) => Failure(e)
    case Delivered(resp, _) =>
      if !IsOk(resp) then
        Failure(JsError("Error", OrElse(Details(resp.body), OrElse(ErrorField(resp.body), "Failed to save prayer"))))
      else Success(resp.body.prayer)
  }

  /** The body `savePrayer` sends: the text as typed, and the name trimmed, or
      left out when it trims to nothing. */
  function SubmissionFor(prayerText: string, userName: string): (req: PostRequest)
    ensures req.text == Some(prayerText)
    ensures req.name == None <==> IsBlank(userName)
    ensures req.name.Some? ==> req.name.value == Trim(userName) && req.name.value != ""
  {
    var name := Trim(userName);
    PostRequest(Some(prayerText), if name == "" then None else Some(name))
  }

  /** The endpoint stores and echoes back a submitted name unchanged. */
  lemma SubmittedNameSurvives(prayerText: string, userName: string)
    ensures NullIfFalsy(SubmissionFor(prayerText, userName).name) == SubmissionFor(prayerText, userName).name
  {
  }

  const LoadFailed: string := "Failed to load prayers. Please try again."
  const SubmitFailed: string := "Failed to submit your prayer. Please try again."

  function DebugText(e: JsError): string {
    "Error type: " + e.name + ", Message: " + e.message
  }

  /** Every piece of component state, for stating what a handler changes. */
  datatype View = View(
    prayerText: string, userName: string, prayers: seq<Prayer>, isSubmitting: bool,
    isLoading: bool, error: Option<string>, isRetrying: bool, debugInfo: Option<string>)

  class Form {
    var prayerText: string
    var userName: string
    var prayers: seq<Prayer>
    var isSubmitting: bool
    var isLoading: bool
    var error: Option<string>
    var isRetrying: bool
    var debugInfo: Option<string>

    function Snapshot(): View
      reads this
    {
      View(prayerText, userName, prayers, isSubmitting, isLoading, error, isRetrying, debugInfo)
    }

    constructor ()
      ensures Snapshot() == View("", "", [], false, true, None, false, None)
    {
      prayerText, userName, prayers := "", "", [];
      isSubmitting, isLoading, isRetrying := false, true, false;
      error, debugInfo := None, None;
    }

    /** The text area's and the name field's `onChange`. */
    method Edit(text: string, name: string)
      modifies this
      ensures Snapshot() == old(Snapshot()).(prayerText := text, userName := name)
    {
      prayerText, userName := text, name;
    }

    /** The submit button is disabled while a submission is pending or while the
        text is only whitespace. */
    function SubmitDisabled(): (disabled: bool)
      reads this
      ensures disabled <==> isSubmitting || AllWhitespace(prayerText)
    {
      BlankIffAllWhitespace(prayerText);
      isSubmitting || IsBlank(prayerText)
    }

    /** `loadPrayers()` up to its `await`: loading, with the error cleared. */
    method BeginLoad()
      modifies this
      ensures Snapshot() == old(Snapshot()).(isLoading := true, error := None, debugInfo := None)
    {
      isLoading := true;
      error := None;
      debugInfo := None;
    }

    /** `handleRetry()`: mark the retry, then start loading. */
    method HandleRetry()
      modifies this
      ensures Snapshot() == old(Snapshot()).(isRetrying := true, isLoading := true, error := None, debugInfo := None)
    {
      isRetrying := true;
      BeginLoad();
    }

    /** `loadPrayers()` after its `await`: a fetched list replaces the shown one
        wholesale; a failure keeps the list and reports the error; loading and
        retrying end either way. */
    method FinishLoad(d: Delivery)
      requires ListWhenOk(d)
      modifies this
      ensures !isLoading && !isRetrying
      ensures FetchPrayers(d).Success? ==>
        Snapshot() == old(Snapshot()).(prayers := FetchPrayers(d).value, isLoading := false, isRetrying := false)
      ensures FetchPrayers(d).Failure? ==>
        var e := FetchPrayers(d).error;
        Snapshot() == old(Snapshot()).(error := Some(if e.message == "" then LoadFailed else e.message),
                                       debugInfo := Some(DebugText(e)),
                                       isLoading := false, isRetrying := false)
    {
      var fetched := FetchPrayers(d);
      match fetched {
        case Success(list) =>
          prayers := list;
        case Failure(e) =>
          error := Some(if e.message == "" then LoadFailed else e.message);
          debugInfo := Some(DebugText(e));
      }
      isLoading := false;
      isRetrying := false;
    }

    /** `handleSubmit()` up to its `await`: nothing at all for a blank text;
        otherwise pending, with the error cleared, and the request to send. */
    method BeginSubmit() returns (request: Option<PostRequest>)
      modifies this
      ensures IsBlank(old(prayerText)) ==> request == None && Snapshot() == old(Snapshot())
      ensures !IsBlank(old(prayerText)) ==>
        request == Some(SubmissionFor(old(prayerText), old(userName))) &&
        Snapshot() == old(Snapshot()).(isSubmitting := true, error := None)
      ensures request.Some? ==> AcceptableText(request.value.text)
    {
      if IsBlank(prayerText) {
        return None;
      }
      isSubmitting := true;
      error := None;
      request := Some(SubmissionFor(prayerText, userName));
    }

    /** `handleSubmit()` after its `await`: the created prayer goes in front of
        the list and the text is cleared; a failure keeps the list and the text
        and reports the error; the submission ends either way. */
    method FinishSubmit(d: Delivery)
      requires ItemWhenOk(d)
      modifies this
      ensures !isSubmitting
      ensures SavePrayer(d).Success? ==>
        Snapshot() == old(Snapshot()).(prayers := [SavePrayer(d).value] + old(prayers),
                                       prayerText := "", isSubmitting := false)
      ensures SavePrayer(d).Failure? ==>
        Snapshot() == old(Snapshot()).(error := Some(SubmitFailed),
                                       debugInfo := Some(DebugText(SavePrayer(d).error)),
                                       isSubmitting := false)
    {
      var saved := SavePrayer(d);
      match saved {
        case Success(p) =>
          prayers := [p] + prayers;
          prayerText := "";
        case Failure(e) =>
          error := Some(SubmitFailed);
          debugInfo := Some(DebugText(e));
      }
      isSubmitting := false;
    }
  }

  /** A submission the form sends passes the endpoint's validation, and the 201
      answer the endpoint gives for it reads back as a prayer with the typed
      text and the trimmed name. */
  lemma SubmissionAccepted(prayerText: string, userName: string, id: nat, statusText: string)
    requires !IsBlank(prayerText)
    ensures var req := SubmissionFor(prayerText, userName);
            AcceptableText(req.text) &&
            var answer := Delivered(Response(201, PrayerItem(Prayer(NatToString(id), req.text.value,
                                                                   NullIfFalsy(req.name), "Just now"))), statusText);
            SavePrayer(answer) == Success(Prayer(NatToString(id), prayerText,
                                                 if IsBlank(userName) then None else Some(Trim(userName)),
                                                 "Just now"))
  {
  }
}
