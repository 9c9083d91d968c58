/**
 * The page's submit cycle: the input field, the three pieces of view state
 * (`data`, `loading`, `error`) and `handleSubmit`, which cleans and validates
 * the input, issues one POST request and maps its outcome into the state.
 */
module Page {
  import opened Wrappers
  import opened Strings
  import opened Numerals
  import opened Validation
  import opened Cleaning

  /** The `metadata` object of a result. */
  datatype Metadata = Metadata(
    author: string,
    hashtags: seq<string>,
    durationSeconds: int,
    language: string,
    viewCount: int,
    likeCount: Option<int>,
    commentCount: Option<int>)

  /** The parsed body of a successful response (`ReelData`). */
  datatype ReelData = ReelData(
    instagramUrl: string,
    caption: string,
    transcript: string,
    metadata: Metadata)

  /**
   * What the network gives back for the one request: a 2xx response and its
   * parsed body, a response whose status is not 2xx, or a thrown failure
   * (the transport failing, or the body not parsing), with the message of
   * the `Error` when the thrown value is one.
   */
  datatype Outcome =
    | Ok(body: ReelData)
    | HttpError(status: int, statusText: string)
    | Transport(message: Option<string>)

  /** The request `fetch` is asked to send. */
  datatype Request = Request(httpMethod: string, endpoint: string, contentType: string, url: string)

  /** What the `catch` block receives: an `Error` with a message, or some other thrown value. */
  datatype Thrown = ErrorObject(message: string) | OtherValue

  const Endpoint: string := "https://daunrodo.onrender.com/api/instagram/reel"
  const EmptyUrlMessage: string := "Please enter a content URL"
  const InvalidUrlMessage: string := "Please enter a valid content URL"
  const FallbackMessage: string := "Failed to analyze content. Please try again."

  /** The message of the `Error` thrown for a response that is not ok. */
  function AnalysisFailedMessage(status: int, statusText: string): string {
    "Analysis failed: " + IntToString(status) + " " + statusText
  }

  /** The POST request whose JSON body carries `url`. */
  function PostRequest(url: string): Request {
    Request("POST", Endpoint, "application/json", url)
  }

  /** The message the `catch` block shows. */
  function CaughtMessage(err: Thrown): string {
    match err
    case ErrorObject(message) => message
    case OtherValue => FallbackMessage
  }

  class SaramsaPage {
    /** The text in the input field. */
    var url: string
    /** The result shown under the input, if any. */
    var data: Option<ReelData>
    /** Whether a request is in flight. */
    var loading: bool
    /** The error shown under the input, if any. */
    var error: Option<string>

    /** The page as first rendered. */
    constructor ()
      ensures url == [] && data == None && !loading && error == None
    {
      url := [];
      data := None;
      loading := false;
      error := None;
    }

    /** The input's `onChange` handler: only the text changes. */
    method SetUrl(value: string)
      modifies this
      ensures url == value
      ensures data == old(data) && loading == old(loading) && error == old(error)
    {
      url := value;
    }

    /**
     * `disabled={loading || !url.trim()}` on the submit button: disabled while
     * a request is in flight or while the input holds nothing but whitespace.
     * When it is disabled for the second reason, submitting would have met
     * the empty-input check anyway.
     */
    function ButtonDisabled(): (disabled: bool)
      reads this
      ensures disabled <==> loading || forall i :: 0 <= i < |url| ==> IsWhitespace(url[i])
      ensures disabled && !loading ==> CleanUrl(url) == []
    {
      loading || Trim(url) == []
    }

    /** `disabled={loading}` on the input field: whenever it holds, the button is disabled too. */
    function InputDisabled(): (disabled: bool)
      reads this
      ensures disabled ==> ButtonDisabled()
    {
      loading
    }

    /**
     * `handleSubmit` up to the `fetch` call: clean the input, stop with an
     * error on an empty or invalid URL (leaving any earlier result in place),
     * otherwise clear the view, mark it loading and return the request.
     */
    method StartRequest() returns (request: Option<Request>)
      modifies this
      ensures url == old(url)
      ensures CleanUrl(old(url)) == [] ==>
        request == None && error == Some(EmptyUrlMessage)
        && data == old(data) && loading == old(loading)
      ensures CleanUrl(old(url)) != [] && !IsValidInstagramUrl(CleanUrl(old(url))) ==>
        request == None && error == Some(InvalidUrlMessage)
        && data == old(data) && loading == old(loading)
      ensures IsValidInstagramUrl(CleanUrl(old(url))) ==>
        request == Some(PostRequest(CleanUrl(old(url))))
        && loading && error == None && data == None
    {
      var cleanedUrl := Trim(url);
      var questionMarkIndex := IndexOf(cleanedUrl, TrackingMarker);
      if questionMarkIndex != -1 {
        cleanedUrl := cleanedUrl[..questionMarkIndex];
      }

      if cleanedUrl == [] {
        error := Some(EmptyUrlMessage);
        return None;
      }

      if !IsValidInstagramUrl(cleanedUrl) {
        error := Some(InvalidUrlMessage);
        return None;
      }

      loading := true;
      error := None;
      data := None;
      request := Some(PostRequest(cleanedUrl));
    }

    /**
     * `handleSubmit` after the `fetch` call: the `try` stores the body of an
     * ok response, the `catch` shows the thrown error's message, and the
     * `finally` clears `loading` whatever happened.
     */
    method FinishRequest(outcome: Outcome)
      modifies this
      ensures url == old(url) && !loading
      ensures outcome.Ok? ==> data == Some(outcome.body) && error == old(error)
      ensures outcome.HttpError? ==>
        error == Some(AnalysisFailedMessage(outcome.status, outcome.statusText)) && data == old(data)
      ensures outcome == Transport(None) ==> error == Some(FallbackMessage) && data == old(data)
      ensures outcome.Transport? && outcome.message.Some? ==>
        error == Some(outcome.message.value) && data == old(data)
    {
      var thrown: Option<Thrown> := None;
      match outcome {
        case Ok(body) =>
          data := Some(body);
        case HttpError(status, statusText) =>
          thrown := Some(ErrorObject(AnalysisFailedMessage(status, statusText)));
        case Transport(message) =>
          thrown := Some(if message.Some? then ErrorObject(message.value) else OtherValue);
      }
      if thrown.Some? {
        error := Some(CaughtMessage(thrown.value));
      }
      loading := false;
    }

    /**
     * `handleSubmit` as a whole, with the network's answer given as `outcome`.
     * It returns the request sent, if one was. Of its five exits, the two
     * early ones set the error and keep any earlier result and the loading
     * flag; the three that reach the request send the cleaned URL, end with
     * `loading` false and show either the new result or an error, never both.
     */
    method Submit(outcome: Outcome) returns (request: Option<Request>)
      modifies this
      ensures url == old(url)
      ensures CleanUrl(old(url)) == [] ==>
        request == None && error == Some(EmptyUrlMessage)
        && data == old(data) && loading == old(loading)
      ensures CleanUrl(old(url)) != [] && !IsValidInstagramUrl(CleanUrl(old(url))) ==>
        request == None && error == Some(InvalidUrlMessage)
        && data == old(data) && loading == old(loading)
      ensures IsValidInstagramUrl(CleanUrl(old(url))) ==>
        request == Some(PostRequest(CleanUrl(old(url)))) && !loading
      ensures IsValidInstagramUrl(CleanUrl(old(url))) && outcome.Ok? ==>
        data == Some(outcome.body) && error == None
      ensures IsValidInstagramUrl(CleanUrl(old(url))) && outcome.HttpError? ==>
        data == None && error == Some(AnalysisFailedMessage(outcome.status, outcome.statusText))
      ensures IsValidInstagramUrl(CleanUrl(old(url))) && outcome == Transport(None) ==>
        data == None && error == Some(FallbackMessage)
      ensures IsValidInstagramUrl(CleanUrl(old(url))) && outcome.Transport? && outcome.message.Some? ==>
        data == None && error == Some(outcome.message.value)
      ensures !old(loading) ==> !loading
    {
      request := StartRequest();
      if request.Some? {
        FinishRequest(outcome);
      }
    }
  }
}
