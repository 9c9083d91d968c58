/**
 * Sequences of user actions on the page, written as clients of the class:
 * what the contracts of `SaramsaPage` let a caller conclude.
 */
module Scenarios {
  import opened Wrappers
  import opened Strings
  import opened Validation
  import opened Cleaning
  import opened Page

  const ReelLink: string := "https://www.instagram.com/reel/ABC123/"
  const StoryLink: string := "https://instagram.com/story/abc/"

  lemma ReelLinkIsAccepted()
    ensures IsValidInstagramUrl(CleanUrl(ReelLink))
  {
    AcceptedReelExample();
    ValidUrlIsClean(ReelLink);
  }

  lemma StoryLinkIsRejected()
    ensures CleanUrl(StoryLink) != [] && !IsValidInstagramUrl(CleanUrl(StoryLink))
  {
    RejectedStoryExample();
    CleanKeepsPlain(StoryLink);
  }

  /**
   * After a successful analysis, submitting a URL of the wrong shape shows
   * the validation error next to the old result: the early return leaves
   * `data` alone, and no request is sent.
   */
  method StaleResultAfterInvalidSubmit(first: ReelData, unused: Outcome)
    returns (data: Option<ReelData>, error: Option<string>, second: Option<Request>)
    ensures data == Some(first) && error == Some(InvalidUrlMessage) && second == None
  {
    var page := new SaramsaPage();
    ReelLinkIsAccepted();
    page.SetUrl(ReelLink);
    var firstRequest := page.Submit(Ok(first));
    StoryLinkIsRejected();
    page.SetUrl(StoryLink);
    second := page.Submit(unused);
    data, error := page.data, page.error;
  }

  /** After a successful analysis, a failed one clears the old result. */
  method FailureAfterSuccess(first: ReelData, status: int, statusText: string)
    returns (data: Option<ReelData>, error: Option<string>)
    ensures data == None && error == Some(AnalysisFailedMessage(status, statusText))
  {
    var page := new SaramsaPage();
    ReelLinkIsAccepted();
    page.SetUrl(ReelLink);
    var firstRequest := page.Submit(Ok(first));
    var secondRequest := page.Submit(HttpError(status, statusText));
    data, error := page.data, page.error;
  }

  /**
   * A shared link carries a tracking query after `/?`; the request sends the
   * link without it, and the result replaces whatever error was shown.
   */
  method TrackedLinkSendsCleanUrl(link: string, query: string, result: ReelData)
    returns (request: Option<Request>, error: Option<string>)
    requires IsValidInstagramUrl(link)
    ensures request == Some(PostRequest(link)) && error == None
  {
    var page := new SaramsaPage();
    page.SetUrl(link + TrackingMarker + query);
    CleanDropsTrackingQuery(link, query);
    request := page.Submit(Ok(result));
    error := page.error;
  }

  /**
   * The button is enabled for an input that is not blank, yet one that
   * starts with `/?` cleans to nothing and meets the empty-input check.
   */
  method EnabledButEmptyAfterCleaning(outcome: Outcome)
    returns (disabled: bool, error: Option<string>, request: Option<Request>)
    ensures !disabled && error == Some(EmptyUrlMessage) && request == None
  {
    var page := new SaramsaPage();
    var input := "/?igsh=1";
    TrimOfTrimmed(input);
    assert OccursAt(input, TrackingMarker, 0);
    page.SetUrl(input);
    disabled := page.ButtonDisabled();
    request := page.Submit(outcome);
    error := page.error;
  }
}
