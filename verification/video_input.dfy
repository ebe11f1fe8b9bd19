/** The URL form on the dashboard: its three checks, in order, each with its
    own message, and the submit that hands the untrimmed URL to the
    analysis. The URL patterns are those of `VideoUrls`. */
module VideoInput {
  import opened Text
  import VideoUrls

  const BlankMessage := "Please enter a YouTube URL"
  const InvalidMessage := "Please enter a valid YouTube URL"
  const NoIdMessage := "Could not extract video ID from URL"

  datatype Submit = Rejected(error: string) | Analyze(url: string)

  /** `handleSubmit`: blank, then not a YouTube URL, then no id. Because
      every accepted URL yields an id, the third message is never shown. */
  function HandleSubmit(url: string): (r: Submit)
    ensures r.Analyze? <==> !IsBlank(url) && VideoUrls.ClientAcceptsUrl(url)
    ensures r.Analyze? ==> r.url == url
    ensures IsBlank(url) ==> r == Rejected(BlankMessage)
    ensures !IsBlank(url) && !VideoUrls.ClientAcceptsUrl(url) ==> r == Rejected(InvalidMessage)
    ensures r != Rejected(NoIdMessage)
  {
    TrimEmptyIffBlank(url);
    if |Trim(url)| == 0 then Rejected(BlankMessage)
    else if !VideoUrls.ClientAcceptsUrl(url) then Rejected(InvalidMessage)
    else
      VideoUrls.ClientAcceptedYieldsId(url);
      match VideoUrls.ExtractVideoIdLoose(url)
      case None => Rejected(NoIdMessage)
      case Some(_) => Analyze(url)
  }

  /** Every URL the analyze route's schema accepts is submitted as it is. */
  lemma {:induction false} SchemaUrlsAreSubmitted(url: string)
    requires VideoUrls.MatchesAnalyzeSchema(url) && !IsBlank(url)
    ensures HandleSubmit(url) == Analyze(url)
  {
    VideoUrls.ClientAcceptsSchemaUrls(url);
  }

  datatype Form = Form(url: string, error: string)

  /** `handleUrlChange`: the new text, with any error cleared. */
  function HandleUrlChange(form: Form, text: string): (r: Form)
    ensures r.url == text && r.error == ""
  {
    Form(text, if |form.error| > 0 then "" else form.error)
  }
}
