/**
 * Sending a request to Overseerr (`request_overseerr`) and the button handler
 * that triggers it (`button_callback`). The HTTP reply to the POST is an
 * input: the model returns the payload that would be posted and the text the
 * user is shown.
 */
module Request {
  import opened Wrappers
  import opened Text
  import opened Callback
  import Sorting

  /** The JSON values a request payload holds. */
  datatype JsonValue = JInt(n: int) | JStr(s: string) | JIntList(ns: seq<int>)

  type Payload = map<string, JsonValue>

  /** The outcome of the POST: an HTTP reply, or an exception raised by the call itself. */
  datatype PostResponse =
    | Reply(ok: bool, statusCode: int, message: Option<string>)  // `message`: the body's truthy-or-not `message`, None when absent or unparsable
    | ConnectionFailed

  const CancelledText := "Request cancelled."
  const ErrorText := "Sorry, there was an error processing your request."
  const ResultPrefix := "Request result: "

  /** Python truthiness of an optional list: present and non-empty. */
  predicate HasSeasons(seasons: Option<seq<int>>)
  {
    seasons.Some? && |seasons.value| > 0
  }

  /** The JSON body of the POST. */
  function RequestPayload(mediaId: int, mediaType: string, seasons: Option<seq<int>>): (data: Payload)
    ensures "mediaId" in data && data["mediaId"] == JInt(mediaId)
    ensures "mediaType" in data && data["mediaType"] == JStr(mediaType)
    ensures "seasons" in data <==> mediaType == "tv" && HasSeasons(seasons)
    ensures "seasons" in data ==> data["seasons"] == JIntList(seasons.value)
    ensures data.Keys <= {"mediaId", "mediaType", "seasons"}
  {
    var base := map["mediaId" := JInt(mediaId), "mediaType" := JStr(mediaType)];
    if mediaType == "tv" && HasSeasons(seasons) then base["seasons" := JIntList(seasons.value)] else base
  }

  /** ` (Seasons: 1, 3)` when seasons are given, for any media type; empty otherwise. */
  function SeasonText(seasons: Option<seq<int>>): (text: string)
    ensures text != "" <==> HasSeasons(seasons)
  {
    if HasSeasons(seasons) then " (Seasons: " + Join(", ", Strs(seasons.value)) + ")" else ""
  }

  function SuccessText(mediaType: string, mediaId: int, seasons: Option<seq<int>>): (text: string)
    ensures "Successfully requested " + mediaType + " with ID " + IntToString(mediaId) <= text
    ensures text[|text| - 1] == '.'
    ensures text[|"Successfully requested " + mediaType + " with ID " + IntToString(mediaId)|..|text| - 1] == SeasonText(seasons)
  {
    "Successfully requested " + mediaType + " with ID " + IntToString(mediaId) + SeasonText(seasons) + "."
  }

  /** The backend's message when it is present and non-empty, else the status code. */
  function ErrorDetail(statusCode: int, message: Option<string>): (detail: string)
    ensures message.Some? && message.value != "" ==> detail == message.value
    ensures message.None? || message.value == "" ==> "Status: " <= detail
  {
    if message.Some? && message.value != "" then message.value else "Status: " + IntToString(statusCode)
  }

  function FailureText(mediaType: string, mediaId: int, detail: string): (text: string)
    ensures "Failed to request " + mediaType + " with ID " + IntToString(mediaId) + ". " <= text
    ensures |text| > |detail| && text[|text| - |detail|..] == detail
  {
    "Failed to request " + mediaType + " with ID " + IntToString(mediaId) + ". " + detail
  }

  /**
   * `request_overseerr`: build the payload, adding the seasons only for a TV
   * show with seasons, then report the reply. `result` is None when the POST
   * raised.
   */
  method RequestOverseerr(mediaId: int, mediaType: string, seasons: Option<seq<int>>, response: PostResponse)
    returns (data: Payload, result: Option<string>)
    ensures data == RequestPayload(mediaId, mediaType, seasons)
    ensures result.None? <==> response.ConnectionFailed?
    ensures response.Reply? && response.ok ==> result == Some(SuccessText(mediaType, mediaId, seasons))
    ensures response.Reply? && !response.ok ==>
      result == Some(FailureText(mediaType, mediaId, ErrorDetail(response.statusCode, response.message)))
  {
    data := map["mediaId" := JInt(mediaId), "mediaType" := JStr(mediaType)];
    if mediaType == "tv" && HasSeasons(seasons) {
      data := data["seasons" := JIntList(seasons.value)];
    }
    match response
    case ConnectionFailed =>
      result := None;
    case Reply(ok, statusCode, message) =>
      if ok {
        var seasonText := if HasSeasons(seasons) then " (Seasons: " + Join(", ", Strs(seasons.value)) + ")" else "";
        result := Some("Successfully requested " + mediaType + " with ID " + IntToString(mediaId) + seasonText + ".");
      } else {
        var errorMessage := "Status: " + IntToString(statusCode);
        if message.Some? && message.value != "" {
          errorMessage := message.value;
        }
        result := Some("Failed to request " + mediaType + " with ID " + IntToString(mediaId) + ". " + errorMessage);
      }
  }

  /** The success and the failure report can never be confused. */
  lemma ReportsDistinct(mediaType: string, mediaId: int, seasons: Option<seq<int>>, detail: string)
    ensures SuccessText(mediaType, mediaId, seasons) != FailureText(mediaType, mediaId, detail)
  {
    assert SuccessText(mediaType, mediaId, seasons)[0] == 'S';
    assert FailureText(mediaType, mediaId, detail)[0] == 'F';
  }

  /** Without a usable backend message the status code can be read back from the report. */
  lemma StatusCodeRecoverable(statusCode: int, message: Option<string>)
    requires message.None? || message.value == ""
    ensures var detail := ErrorDetail(statusCode, message);
      "Status: " <= detail && ParseInt(detail[|"Status: "|..]) == Some(statusCode)
  {
    var detail := ErrorDetail(statusCode, message);
    assert detail[|"Status: "|..] == IntToString(statusCode);
    ParseIntToString(statusCode);
  }

  /**
   * `button_callback`: decode the data, post the request it names (and only
   * then), and produce the text the message is edited to; None leaves it as it is.
   */
  method ButtonCallback(callbackData: Option<string>, response: PostResponse)
    returns (reply: Option<string>, posted: Option<Payload>)
    ensures posted.Some? <==> DecodeCallback(callbackData).Post?
    ensures reply.None? <==> DecodeCallback(callbackData).Ignore?
    ensures DecodeCallback(callbackData).Cancel? ==> reply == Some(CancelledText)
    ensures DecodeCallback(callbackData).Malformed? ==> reply == Some(ErrorText)
    ensures DecodeCallback(callbackData).Post? ==>
      var action := DecodeCallback(callbackData);
      posted == Some(RequestPayload(action.mediaId, action.mediaType, action.seasons)) &&
      reply == match response
        case ConnectionFailed => Some(ErrorText)
        case Reply(ok, statusCode, message) =>
          if ok then Some(ResultPrefix + SuccessText(action.mediaType, action.mediaId, action.seasons))
          else Some(ResultPrefix + FailureText(action.mediaType, action.mediaId, ErrorDetail(statusCode, message)))
  {
    reply, posted := None, None;
    match DecodeCallback(callbackData)
    case Ignore =>
    case Cancel =>
      reply := Some(CancelledText);
    case Malformed =>
      reply := Some(ErrorText);
    case Post(mediaType, mediaId, seasons) =>
      var data, result := RequestOverseerr(mediaId, mediaType, seasons, response);
      posted := Some(data);
      reply := if result.Some? then Some(ResultPrefix + result.value) else Some(ErrorText);
  }

  /**
   * Pressing the confirm button of an offer posts the offered type and id,
   * with the sorted seasons exactly when a TV show was offered with seasons.
   */
  lemma ConfirmPostsOffer(mediaType: string, mediaId: int, seasons: seq<int>)
    requires '_' !in mediaType
    requires forall i :: 0 <= i < |seasons| ==> seasons[i] >= 0
    ensures var action := DecodeCallback(Some(CallbackData(mediaType, mediaId, seasons)));
      action.Post? &&
      var data := RequestPayload(action.mediaId, action.mediaType, action.seasons);
      data["mediaId"] == JInt(mediaId) && data["mediaType"] == JStr(mediaType) &&
      ("seasons" in data <==> mediaType == "tv" && |seasons| > 0) &&
      ("seasons" in data ==> data["seasons"] == JIntList(Sorting.Sort(seasons)))
  {
    CallbackRoundTrip(mediaType, mediaId, seasons);
    if mediaType == "tv" && |seasons| > 0 {
      var sorted := Sorting.Sort(seasons);
      assert |sorted| == |multiset(sorted)| == |seasons|;
    }
  }
}
