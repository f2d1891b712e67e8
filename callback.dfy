/**
 * The confirm/cancel keyboard offered after the assistant proposes a request,
 * and the decoding of the callback data a button press sends back.
 *
 * A confirm button carries `request_<type>_<id>`, followed by
 * `_<s1>-<s2>-...` (the seasons in ascending order) for a TV show with
 * seasons; the cancel button carries the literal `cancel_request`.
 */
module Callback {
  import opened Wrappers
  import opened Text
  import opened Sorting

  const RequestPrefix := "request_"
  const CancelData := "cancel_request"
  const CancelText := "No, cancel"

  /** The fields of the assistant's structured answer that drive the keyboard. */
  datatype StructuredOutput = StructuredOutput(
    action: Option<string>,
    mediaId: Option<int>,
    mediaType: Option<string>,
    seasons: Option<seq<int>>)

  datatype Button = Button(text: string, callbackData: string)

  /** `_1-3-5` for a TV show with seasons, empty otherwise. */
  function SeasonsSuffix(mediaType: string, seasons: seq<int>): (suffix: string)
    ensures suffix != "" <==> |seasons| > 0 && mediaType == "tv"
    ensures suffix != "" ==> suffix[0] == '_'
  {
    if |seasons| > 0 && mediaType == "tv" then "_" + Join("-", Strs(Sort(seasons))) else ""
  }

  /**
   * The callback data of the confirm button: `request_<type>_<id>`, then the
   * season part when there is one. CallbackRoundTrip states what it decodes to.
   */
  function CallbackData(mediaType: string, mediaId: int, seasons: seq<int>): (data: string)
    ensures RequestPrefix + mediaType + "_" + IntToString(mediaId) <= data
    ensures |data| == |RequestPrefix + mediaType + "_" + IntToString(mediaId)| + |SeasonsSuffix(mediaType, seasons)|
    ensures data[|RequestPrefix + mediaType + "_" + IntToString(mediaId)|..] == SeasonsSuffix(mediaType, seasons)
  {
    RequestPrefix + mediaType + "_" + IntToString(mediaId) + SeasonsSuffix(mediaType, seasons)
  }

  /**
   * The label of the confirm button: for a TV show with seasons it lists the
   * seasons in ascending order, the same list the data carries; otherwise it
   * names the media type.
   */
  function ConfirmText(mediaType: string, seasons: seq<int>): (text: string)
    ensures (text == "Yes, request this " + mediaType) <==> !(|seasons| > 0 && mediaType == "tv")
    ensures |seasons| > 0 && mediaType == "tv" ==>
      text == "Yes, request season(s) " + Join(", ", Strs(Sort(seasons)))
  {
    if SeasonsSuffix(mediaType, seasons) != "" then "Yes, request season(s) " + Join(", ", Strs(Sort(seasons)))
    else "Yes, request this " + mediaType
  }

  /**
   * The keyboard attached to the reply, given the agent's structured answer
   * (None when the agent returned no messages or no structured answer): one
   * only when a request is offered with a non-zero id and a non-empty media
   * type; then exactly two one-button rows, confirm above cancel.
   */
  function OfferKeyboard(answer: Option<StructuredOutput>): (keyboard: Option<seq<seq<Button>>>)
    ensures keyboard.Some? <==>
      answer.Some? && answer.value.action == Some("offer_request") &&
      answer.value.mediaId.Some? && answer.value.mediaId.value != 0 &&
      answer.value.mediaType.Some? && answer.value.mediaType.value != ""
    ensures keyboard.Some? ==>
      |keyboard.value| == 2 && |keyboard.value[0]| == 1 && |keyboard.value[1]| == 1 &&
      keyboard.value[0][0].callbackData == CallbackData(answer.value.mediaType.value, answer.value.mediaId.value,
        if answer.value.seasons.Some? then answer.value.seasons.value else []) &&
      RequestPrefix <= keyboard.value[0][0].callbackData &&
      keyboard.value[0][0].text == ConfirmText(answer.value.mediaType.value,
        if answer.value.seasons.Some? then answer.value.seasons.value else []) &&
      keyboard.value[1][0] == Button(CancelText, CancelData)
  {
    if answer.None? then None
    else
      var out := answer.value;
      if out.action == Some("offer_request") && out.mediaId.Some? && out.mediaId.value != 0 &&
         out.mediaType.Some? && out.mediaType.value != ""
      then
        var mediaType, mediaId := out.mediaType.value, out.mediaId.value;
        var seasons := if out.seasons.Some? then out.seasons.value else [];
        Some([[Button(ConfirmText(mediaType, seasons), CallbackData(mediaType, mediaId, seasons))],
              [Button(CancelText, CancelData)]])
      else None
  }

  /** What a button press leads to; `Post` carries the request to post. */
  datatype Action =
    | Post(mediaType: string, mediaId: int, seasons: Option<seq<int>>)
    | Cancel
    | Malformed  // the handler's error reply: too few parts or an id that is not an integer
    | Ignore

  /** `[int(s) for s in pieces if s.isdigit()]`. */
  function KeepDigits(pieces: seq<string>): (seasons: seq<int>)
    ensures |seasons| <= |pieces|
    ensures forall i :: 0 <= i < |seasons| ==> seasons[i] >= 0
  {
    if |pieces| == 0 then []
    else (if IsDigits(pieces[0]) then [ParseNat(pieces[0]) as int] else []) + KeepDigits(pieces[1..])
  }

  lemma {:induction false} KeepDigitsAppend(a: seq<string>, b: seq<string>)
    ensures KeepDigits(a + b) == KeepDigits(a) + KeepDigits(b)
  {
    if |a| == 0 {
      assert a + b == b;
    } else {
      assert (a + b)[0] == a[0] && (a + b)[1..] == a[1..] + b;
      KeepDigitsAppend(a[1..], b);
    }
  }

  /** The tolerant parse of the fourth part: non-numeric pieces are dropped, nothing left is None. */
  function ParseSeasons(field: string): (seasons: Option<seq<int>>)
    ensures seasons.Some? ==> |seasons.value| > 0 && forall i :: 0 <= i < |seasons.value| ==> seasons.value[i] >= 0
  {
    var kept := KeepDigits(Split(field, '-'));
    if |kept| == 0 then None else Some(kept)
  }

  /** The decoding and dispatch of `button_callback`. */
  function DecodeCallback(data: Option<string>): (action: Action)
    ensures action.Post? || action.Malformed? ==> data.Some? && RequestPrefix <= data.value
    ensures action.Cancel? <==> data == Some(CancelData)
    ensures action.Ignore? <==> data.None? || (!(RequestPrefix <= data.value) && data.value != CancelData)
    ensures action.Post? && action.seasons.Some? ==>
      action.mediaType == "tv" && |action.seasons.value| > 0
  {
    if data.None? || data.value == "" then Ignore
    else if RequestPrefix <= data.value then DecodeRequest(Split(data.value, '_'))
    else if data.value == CancelData then Cancel
    else Ignore
  }

  /** The `request_` branch, on the `_`-separated parts of the callback data. */
  function DecodeRequest(parts: seq<string>): (action: Action)
    ensures action.Post? || action.Malformed?
    ensures action.Post? && action.seasons.Some? ==>
      action.mediaType == "tv" && |action.seasons.value| > 0
  {
    if |parts| < 3 then Malformed
    else
      match ParseInt(parts[2])
      case None => Malformed
      case Some(mediaId) =>
        Post(parts[1], mediaId, if |parts| > 3 && parts[1] == "tv" then ParseSeasons(parts[3]) else None)
  }

  lemma JoinCons(sep: string, p: string, ps: seq<string>)
    requires |ps| >= 1
    ensures Join(sep, [p] + ps) == p + sep + Join(sep, ps)
  {
    assert ([p] + ps)[1..] == ps;
  }

  /**
   * How a token joined from `_`-free parts, the first being `request`,
   * decodes: the type is taken as it is, the id must parse, and only a fourth
   * part of a `tv` token is read, as seasons.
   */
  lemma DecodeParts(parts: seq<string>)
    requires |parts| >= 2 && parts[0] == "request"
    requires forall i :: 0 <= i < |parts| ==> '_' !in parts[i]
    ensures DecodeCallback(Some(Join("_", parts))) ==
      if |parts| < 3 || ParseInt(parts[2]).None? then Malformed
      else Post(parts[1], ParseInt(parts[2]).value,
                   if |parts| > 3 && parts[1] == "tv" then ParseSeasons(parts[3]) else None)
  {
    var token := Join("_", parts);
    assert RequestPrefix <= token by {
      JoinCons("_", "request", parts[1..]);
      assert [parts[0]] + parts[1..] == parts;
    }
    SplitJoin(parts, '_');
  }

  /** A `request_` token with a single underscore has too few parts. */
  lemma PrefixAloneMalformed(rest: string)
    requires '_' !in rest
    ensures DecodeCallback(Some(RequestPrefix + rest)) == Malformed
  {
    SplitAtSeparator("request", rest, '_');
    SplitWithoutSeparator("request", '_');
    SplitWithoutSeparator(rest, '_');
    assert RequestPrefix + rest == "request" + ['_'] + rest;
  }

  lemma JoinThree(a: string, b: string, c: string)
    ensures Join("_", [a, b, c]) == a + "_" + b + "_" + c
  {
    JoinCons("_", b, [c]);
    JoinCons("_", a, [b, c]);
  }

  lemma JoinFour(a: string, b: string, c: string, d: string)
    ensures Join("_", [a, b, c, d]) == a + "_" + b + "_" + c + "_" + d
  {
    JoinThree(b, c, d);
    JoinCons("_", a, [b, c, d]);
  }

  /**
   * The media type is not checked: any `_`-free type with an integer id is
   * dispatched as a request, and an id that `int()` rejects makes the token
   * malformed.
   */
  lemma MediaTypeNotValidated(mediaType: string, idText: string)
    requires '_' !in mediaType && '_' !in idText
    ensures DecodeCallback(Some(RequestPrefix + mediaType + "_" + idText)) ==
      if ParseInt(idText).None? then Malformed else Post(mediaType, ParseInt(idText).value, None)
  {
    assert '_' !in "request";
    JoinThree("request", mediaType, idText);
    assert RequestPrefix + mediaType + "_" + idText == "request" + "_" + mediaType + "_" + idText;
    DecodeParts(["request", mediaType, idText]);
  }

  /** A fourth part on a token whose type is not `tv` is ignored, not rejected. */
  lemma NonTvSeasonsIgnored(mediaType: string, mediaId: int, field: string)
    requires '_' !in mediaType && '_' !in field && mediaType != "tv"
    ensures DecodeCallback(Some(RequestPrefix + mediaType + "_" + IntToString(mediaId) + "_" + field)) ==
      Post(mediaType, mediaId, None)
  {
    var idText := IntToString(mediaId);
    IntToStringAvoids(mediaId, '_');
    ParseIntToString(mediaId);
    assert '_' !in "request";
    JoinFour("request", mediaType, idText, field);
    assert RequestPrefix + mediaType + "_" + idText + "_" + field == "request" + "_" + mediaType + "_" + idText + "_" + field;
    DecodeParts(["request", mediaType, idText, field]);
  }

  /** Parts after the fourth do not change the decoding. */
  lemma ExtraPartsIgnored(token: string, extra: string)
    requires RequestPrefix <= token && |Split(token, '_')| >= 4
    ensures DecodeCallback(Some(token + "_" + extra)) == DecodeCallback(Some(token))
  {
    var longer := token + "_" + extra;
    assert longer == token + ['_'] + extra;
    assert longer[..|RequestPrefix|] == token[..|RequestPrefix|];
    SplitAtSeparator(token, extra, '_');
    var parts, more := Split(token, '_'), Split(longer, '_');
    assert more == parts + Split(extra, '_');
    assert more[1] == parts[1] && more[2] == parts[2] && more[3] == parts[3];
    assert DecodeRequest(more) == DecodeRequest(parts);
  }

  /** A season piece that is not all digits is dropped from the end of the field. */
  lemma JunkSeasonDropped(field: string, junk: string)
    requires '-' !in junk && !IsDigits(junk)
    ensures ParseSeasons(field + "-" + junk) == ParseSeasons(field)
  {
    assert field + "-" + junk == field + ['-'] + junk;
    SplitAtSeparator(field, junk, '-');
    SplitWithoutSeparator(junk, '-');
    KeepDigitsAppend(Split(field, '-'), [junk]);
    assert KeepDigits([junk]) == [];
    assert KeepDigits(Split(field, '-')) + [] == KeepDigits(Split(field, '-'));
  }

  /** ... from the front of the field. */
  lemma JunkSeasonDroppedFirst(junk: string, rest: string)
    requires '-' !in junk && !IsDigits(junk)
    ensures ParseSeasons(junk + "-" + rest) == ParseSeasons(rest)
  {
    assert junk + "-" + rest == junk + ['-'] + rest;
    SplitAtSeparator(junk, rest, '-');
    SplitWithoutSeparator(junk, '-');
    KeepDigitsAppend([junk], Split(rest, '-'));
    assert KeepDigits([junk]) == [] by { assert [junk][1..] == []; }
    assert [] + KeepDigits(Split(rest, '-')) == KeepDigits(Split(rest, '-'));
  }

  /** ... and from between two other pieces: wherever it sits, it leaves the others as they were. */
  lemma JunkSeasonDroppedBetween(before: string, junk: string, after: string)
    requires '-' !in junk && !IsDigits(junk)
    ensures ParseSeasons(before + "-" + junk + "-" + after) == ParseSeasons(before + "-" + after)
  {
    var tail := junk + "-" + after;
    assert before + "-" + junk + "-" + after == before + ['-'] + tail;
    assert before + "-" + after == before + ['-'] + after;
    SplitAtSeparator(before, tail, '-');
    SplitAtSeparator(before, after, '-');
    assert tail == junk + ['-'] + after;
    SplitAtSeparator(junk, after, '-');
    SplitWithoutSeparator(junk, '-');
    var a, b := Split(before, '-'), Split(after, '-');
    assert a + ([junk] + b) == (a + [junk]) + b;
    KeepDigitsAppend(a + [junk], b);
    KeepDigitsAppend(a, [junk]);
    KeepDigitsAppend(a, b);
    assert KeepDigits([junk]) == [] by { assert [junk][1..] == []; }
    assert KeepDigits(a) + [] == KeepDigits(a);
  }

  lemma {:induction false} KeepDigitsNone(pieces: seq<string>)
    requires forall i :: 0 <= i < |pieces| ==> !IsDigits(pieces[i])
    ensures KeepDigits(pieces) == []
  {
    if |pieces| > 0 {
      KeepDigitsNone(pieces[1..]);
    }
  }

  /** A season part with no all-digit piece yields no seasons at all. */
  lemma NoDigitsNoSeasons(field: string)
    requires forall i :: 0 <= i < |Split(field, '-')| ==> !IsDigits(Split(field, '-')[i])
    ensures ParseSeasons(field) == None
  {
    KeepDigitsNone(Split(field, '-'));
  }

  /** A movie offer: `request_movie_123`. */
  lemma MovieOfferData()
    ensures CallbackData("movie", 123, []) == "request_movie_123"
  {
    assert IntToString(123) == "123";
  }

  lemma SortExample()
    ensures Sort([3, 1]) == [1, 3]
  {
    var sorted := Sort([3, 1]);
    assert IsSorted([1, 3]);
    assert multiset(sorted) == multiset([1, 3]) by {
      assert multiset([3, 1]) == multiset([1, 3]);
    }
    SortedPermutationUnique(sorted, [1, 3]);
  }

  lemma SeasonFieldExample()
    ensures Join("-", Strs(Sort([3, 1]))) == "1-3"
  {
    SortExample();
    assert Strs([1, 3]) == ["1", "3"] by {
      assert IntToString(1) == "1" && IntToString(3) == "3";
      assert [1, 3][1..] == [3] && [3][1..] == [];
      assert Strs([3]) == ["3"];
    }
    JoinCons("-", "1", ["3"]);
  }

  /** A TV offer for seasons 3 and 1: `request_tv_77_1-3`, seasons in ascending order. */
  lemma TvOfferData()
    ensures CallbackData("tv", 77, [3, 1]) == "request_tv_77_1-3"
  {
    SeasonFieldExample();
    assert SeasonsSuffix("tv", [3, 1]) == "_1-3";
    assert IntToString(77) == "77";
  }

  /** Reading back the decimal texts of non-negative numbers gives the numbers. */
  lemma {:induction false} KeepDigitsStrs(xs: seq<int>)
    requires forall i :: 0 <= i < |xs| ==> xs[i] >= 0
    ensures KeepDigits(Strs(xs)) == xs
  {
    if |xs| > 0 {
      KeepDigitsStrs(xs[1..]);
      ParseNatToString(xs[0]);
      assert Strs(xs)[1..] == Strs(xs[1..]);
      assert [xs[0]] + xs[1..] == xs;
    }
  }

  /** The season field of an encoded token parses back to the sorted seasons. */
  lemma SeasonFieldRoundTrip(seasons: seq<int>)
    requires |seasons| > 0
    requires forall i :: 0 <= i < |seasons| ==> seasons[i] >= 0
    ensures '_' !in Join("-", Strs(Sort(seasons)))
    ensures ParseSeasons(Join("-", Strs(Sort(seasons)))) == Some(Sort(seasons))
  {
    var sorted := Sort(seasons);
    assert |sorted| == |multiset(sorted)| == |seasons|;
    SortKeepsLowerBound(seasons, 0);
    var pieces := Strs(sorted);
    forall i | 0 <= i < |pieces|
      ensures '-' !in pieces[i] && '_' !in pieces[i]
    {
      StrsAt(sorted, i);
      IntToStringAvoids(sorted[i], '_');
      DigitsAvoid(pieces[i], '-');
    }
    JoinAvoids("-", pieces, '_');
    SplitJoin(pieces, '-');
    KeepDigitsStrs(sorted);
  }

  lemma {:induction false} StrsAt(xs: seq<int>, i: nat)
    requires i < |xs| && xs[i] >= 0
    ensures Strs(xs)[i] == NatToString(xs[i])
  {
    if i > 0 {
      StrsAt(xs[1..], i - 1);
    }
  }

  /** The confirm data of an offer without a season part decodes to the type and id. */
  lemma PlainRoundTrip(mediaType: string, mediaId: int)
    requires '_' !in mediaType
    ensures DecodeCallback(Some(RequestPrefix + mediaType + "_" + IntToString(mediaId))) ==
      Post(mediaType, mediaId, None)
  {
    IntToStringAvoids(mediaId, '_');
    ParseIntToString(mediaId);
    MediaTypeNotValidated(mediaType, IntToString(mediaId));
  }

  /** Confirm data for a TV show with a season part that parses decodes to the type, the id and those seasons. */
  lemma SeasonsRoundTrip(mediaId: int, field: string, seasons: seq<int>)
    requires '_' !in field && ParseSeasons(field) == Some(seasons)
    ensures DecodeCallback(Some(RequestPrefix + "tv" + "_" + IntToString(mediaId) + ("_" + field))) ==
      Post("tv", mediaId, Some(seasons))
  {
    var idText := IntToString(mediaId);
    IntToStringAvoids(mediaId, '_');
    ParseIntToString(mediaId);
    assert '_' !in "request";
    JoinFour("request", "tv", idText, field);
    assert RequestPrefix + "tv" + "_" + idText + ("_" + field) == "request" + "_" + "tv" + "_" + idText + "_" + field;
    DecodeParts(["request", "tv", idText, field]);
  }

  /**
   * Decoding the confirm button's data gives back the offered type and id,
   * and for a TV show with seasons the seasons in ascending order.
   */
  lemma CallbackRoundTrip(mediaType: string, mediaId: int, seasons: seq<int>)
    requires '_' !in mediaType
    requires forall i :: 0 <= i < |seasons| ==> seasons[i] >= 0
    ensures DecodeCallback(Some(CallbackData(mediaType, mediaId, seasons))) ==
      Post(mediaType, mediaId, if mediaType == "tv" && |seasons| > 0 then Some(Sort(seasons)) else None)
  {
    if mediaType == "tv" && |seasons| > 0 {
      var field := Join("-", Strs(Sort(seasons)));
      SeasonFieldRoundTrip(seasons);
      SeasonsRoundTrip(mediaId, field, Sort(seasons));
      assert SeasonsSuffix(mediaType, seasons) == "_" + field;
    } else {
      var head := RequestPrefix + mediaType + "_" + IntToString(mediaId);
      PlainRoundTrip(mediaType, mediaId);
      assert SeasonsSuffix(mediaType, seasons) == "";
      assert head + "" == head;
    }
  }

  /**
   * Both buttons of an offered keyboard decode to what was offered: the
   * confirm button to the request, the cancel button to the cancellation.
   * The confirm label lists exactly the seasons its data decodes to, and
   * names the media type when the data carries no seasons.
   */
  lemma KeyboardRoundTrip(answer: Option<StructuredOutput>)
    requires OfferKeyboard(answer).Some?
    requires '_' !in answer.value.mediaType.value
    requires answer.value.seasons.Some? ==>
      forall i :: 0 <= i < |answer.value.seasons.value| ==> answer.value.seasons.value[i] >= 0
    ensures var out, keyboard := answer.value, OfferKeyboard(answer).value;
      var seasons := if out.seasons.Some? then out.seasons.value else [];
      DecodeCallback(Some(keyboard[0][0].callbackData)) ==
        Post(out.mediaType.value, out.mediaId.value,
                if out.mediaType.value == "tv" && |seasons| > 0 then Some(Sort(seasons)) else None) &&
      DecodeCallback(Some(keyboard[1][0].callbackData)) == Cancel &&
      match DecodeCallback(Some(keyboard[0][0].callbackData))
      case Post(t, _, Some(decoded)) => keyboard[0][0].text == "Yes, request season(s) " + Join(", ", Strs(decoded))
      case Post(t, _, None) => keyboard[0][0].text == "Yes, request this " + t
      case _ => false
  {
    var out := answer.value;
    var seasons := if out.seasons.Some? then out.seasons.value else [];
    CallbackRoundTrip(out.mediaType.value, out.mediaId.value, seasons);
  }
}
