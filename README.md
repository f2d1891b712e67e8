# teleseerr core, modelled in Dafny

teleseerr is a Telegram bot in front of an Overseerr media server. A user
writes "show title season 3". A language-model agent calls the
`search_overseerr` tool and decides whether to offer a request. If it offers
one, the bot attaches a confirm/cancel keyboard whose confirm button carries
a callback string such as `request_tv_77_1-3`. Pressing a button sends the
string back. `button_callback` decodes it and calls `request_overseerr`,
which posts the request and reports the outcome.

This project models the deterministic parts of `telegram_bot.py`:

- `search.dfy`, module `Search`. The tool's post-processing of a search
  response: the media-type filter, the cut to two results, the
  status derived from `mediaInfo.status` / `status4k`, the poster URL, the year
  and the title fallback. `SearchOverseerr` is a method with the source's
  loop. It is proved against the reference functions `Filtered`, `Normalise`
  and `StatusOf`.
- `callback.dfy`, module `Callback`. The keyboard built from the agent's
  structured answer, the callback data, and its tolerant decoding and
  dispatch. The main theorem is the round trip: decoding the confirm data
  gives back the offered type and id, plus the seasons in ascending order.
- `request.dfy`, module `Request`. The payload of the request POST, with
  `seasons` only for a TV show with seasons. Also the success and failure
  reports, and `button_callback` as a method. This method posts exactly
  when the data decodes to a request.
- `text.dfy`, `sorting.dfy`, `wrappers.dfy`. The Python primitives the code
  relies on, over ASCII: `str.split`, `str.join`, `str(int)`, `int(str)`,
  `str.isdigit`, `sorted`, and an Option type.

HTTP replies are inputs. A search reply is `SearchOk(results)` or
`SearchFailed(text)`. A POST reply is `Reply(ok, statusCode, message)`, or
`ConnectionFailed` when `requests.post` itself raises.

The callback decoder is tolerant, and the model follows it. It dispatches
any media type (`MediaTypeNotValidated`). It ignores a fourth part on a
token whose type is not `tv` (`NonTvSeasonsIgnored`) and every part after
the fourth (`ExtraPartsIgnored`). It never checks the token's length. A
failed search returns a one-element list holding the error body
(`SearchOverseerr`).

## Model

| member | source | states |
|---|---|---|
| Search.StatusPrecedence | telegram_bot.py:56-70 | Available iff either code is 5; Requested iff neither is 5 and one is 2, 3 or 4; Not Requested when `mediaInfo` is missing or both codes are something else |
| Search.StatusSymmetric | telegram_bot.py:65-67 | the regular and the 4K status code play interchangeable roles |
| Search.CodeStatus | telegram_bot.py:65-70 | a single code indicates Available iff it is 5, Requested iff it is 2, 3 or 4 |
| Search.StatusOf | telegram_bot.py:56-70 | Not Requested without `mediaInfo`; otherwise the stronger of what the two codes indicate (it is one of them and ranks at least as high as both); StatusPrecedence spells this out code by code |
| Search.LabelInjective | telegram_bot.py:57-70 | the three reported status texts "Available", "Requested" and "Not Requested" are distinct, so the text determines the status |
| Search.Normalise | telegram_bot.py:72-84 | poster URL present iff `posterPath` is non-empty, and then the image prefix plus the path; year is the first at most 4 characters of `releaseDate` ("" when missing); title is `title` when non-empty, else `name`; id, type and overview copied; status per `StatusOf` |
| Search.OfType | telegram_bot.py:51-52 | the filter keeps exactly the results whose `mediaType` equals the asked type, never more than it was given |
| Search.OfTypeKeepsOrder | telegram_bot.py:51-52 | the filter keeps the backend's order (it distributes over concatenation) |
| Search.ProcessResult | telegram_bot.py:55-84 | the source's per-record loop body, with its step-by-step status assignment, builds exactly the candidate `Normalise` describes |
| Search.SearchOverseerr | telegram_bot.py:49-94 | a failed call yields the one-element list of its body; a successful one yields min(2, number of kept results) candidates, the i-th being the normalised i-th kept result, each of the asked media type when one is given |
| Sorting.Sort | telegram_bot.py:260 | `sorted(seasons)`: ascending, and a permutation of its input (duplicates kept) |
| Sorting.SortedPermutationUnique | telegram_bot.py:260 | two sorted permutations of the same list are equal, so `Sort` agrees with Python's `sorted` |
| Text.SplitJoin | telegram_bot.py:338 | splitting a join on a separator none of the pieces contains gives the pieces back |
| Text.JoinSplit | telegram_bot.py:338 | joining the pieces of a split gives the string back |
| Text.ParseIntToString | telegram_bot.py:340 | `int(str(n)) == n` for every integer |
| Callback.ConfirmText | telegram_bot.py:265-269 | the confirm label is "Yes, request this <type>" exactly when no season part is encoded; for a TV show with seasons it is "Yes, request season(s) " followed by the seasons in ascending order, joined by ", " |
| Callback.SeasonsSuffix | telegram_bot.py:257-261 | the season part is present iff the type is `tv` and seasons were offered, and then starts with `_`; SeasonFieldRoundTrip states that the rest parses back to the sorted seasons |
| Callback.CallbackData | telegram_bot.py:257-263 | the confirm data is `request_<type>_<id>` followed by exactly the season part; CallbackRoundTrip states what it decodes to |
| Callback.OfferKeyboard | telegram_bot.py:250-284 | a keyboard exists iff the action is `offer_request`, the id is non-zero and the type non-empty; it has two one-button rows, confirm label per `ConfirmText` and confirm data per `CallbackData`, both over the offered type, id and seasons (none when absent), cancel button `No, cancel` / `cancel_request` |
| Callback.MovieOfferData | telegram_bot.py:258-263 | a movie offer with id 123 is encoded `request_movie_123` |
| Callback.TvOfferData | telegram_bot.py:258-263 | a TV offer with id 77 and seasons [3, 1] is encoded `request_tv_77_1-3` |
| Callback.ParseSeasons | telegram_bot.py:345-349 | the parsed seasons are None or a non-empty list of non-negative numbers |
| Callback.KeepDigits | telegram_bot.py:347 | keeps at most one number per piece, all non-negative; KeepDigitsStrs and the JunkSeasonDropped lemmas fix which numbers |
| Callback.DecodeCallback | telegram_bot.py:333-365 | empty or missing data, and data that is neither a `request_` token nor `cancel_request`, are ignored; exactly `cancel_request` cancels; a request carries seasons only for type `tv` |
| Callback.DecodeRequest | telegram_bot.py:338-349 | the `request_` branch yields a request or the error case, with seasons only for `tv` |
| Callback.DecodeParts | telegram_bot.py:338-349 | a token joined from `_`-free parts decodes to the error case with fewer than three parts or a non-integer id, and otherwise to the type as given, the parsed id and, for `tv` with a fourth part, its parsed seasons |
| Callback.PrefixAloneMalformed | telegram_bot.py:338-340 | a `request_` token with no further `_` has too few parts and is the error case |
| Callback.MediaTypeNotValidated | telegram_bot.py:339-340 | any `_`-free media type is dispatched as given; a non-integer id is the error case |
| Callback.NonTvSeasonsIgnored | telegram_bot.py:344 | a fourth part on a non-`tv` token is ignored, not rejected |
| Callback.ExtraPartsIgnored | telegram_bot.py:338-345 | appending `_` and anything to a token of four or more parts does not change its decoding |
| Callback.JunkSeasonDropped | telegram_bot.py:347 | a season piece that is not all digits (the empty piece included) at the end of the field is dropped without affecting the others |
| Callback.JunkSeasonDroppedFirst | telegram_bot.py:347 | such a piece at the front of the field is dropped likewise |
| Callback.JunkSeasonDroppedBetween | telegram_bot.py:347 | such a piece between two others is dropped likewise, so its position never matters |
| Callback.NoDigitsNoSeasons | telegram_bot.py:347-349 | a season part with no all-digit piece gives None |
| Callback.KeepDigitsStrs | telegram_bot.py:347 | reading back the decimal texts of non-negative numbers gives the numbers |
| Callback.SeasonFieldRoundTrip | telegram_bot.py:259-261 | the encoded season part holds no `_` and parses back to the sorted seasons |
| Callback.PlainRoundTrip | telegram_bot.py:263 | `request_<type>_<id>` decodes to that type and id with no seasons |
| Callback.SeasonsRoundTrip | telegram_bot.py:344-349 | a `tv` token whose fourth part parses decodes to the id and those seasons |
| Callback.CallbackRoundTrip | telegram_bot.py:258-263 | decoding the confirm data gives back the type and id, with the sorted seasons iff the type is `tv` and seasons were offered |
| Callback.KeyboardRoundTrip | telegram_bot.py:258-284 | the confirm button of an offered keyboard decodes to the offered request, the cancel button to the cancellation; the confirm label lists exactly the seasons its data decodes to, or names the type when it decodes to none |
| Request.RequestPayload | telegram_bot.py:113-120 | the payload always has `mediaId` and `mediaType`, has `seasons` iff the type is `tv` and seasons are non-empty, and nothing else |
| Request.SeasonText | telegram_bot.py:125 | the season note is non-empty iff seasons were given and non-empty, whatever the media type |
| Request.SuccessText | telegram_bot.py:126 | the success report names the type and the id, then carries exactly the season note of `SeasonText` (non-empty iff seasons were given), and ends with a full stop |
| Request.ErrorDetail | telegram_bot.py:130-135 | the detail is the backend's message when it is present and non-empty, else starts `Status: `; StatusCodeRecoverable shows the code is recoverable from it |
| Request.FailureText | telegram_bot.py:137 | the failure report names the type and the id and ends with the detail |
| Request.RequestOverseerr | telegram_bot.py:113-137 | builds that payload; a raising POST gives no report; an ok reply gives the success report with the season list iff seasons are non-empty; a failed reply gives the failure report with the backend message if non-empty, else `Status: <code>` |
| Request.ReportsDistinct | telegram_bot.py:124-137 | a success report never equals a failure report |
| Request.StatusCodeRecoverable | telegram_bot.py:130-134 | without a usable backend message the detail is `Status: ` followed by text that parses back to the status code |
| Request.ButtonCallback | telegram_bot.py:333-365 | posts iff the data decodes to a request, and then the decoded request's payload; reply "Request result: " plus the report, or the error text when decoding fails or the POST raises; "Request cancelled." for `cancel_request`; no reply otherwise |
| Request.ConfirmPostsOffer | telegram_bot.py:355-357 | pressing an offer's confirm button posts the offered id and type, with the sorted seasons exactly when a TV show was offered with seasons |

## Left out

- The HTTP calls (`httpx.get`, `requests.post`), JSON decoding and `urllib.parse.quote_plus` are not modelled: they are I/O. Their results are inputs.
- The language-model agent and its system prompt are not modelled. Choosing among candidates by year, and deciding between reporting a status and offering a request, exist only as prompt text, not as code. The agent's structured answer and its free-form reply text are inputs.
- The Telegram transport is not modelled: sending text or a poster, `query.answer`, `edit_message_text` and the fallback when sending fails. Neither are async/await, logging, environment configuration and `main`.
- Python's `int()` is modelled on ASCII decimal digits with an optional leading `-`. A leading `+`, surrounding whitespace, digit-group underscores and non-ASCII digits are not modelled. `str.isdigit` is likewise modelled on ASCII digits only.
- JSON fields of unexpected types are not modelled. A status code sent as a string, a `releaseDate` of `null` (which makes the slice raise) and a non-string truthy `message` are examples. An empty `mediaInfo` object is treated as missing, which gives the same status.
- Callback.CallbackRoundTrip: stated for media types without `_` and for non-negative seasons. A negative season prints with a `-`, which the `-`-separated season part cannot carry back.
- Re-pressing a confirm button re-posts the request. The handler keeps no state, so the model has none either.
- Python's `sorted` is modelled by an insertion sort. `SortedPermutationUnique` shows that the result is the same as any other correct sort.
