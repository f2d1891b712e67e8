/**
 * Post-processing of an Overseerr search response (the `search_overseerr`
 * tool): keep the results of the asked-for media type, take the first two,
 * and turn each raw record into the candidate shape the assistant reads,
 * with a request status derived from the two backend status codes.
 */
module Search {
  import opened Wrappers

  const ImageTmdbUrl := "https://image.tmdb.org/t/p/w600_and_h900_bestv2"

  /** Overseerr's `mediaInfo`: the regular and the 4K status code, each possibly missing. */
  datatype MediaInfo = MediaInfo(status: Option<int>, status4k: Option<int>)

  /** One element of the backend's `results` array; every field may be missing. */
  datatype RawResult = RawResult(
    id: Option<int>,
    title: Option<string>,
    name: Option<string>,
    releaseDate: Option<string>,
    mediaType: Option<string>,
    overview: Option<string>,
    posterPath: Option<string>,
    mediaInfo: Option<MediaInfo>)

  datatype Status = Available | Requested | NotRequested
  {
    /** The text the tool reports for the status. */
    function Label(): string
    {
      match this
      case Available => "Available"
      case Requested => "Requested"
      case NotRequested => "Not Requested"
    }

    /** Position in the precedence Not Requested < Requested < Available. */
    function Rank(): nat
    {
      match this
      case NotRequested => 0
      case Requested => 1
      case Available => 2
    }
  }

  /** One processed search result. */
  datatype Candidate = Candidate(
    title: Option<string>,
    year: string,
    mediaId: Option<int>,
    mediaType: Option<string>,
    overview: Option<string>,
    status: Status,
    posterUrl: Option<string>)

  /** The search call's HTTP outcome: the decoded `results` (empty when absent) or the error body. */
  datatype SearchResponse = SearchOk(results: seq<RawResult>) | SearchFailed(text: string)

  /** What the tool returns: the candidates, or a one-element list holding the error body. */
  datatype ToolOutput = Candidates(items: seq<Candidate>) | ErrorText(lines: seq<string>)

  /** Python truthiness of an optional string: present and non-empty. */
  predicate Truthy(s: Option<string>)
  {
    s.Some? && s.value != ""
  }

  /** 2 (pending), 3 (processing) and 4 (partially available) count as requested. */
  predicate InProgress(code: Option<int>)
  {
    code == Some(2) || code == Some(3) || code == Some(4)
  }

  /** The status that a single code indicates on its own. */
  function CodeStatus(code: Option<int>): (status: Status)
    ensures status == Available <==> code == Some(5)
    ensures status == Requested <==> InProgress(code)
  {
    if code == Some(5) then Available
    else if InProgress(code) then Requested
    else NotRequested
  }

  /**
   * The status of a record: the stronger of what its regular and its 4K code
   * indicate, and Not Requested when `mediaInfo` is missing.
   */
  function StatusOf(info: Option<MediaInfo>): (status: Status)
    ensures info.None? ==> status == NotRequested
    ensures info.Some? ==>
      (status == CodeStatus(info.value.status) || status == CodeStatus(info.value.status4k)) &&
      status.Rank() >= CodeStatus(info.value.status).Rank() &&
      status.Rank() >= CodeStatus(info.value.status4k).Rank()
  {
    if info.None? then NotRequested
    else
      var regular, uhd := CodeStatus(info.value.status), CodeStatus(info.value.status4k);
      if regular.Rank() >= uhd.Rank() then regular else uhd
  }

  /** The precedence the status derivation follows, code by code. */
  lemma StatusPrecedence(info: Option<MediaInfo>)
    ensures StatusOf(info) == Available <==>
      info.Some? && (info.value.status == Some(5) || info.value.status4k == Some(5))
    ensures StatusOf(info) == Requested <==>
      info.Some? && info.value.status != Some(5) && info.value.status4k != Some(5) &&
      (InProgress(info.value.status) || InProgress(info.value.status4k))
    ensures StatusOf(info) == NotRequested <==>
      info.None? || (CodeStatus(info.value.status) == NotRequested && CodeStatus(info.value.status4k) == NotRequested)
  {
  }

  /** The regular and the 4K code play symmetric roles. */
  lemma StatusSymmetric(a: Option<int>, b: Option<int>)
    ensures StatusOf(Some(MediaInfo(a, b))) == StatusOf(Some(MediaInfo(b, a)))
  {
  }

  /**
   * The tool reports the status as text; the three texts are distinct, so
   * the reported text determines the status.
   */
  lemma LabelInjective(a: Status, b: Status)
    ensures a.Label() == b.Label() <==> a == b
  {
  }

  /** `r.get("releaseDate", "")`. */
  function ReleaseDate(r: RawResult): string
  {
    if r.releaseDate.Some? then r.releaseDate.value else ""
  }

  function Min(a: int, b: int): int
  {
    if a <= b then a else b
  }

  /** The candidate built from one raw record. */
  function Normalise(r: RawResult): (c: Candidate)
    ensures c.posterUrl.Some? <==> Truthy(r.posterPath)
    ensures c.posterUrl.Some? ==> c.posterUrl.value == ImageTmdbUrl + r.posterPath.value
    ensures |c.year| == Min(4, |ReleaseDate(r)|) && c.year <= ReleaseDate(r)
    ensures c.title == if Truthy(r.title) then r.title else r.name
    ensures c.mediaId == r.id && c.mediaType == r.mediaType && c.overview == r.overview
    ensures c.status == StatusOf(r.mediaInfo)
  {
    var date := ReleaseDate(r);
    Candidate(
      if Truthy(r.title) then r.title else r.name,
      if |date| <= 4 then date else date[..4],
      r.id,
      r.mediaType,
      r.overview,
      StatusOf(r.mediaInfo),
      if Truthy(r.posterPath) then Some(ImageTmdbUrl + r.posterPath.value) else None)
  }

  /** `[r for r in results if r.get("mediaType") == mediaType]`. */
  function OfType(results: seq<RawResult>, mediaType: string): (kept: seq<RawResult>)
    ensures |kept| <= |results|
    ensures forall i :: 0 <= i < |kept| ==> kept[i].mediaType == Some(mediaType)
    ensures forall r :: r in kept <==> r in results && r.mediaType == Some(mediaType)
  {
    if |results| == 0 then []
    else
      var rest := OfType(results[1..], mediaType);
      assert forall r :: r in results <==> r == results[0] || r in results[1..];
      if results[0].mediaType == Some(mediaType) then [results[0]] + rest else rest
  }

  /** The filter keeps the backend's order: it distributes over concatenation. */
  lemma {:induction false} OfTypeKeepsOrder(a: seq<RawResult>, b: seq<RawResult>, mediaType: string)
    ensures OfType(a + b, mediaType) == OfType(a, mediaType) + OfType(b, mediaType)
  {
    if |a| > 0 {
      assert (a + b)[0] == a[0] && (a + b)[1..] == a[1..] + b;
      OfTypeKeepsOrder(a[1..], b, mediaType);
    } else {
      assert a + b == b;
    }
  }

  /** The results the tool looks at: all of them when no media type is given. */
  function Filtered(results: seq<RawResult>, mediaType: string): seq<RawResult>
  {
    if mediaType == "" then results else OfType(results, mediaType)
  }

  /**
   * The loop body of the tool: one raw record turned into a candidate, the
   * status settled by the source's if-chain.
   */
  method ProcessResult(r: RawResult) returns (c: Candidate)
    ensures c == Normalise(r)
  {
    var status := NotRequested;
    if r.mediaInfo.Some? {
      var info := r.mediaInfo.value;
      if info.status == Some(5) || info.status4k == Some(5) {
        status := Available;
      } else if InProgress(info.status) || InProgress(info.status4k) {
        status := Requested;
      }
    }
    StatusPrecedence(r.mediaInfo);
    assert status == StatusOf(r.mediaInfo);
    var posterUrl := if Truthy(r.posterPath) then Some(ImageTmdbUrl + r.posterPath.value) else None;
    var date := ReleaseDate(r);
    c := Candidate(
      if Truthy(r.title) then r.title else r.name,
      if |date| <= 4 then date else date[..4],
      r.id,
      r.mediaType,
      r.overview,
      status,
      posterUrl);
  }

  /**
   * The tool's processing of a search response: a failed call yields its
   * error body; a successful one yields, in the backend's order, the first
   * two results of the asked-for type, each normalised.
   */
  method SearchOverseerr(response: SearchResponse, mediaType: string) returns (out: ToolOutput)
    ensures response.SearchFailed? ==> out == ErrorText([response.text])
    ensures response.SearchOk? ==> out.Candidates?
    ensures response.SearchOk? ==>
      var kept := Filtered(response.results, mediaType);
      |out.items| == Min(2, |kept|) &&
      forall i :: 0 <= i < |out.items| ==> out.items[i] == Normalise(kept[i])
    ensures response.SearchOk? && mediaType != "" ==>
      forall i :: 0 <= i < |out.items| ==> out.items[i].mediaType == Some(mediaType)
  {
    if response.SearchFailed? {
      return ErrorText([response.text]);
    }
    var results := response.results;
    if mediaType != "" {
      results := OfType(results, mediaType);
    }
    var top := if |results| <= 2 then results else results[..2];
    var processed: seq<Candidate> := [];
    for i := 0 to |top|
      invariant |processed| == i
      invariant forall j :: 0 <= j < i ==> processed[j] == Normalise(top[j])
    {
      var c := ProcessResult(top[i]);
      processed := processed + [c];
    }
    out := Candidates(processed);
  }
}
