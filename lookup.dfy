/** The handle lookup of main.py: normalise the handle, fetch each search candidate's
    channel record and accept the first whose custom URL ends in the handle.
    The two endpoints are parameters: `search` maps a query to the search response,
    `lookup` maps a channel id to the channel-lookup response. */
module Lookup {
  import opened Types
  import opened Segments

  /** The handle with a leading '@' added when it does not already have one.
      Indexing `handle[0]` needs a non-empty handle. */
  function Normalize(handle: string): (r: string)
    requires handle != []
    ensures r != [] && r[0] == '@'
    ensures r == handle <==> handle[0] == '@'
    ensures r == handle || r == "@" + handle
  {
    if handle[0] != '@' then "@" + handle else handle
  }

  /** Normalising an already normalised handle changes nothing. */
  lemma NormalizeIdempotent(handle: string)
    requires handle != []
    ensures Normalize(Normalize(handle)) == Normalize(handle)
  {
  }

  /** A handle written without '@' normalises like the same handle written with it. */
  lemma NormalizeIgnoresAt(handle: string)
    requires handle != [] && handle[0] != '@'
    ensures Normalize(handle) == Normalize("@" + handle)
  {
  }

  /** The response's first item carries a custom URL whose last '/'-segment is
      exactly (case-sensitively) the normalised handle. */
  predicate Matches(response: Response, handle: string)
  {
    handle != [] && response.items != [] && response.items[0].snippet.customUrl.Some? &&
    LastSegment(response.items[0].snippet.customUrl.value) == Normalize(handle)
  }

  /** `is_channel`: fetch the channel record of `channelId` and return it when its
      custom URL ends in the normalised handle, nothing when it does not; the
      lookups the source performs unchecked become faults, in the order Python
      evaluates them. */
  function IsChannel(lookup: string -> Response, channelId: string, handle: string)
    : Result<Option<Response>, Fault>
  {
    var response := lookup(channelId);
    if response.items == [] then Err(NoItems)
    else match response.items[0].snippet.customUrl
      case None => Err(NoCustomUrl)
      case Some(url) =>
        var segment := LastSegment(url);
        if handle == [] then Err(EmptyHandle)
        else if Normalize(handle) == segment then Ok(Some(response))
        else Ok(None)
  }

  /** What `is_channel` returns: the fetched response exactly on a match; each fault
      exactly when Python's corresponding lookup fails; no match otherwise. */
  lemma IsChannelSpec(lookup: string -> Response, channelId: string, handle: string)
    ensures var r := IsChannel(lookup, channelId, handle);
      (r.Ok? && r.value.Some? <==> Matches(lookup(channelId), handle)) &&
      (r.Ok? && r.value.Some? ==> r.value.value == lookup(channelId)) &&
      (r == Err(NoItems) <==> lookup(channelId).items == []) &&
      (r == Err(NoCustomUrl) <==>
        lookup(channelId).items != [] && lookup(channelId).items[0].snippet.customUrl.None?) &&
      (r == Err(EmptyHandle) <==>
        lookup(channelId).items != [] && lookup(channelId).items[0].snippet.customUrl.Some? &&
        handle == [])
  {
  }

  /** With or without a leading '@', the handle gives the same verdict on every channel. */
  lemma IsChannelIgnoresAt(lookup: string -> Response, channelId: string, handle: string)
    requires handle != [] && handle[0] != '@'
    ensures IsChannel(lookup, channelId, handle) == IsChannel(lookup, channelId, "@" + handle)
  {
  }

  /** The position at which the scan over `candidates` stops: the first candidate
      whose check matches or faults, or the number of candidates when none does. */
  function StopIndex(candidates: seq<Item>, lookup: string -> Response, handle: string): (k: nat)
    ensures k <= |candidates|
    ensures forall j :: 0 <= j < k ==>
      IsChannel(lookup, candidates[j].snippet.channelId, handle) == Ok(None)
    ensures k < |candidates| ==>
      IsChannel(lookup, candidates[k].snippet.channelId, handle) != Ok(None)
    decreases |candidates|
  {
    if candidates == [] then 0
    else if IsChannel(lookup, candidates[0].snippet.channelId, handle) != Ok(None) then 0
    else 1 + StopIndex(candidates[1..], lookup, handle)
  }

  /** A position the scan reaches is passed exactly when its check gives no match. */
  lemma StopIndexStep(candidates: seq<Item>, lookup: string -> Response, handle: string, i: nat)
    requires i < |candidates| && i <= StopIndex(candidates, lookup, handle)
    ensures IsChannel(lookup, candidates[i].snippet.channelId, handle) == Ok(None) <==>
      i < StopIndex(candidates, lookup, handle)
  {
  }

  /** Given the same candidates, a handle with and without '@' stops the scan at the
      same place. (The search query itself is the raw handle, so the candidates
      may differ between the two spellings.) */
  lemma StopIndexIgnoresAt(candidates: seq<Item>, lookup: string -> Response, handle: string)
    requires handle != [] && handle[0] != '@'
    ensures StopIndex(candidates, lookup, handle) == StopIndex(candidates, lookup, "@" + handle)
  {
  }

  /** The candidates' channel ids, in search order. */
  function ChannelIds(candidates: seq<Item>): seq<string>
  {
    seq(|candidates|, j requires 0 <= j < |candidates| => candidates[j].snippet.channelId)
  }

  /** The ids of the first `i + 1` candidates extend those of the first `i`. */
  lemma ChannelIdsPrefix(candidates: seq<Item>, i: nat)
    requires i < |candidates|
    ensures ChannelIds(candidates)[..i + 1] == ChannelIds(candidates)[..i] + [candidates[i].snippet.channelId]
  {
  }

  /** The loop of `fetch_channel_by_handle`: check the candidates in order, one
      fetch each, and stop at the first match or fault. `fetched` lists the channel
      ids fetched, in order. */
  method ScanCandidates(candidates: seq<Item>, lookup: string -> Response, handle: string)
    returns (outcome: Result<Option<Response>, Fault>, fetched: seq<string>)
    ensures var k := StopIndex(candidates, lookup, handle);
      (k < |candidates| ==>
        outcome == IsChannel(lookup, candidates[k].snippet.channelId, handle) && |fetched| == k + 1) &&
      (k == |candidates| ==> outcome == Ok(None) && |fetched| == |candidates|)
    ensures |fetched| <= |candidates| && fetched == ChannelIds(candidates)[..|fetched|]
  {
    fetched := [];
    for i := 0 to |candidates|
      invariant fetched == ChannelIds(candidates)[..i]
      invariant i <= StopIndex(candidates, lookup, handle)
    {
      var channelId := candidates[i].snippet.channelId;
      var channelSnippet := IsChannel(lookup, channelId, handle);
      ChannelIdsPrefix(candidates, i);
      fetched := fetched + [channelId];
      StopIndexStep(candidates, lookup, handle, i);
      if channelSnippet != Ok(None) {
        return channelSnippet, fetched;
      }
    }
    outcome := Ok(None);
  }

  /** `fetch_channel_by_handle`: search once with the raw handle, then scan the
      candidates. A returned response is one whose custom URL ends in the
      normalised handle. */
  method FetchChannelByHandle(search: string -> Response, lookup: string -> Response, handle: string)
    returns (outcome: Result<Option<Response>, Fault>, fetched: seq<string>)
    ensures var candidates := search(handle).items;
      var k := StopIndex(candidates, lookup, handle);
      (k < |candidates| ==>
        outcome == IsChannel(lookup, candidates[k].snippet.channelId, handle) && |fetched| == k + 1) &&
      (k == |candidates| ==> outcome == Ok(None) && |fetched| == |candidates|)
    ensures |fetched| <= |search(handle).items| &&
      fetched == ChannelIds(search(handle).items)[..|fetched|]
    ensures outcome.Ok? && outcome.value.Some? ==> Matches(outcome.value.value, handle)
  {
    var channels := search(handle).items;
    outcome, fetched := ScanCandidates(channels, lookup, handle);
    var k := StopIndex(channels, lookup, handle);
    if k < |channels| {
      IsChannelSpec(lookup, channels[k].snippet.channelId, handle);
    }
  }
}
