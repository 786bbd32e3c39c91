/** The prototype lookup of prototype.py: relabel every search result in place with
    a synthetic custom URL, then return the first result whose custom URL ends in
    the handle as given (no '@' normalisation). */
module Prototype {
  import opened Types
  import opened Segments

  /** The synthetic URL's fixed prefix. */
  const UrlPrefix: string := "https://www.youtube.com/"

  /** `s * n` on strings. */
  function Repeat(s: string, n: nat): string
  {
    if n == 0 then [] else Repeat(s, n - 1) + s
  }

  lemma {:induction false} RepeatLength(s: string, n: nat)
    ensures |Repeat(s, n)| == n * |s|
  {
    if n > 0 {
      RepeatLength(s, n - 1);
    }
  }

  /** The custom URL the labelling gives the result at position `index`. */
  function DummyUrl(handle: string, index: nat): string
  {
    UrlPrefix + handle + Repeat("test", index)
  }

  /** Each label is four characters longer than the one before it. */
  lemma DummyUrlLength(handle: string, index: nat)
    ensures |DummyUrl(handle, index)| == |UrlPrefix| + |handle| + 4 * index
  {
    RepeatLength("test", index);
  }

  /** The result with its custom URL replaced and every other field kept. */
  function WithCustomUrl(item: Item, url: string): Item
  {
    item.(snippet := item.snippet.(customUrl := Some(url)))
  }

  /** The search results after the labelling loop. */
  function Labelled(items: seq<Item>, handle: string): seq<Item>
  {
    seq(|items|, i requires 0 <= i < |items| => WithCustomUrl(items[i], DummyUrl(handle, i)))
  }

  /** The labelling keeps the length and order and every field except `customUrl`,
      and sets the `customUrl` of position `i` to the `i`-th synthetic URL. */
  lemma LabelledShape(items: seq<Item>, handle: string, i: nat)
    requires i < |items|
    ensures |Labelled(items, handle)| == |items|
    ensures Labelled(items, handle)[i].snippet.channelId == items[i].snippet.channelId
    ensures Labelled(items, handle)[i].snippet.title == items[i].snippet.title
    ensures Labelled(items, handle)[i].snippet.description == items[i].snippet.description
    ensures Labelled(items, handle)[i].snippet.customUrl == Some(UrlPrefix + handle + Repeat("test", i))
  {
  }

  /** No two results receive the same custom URL. */
  lemma LabelledDistinct(items: seq<Item>, handle: string, i: nat, j: nat)
    requires i < j < |items|
    ensures Labelled(items, handle)[i].snippet.customUrl != Labelled(items, handle)[j].snippet.customUrl
  {
    DummyUrlLength(handle, i);
    DummyUrlLength(handle, j);
  }

  /** prototype.py lines 59-65: overwrite each result's custom URL in place, growing the label by
      "test" after every result. */
  method LabelCandidates(channels: array<Item>, handle: string)
    modifies channels
    ensures channels[..] == Labelled(old(channels[..]), handle)
  {
    var dummyHandle := UrlPrefix + handle;
    for index := 0 to channels.Length
      invariant dummyHandle == DummyUrl(handle, index)
      invariant forall j :: 0 <= j < index ==>
        channels[j] == WithCustomUrl(old(channels[j]), DummyUrl(handle, j))
      invariant forall j :: index <= j < channels.Length ==> channels[j] == old(channels[j])
    {
      channels[index] := WithCustomUrl(channels[index], dummyHandle);
      dummyHandle := dummyHandle + "test";
    }
  }

  /** The result carries a custom URL whose last '/'-segment is exactly the handle. */
  predicate HasSegment(item: Item, handle: string)
  {
    item.snippet.customUrl.Some? && LastSegment(item.snippet.customUrl.value) == handle
  }

  /** The position of the first result whose segment is the handle, or the number
      of results when there is none. */
  function FirstMatchIndex(items: seq<Item>, handle: string): (k: nat)
    ensures k <= |items|
    ensures forall j :: 0 <= j < k ==> !HasSegment(items[j], handle)
    ensures k < |items| ==> HasSegment(items[k], handle)
    decreases |items|
  {
    if items == [] then 0
    else if HasSegment(items[0], handle) then 0
    else
      var k := FirstMatchIndex(items[1..], handle);
      assert forall j :: 1 <= j < k + 1 ==> items[j] == items[1..][j - 1];
      1 + k
  }

  /** prototype.py lines 68-75: return the first result whose custom URL ends in the handle.
      Every result has a custom URL here, since the labelling has just set them all. */
  method ScanCandidates(channels: array<Item>, handle: string) returns (found: Option<Item>)
    requires forall i :: 0 <= i < channels.Length ==> channels[i].snippet.customUrl.Some?
    ensures var k := FirstMatchIndex(channels[..], handle);
      found == if k < channels.Length then Some(channels[k]) else None
  {
    ghost var items := channels[..];
    for i := 0 to channels.Length
      invariant forall j :: 0 <= j < i ==> !HasSegment(items[j], handle)
    {
      var customUrl := LastSegment(channels[i].snippet.customUrl.value);
      if customUrl == handle {
        assert HasSegment(items[i], handle);
        assert FirstMatchIndex(items, handle) == i;
        return Some(channels[i]);
      }
    }
    assert FirstMatchIndex(items, handle) == channels.Length;
    found := None;
  }

  /** With a slash-free handle the first labelled result always matches. */
  lemma {:induction false} FirstLabelledMatches(items: seq<Item>, handle: string)
    requires items != [] && '/' !in handle
    ensures FirstMatchIndex(Labelled(items, handle), handle) == 0
  {
    var url := DummyUrl(handle, 0);
    assert url == "https://www.youtube.com" + "/" + handle;
    LastSegmentAfterSlash("https://www.youtube.com", handle);
    assert HasSegment(Labelled(items, handle)[0], handle);
  }

  /** `fetch_channel_by_handle` of the prototype: search, relabel the results in
      place, then scan them for the raw handle. */
  method FetchChannelByHandle(search: string -> Response, handle: string) returns (found: Option<Item>)
    ensures var labelled := Labelled(search(handle).items, handle);
      var k := FirstMatchIndex(labelled, handle);
      found == if k < |labelled| then Some(labelled[k]) else None
    ensures search(handle).items == [] ==> found == None
    ensures search(handle).items != [] && '/' !in handle ==>
      found == Some(Labelled(search(handle).items, handle)[0])
    ensures '/' in handle ==> found == None
  {
    var items := search(handle).items;
    var channels := new Item[|items|](i requires 0 <= i < |items| => items[i]);
    assert channels[..] == items;
    LabelCandidates(channels, handle);
    found := ScanCandidates(channels, handle);
    if items != [] && '/' !in handle {
      FirstLabelledMatches(items, handle);
    }
  }
}
