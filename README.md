# YouTube handle lookup, modelled in Dafny

This project models how the YoutubeHandleAPI utility turns a channel's public `@handle` into that
channel's record. It queries the search endpoint once with the handle. Then it checks the
candidates in search order: for each one it fetches the authoritative channel record and compares
the last `/`-segment of that record's `customUrl` with the handle after normalisation. The first
match is returned. The prototype variant skips the per-candidate fetch. It overwrites every search
result's `customUrl` in place with a synthetic URL, then scans for the raw handle.

Files:
- `types.dfy` (module `Types`): typed records for the API's JSON responses (`Response`, `Item`,
  `Snippet`), the `Option`/`Result` wrappers, and `Fault`, the exceptions the Python code raises
  on well-typed data.
- `segments.dfy` (module `Segments`): Python's `s.split("/")` and `s.split("/")[-1]`, with a
  round trip through `"/".join`.
- `lookup.dfy` (module `Lookup`): `main.py`, covering handle normalisation, `is_channel` and
  `fetch_channel_by_handle`.
- `prototype.dfy` (module `Prototype`): `prototype.py`, covering the in-place labelling loop on an
  `array`, the first-match scan, and the function that composes them.

The two network endpoints are parameters. `search: string -> Response` stands for
`search_youtube_channel`, and `lookup: string -> Response` stands for `fetch_channel_by_id`.
Both are total functions. As a modelling choice, a lookup that finds nothing is represented as
`Response([])`, and `is_channel` then gives `NoItems`.
`Lookup.FetchChannelByHandle` also returns `fetched`, the channel ids it fetched, in order. That
list is the model's fetch counter.

In `main.py`, Python's unchecked lookups become `Fault` values. The model raises them in the order
Python evaluates the expressions:
1. `items[0]` on an empty `items` list gives `NoItems` (line 91).
2. A missing `customUrl` key gives `NoCustomUrl` (line 91).
3. `handle[0]` on the empty handle gives `EmptyHandle` (line 94).

All three happen after the fetch has been issued. A fault ends the scan and propagates to the
caller.

Three behaviours of the code that are easy to misread:
- The code does not normalise the fetched segment. It compares the raw last segment with the
  normalised handle (main.py:91-97).
- The search query is the raw handle (main.py:120). So `"google"` and `"@google"` are treated
  the same only on the same candidate list (`Lookup.StopIndexIgnoresAt`). They are not treated
  the same end to end.
- The prototype does not normalise at all. With the empty handle and at least one search result,
  it returns the first result (the segment of `"https://www.youtube.com/"` is `""`), where
  `main.py` faults. With no search results, both return none, and `main.py` fetches nothing. A handle that
  contains `/` never matches in the prototype.

## Model

| member | source | states |
|---|---|---|
| `Segments.Split` | main.py:91 | `split("/")` gives at least one piece and no piece contains `/`. A string without `/` splits to itself. |
| `Segments.LastSegment` | main.py:91 | `split("/")[-1]` contains no `/`. It is the whole URL when the URL has no `/`. |
| `Segments.LastPieceIsSuffix` | main.py:91 | The last piece of `split("/")` is the suffix that follows the last `/`: it is a suffix of the string, and when it is shorter than the string, a `/` stands just before it. |
| `Segments.LastSegmentIsSuffix` | main.py:91 | The segment is a suffix of the URL with a `/` just before it, unless it is the whole URL. Together with "contains no `/`", this pins it down as the text after the last `/` (empty when the URL ends in `/`). |
| `Segments.SplitAppend` | main.py:91 | Appending `/` and a slash-free piece to a string appends exactly that piece to its split. |
| `Segments.JoinSplit` | main.py:91 | Joining the pieces of a split with `/` gives back the original string. |
| `Segments.SplitJoin` | main.py:91 | Splitting a `/`-join of slash-free pieces gives back those pieces. |
| `Segments.LastSegmentAfterSlash` | prototype.py:71 | The last segment of `x + "/" + t` is `t` when `t` has no `/`. |
| `Lookup.Normalize` | main.py:94 | The normalised handle starts with `@`. It equals the input exactly when the input already starts with `@`, and is `"@" + input` otherwise. The input must be non-empty. |
| `Lookup.NormalizeIdempotent` | main.py:94 | Normalising twice gives the same result as normalising once. |
| `Lookup.NormalizeIgnoresAt` | main.py:94 | For a non-empty `h` without a leading `@`, `h` and `"@" + h` normalise to the same handle. |
| `Lookup.IsChannelSpec` | main.py:68-98 | The contract of `Lookup.IsChannel`, which models `is_channel` and has no ensures of its own. `IsChannel` fetches once and returns one of five things. It returns the fetched response exactly when the first item's custom-URL segment equals the normalised handle (exact, case-sensitive). It returns `NoItems` exactly when the response has no items (line 91). It returns `NoCustomUrl` exactly when the first item lacks `customUrl` (line 91). It returns `EmptyHandle` exactly when both of those lookups succeed and the handle is empty (line 94). Otherwise it returns no match. The faults come in the order Python evaluates lines 91 and 94. |
| `Lookup.IsChannelIgnoresAt` | main.py:94-98 | For a non-empty `h` without a leading `@`, the verdict for `h` equals the verdict for `"@" + h` on every channel. |
| `Lookup.StopIndex` | main.py:123-133 | The scan stops at the first candidate whose check matches or faults. Every earlier candidate gives no match. The stop index equals the candidate count when no candidate stops the scan. |
| `Lookup.ScanCandidates` | main.py:123-133 | The loop fetches candidates in search order and stops at the stop index. It returns that candidate's check after index + 1 fetches, or none after one fetch per candidate. The ids fetched are a prefix of the candidates' ids. |
| `Lookup.StopIndexIgnoresAt` | main.py:123-133 | For a non-empty `h` without a leading `@`, on the same candidates, `h` and `"@" + h` stop the scan at the same position. |
| `Lookup.FetchChannelByHandle` | main.py:102-133 | The search runs once with the raw handle. The result is the check of the first candidate that matches or faults, after exactly index + 1 fetches. If no candidate matches (including an empty search result), the result is none after one fetch per candidate. Fetches follow search order. A returned response's first item has a custom-URL segment equal to the normalised handle. |
| `Prototype.RepeatLength` | prototype.py:65 | `s` repeated `n` times has length `n * |s|`. |
| `Prototype.DummyUrlLength` | prototype.py:59-65 | The `i`-th synthetic URL is `24 + |handle| + 4i` characters long. |
| `Prototype.LabelledShape` | prototype.py:59-65 | Labelling keeps the length, the order and every field except `customUrl`. Result `i` gets `"https://www.youtube.com/" + handle + "test" * i`. |
| `Prototype.LabelledDistinct` | prototype.py:64-65 | No two results get the same synthetic custom URL. |
| `Prototype.LabelCandidates` | prototype.py:59-65 | The loop that grows the label rewrites the array in place to the labelled sequence of its old contents. |
| `Prototype.FirstMatchIndex` | prototype.py:68-75 | Gives the first position whose custom-URL segment equals the handle. No earlier position matches. It gives the length when no position matches. |
| `Prototype.ScanCandidates` | prototype.py:68-75 | Returns the first result whose segment equals the raw handle, or none when no result matches. |
| `Prototype.FirstLabelledMatches` | prototype.py:59-75 | With a slash-free handle and at least one result, the first labelled result matches. |
| `Prototype.FetchChannelByHandle` | prototype.py:37-75 | Returns the first labelled result whose segment equals the raw handle, or none. An empty search result gives none. A slash-free handle with a non-empty result gives labelled result 0. A handle that contains `/` gives none. |

## Left out

- The client construction, the request building and `execute()` for the search and channel
  endpoints (main.py:23-29, 54-61; prototype.py:23-30). These are network calls. The model takes
  their responses as the `search` and `lookup` parameters.
- The `__main__` blocks, the API key literal and `print` (main.py:137-147; prototype.py:79-90).
  These are process entry and output.
- Transport, authentication and quota errors from the client. They propagate unchanged, and
  nothing in the core handles them.
- Dictionary navigation over JSON. The keys `items`, `snippet` and `channelId` are fields of
  typed records, so the KeyErrors of malformed responses are not modelled. Only the missing
  `customUrl` key is a fault. In particular, a channel-lookup response that leaves out `items`
  altogether would raise a KeyError at main.py:91. The model has no such response: a lookup that
  finds nothing is `Response([])` and gives `NoItems` (an IndexError in Python).
- The truthiness test `if channel_snippet:` (main.py:132) is modelled as "is `Some`". A returned
  response is always a non-empty dictionary.
- Prototype.ScanCandidates: requires every result to carry a `customUrl`. Its only caller has
  just set them all, so the KeyError path of prototype.py:71 is unreachable and is not modelled.
- Aliasing between the relabelled results and the search response object is not modelled. The
  model copies the results into a fresh array before labelling, and the response is not used
  afterwards.
