/** Typed records for the JSON documents the video platform's data API returns,
    and the `Option`/`Result` wrappers used for the lookup's outcomes. */
module Types {

  datatype Option<+T> = None | Some(value: T)

  datatype Result<+T, +E> = Ok(value: T) | Err(error: E)

  /** The Python exceptions the lookup can raise on well-typed data. */
  datatype Fault =
    | NoItems       // `items[0]` on a channel-lookup response with no items (IndexError)
    | NoCustomUrl   // the first item's snippet has no `customUrl` key (KeyError)
    | EmptyHandle   // `handle[0]` on the empty handle (IndexError)

  /** The `snippet` object of a search result or of a channel-lookup item. */
  datatype Snippet = Snippet(
    channelId: string,
    title: string,
    description: string,
    customUrl: Option<string>)

  /** One entry of a response's `items` list. */
  datatype Item = Item(snippet: Snippet)

  /** A response of the search endpoint or of the channel-lookup endpoint. */
  datatype Response = Response(items: seq<Item>)
}
