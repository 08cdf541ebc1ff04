/**
 * `get_playlist_videos`: pages through the playlist-items listing, 50 items
 * per request, until a response carries no (or an empty) `nextPageToken`.
 * The listing endpoint is modelled by the sequence of responses it gives,
 * in request order.
 */
module Fetcher {
  import opened Wrappers
  import opened Errors

  /** One playlist entry, `{'id': ..., 'title': ...}`. */
  datatype Entry = Entry(id: string, title: string)

  /** One listing response: HTTP status, body text, the entries of `items`, and `nextPageToken`. */
  datatype Page = Page(status: int, body: string, items: seq<Entry>, nextPageToken: Option<string>)

  /** One listing request: `playlistId`, `maxResults` and the optional `pageToken` parameter. */
  datatype Request = Request(playlistId: string, maxResults: nat, pageToken: Option<string>)

  /** The page size every listing request asks for. */
  const MaxResults: nat := 50

  /** A token Python treats as true: present and not empty. */
  predicate Truthy(token: Option<string>) {
    token.Some? && token.value != ""
  }

  /** The loop stops at this page: it raises, or its token is falsy. */
  predicate Ends(p: Page) {
    p.status != 200 || !Truthy(p.nextPageToken)
  }

  /** The service ends the listing: some response raises or carries no further token. */
  predicate Terminates(pages: seq<Page>) {
    exists k :: 0 <= k < |pages| && Ends(pages[k])
  }

  /** The index of the first page at or after `from` at which the loop stops. */
  function FirstEndFrom(pages: seq<Page>, from: nat): (k: nat)
    requires from <= |pages|
    requires exists k :: from <= k < |pages| && Ends(pages[k])
    ensures from <= k < |pages| && Ends(pages[k])
    ensures forall j :: from <= j < k ==> !Ends(pages[j])
    decreases |pages| - from
  {
    if Ends(pages[from]) then from else FirstEndFrom(pages, from + 1)
  }

  /** The index of the last page requested. */
  function LastPage(pages: seq<Page>): nat
    requires Terminates(pages)
  {
    FirstEndFrom(pages, 0)
  }

  /** All entries of the pages, in page order. */
  function Flatten(pages: seq<Page>): seq<Entry> {
    if |pages| == 0 then [] else Flatten(pages[..|pages| - 1]) + pages[|pages| - 1].items
  }

  /**
   * What `get_playlist_videos` returns: the entries of every page up to and
   * including the last one requested, or the API error of that last page.
   */
  function Listing(pages: seq<Page>): Result<seq<Entry>, Error>
    requires Terminates(pages)
  {
    var n := LastPage(pages);
    if pages[n].status != 200 then Err(ListingFailed(pages[n].status, pages[n].body))
    else Ok(Flatten(pages[..n + 1]))
  }

  /** The requests sent: the first without a token, each later one with the previous page's token. */
  function Requests(playlistId: string, pages: seq<Page>, count: nat): (rs: seq<Request>)
    requires count <= |pages| + 1
    ensures |rs| == count
    ensures forall k :: 0 <= k < count ==>
      rs[k] == Request(playlistId, MaxResults, if k == 0 then None else pages[k - 1].nextPageToken)
  {
    if count == 0 then []
    else Requests(playlistId, pages, count - 1)
         + [Request(playlistId, MaxResults, if count == 1 then None else pages[count - 2].nextPageToken)]
  }

  /** `get_playlist_videos`, with `pages[k]` the response to the k-th request. */
  method GetPlaylistVideos(playlistId: string, pages: seq<Page>)
    returns (r: Result<seq<Entry>, Error>, sent: seq<Request>)
    requires Terminates(pages)
    ensures r == Listing(pages)
    ensures sent == Requests(playlistId, pages, LastPage(pages) + 1)
  {
    var videos: seq<Entry> := [];
    var nextPageToken: Option<string> := None;
    var k := 0;
    sent := [];
    while true
      invariant 0 <= k <= LastPage(pages)
      invariant videos == Flatten(pages[..k])
      invariant nextPageToken == if k == 0 then None else pages[k - 1].nextPageToken
      invariant k > 0 ==> Truthy(nextPageToken)
      invariant sent == Requests(playlistId, pages, k)
      decreases LastPage(pages) - k
    {
      var token := if Truthy(nextPageToken) then nextPageToken else None;
      sent := sent + [Request(playlistId, MaxResults, token)];
      assert sent == Requests(playlistId, pages, k + 1);
      var response := pages[k];
      if response.status != 200 {
        assert Ends(pages[k]) && k == LastPage(pages);
        r := Err(ListingFailed(response.status, response.body));
        return;
      }
      ghost var before := videos;
      for j := 0 to |response.items|
        invariant videos == before + response.items[..j]
      {
        videos := videos + [response.items[j]];
      }
      assert pages[..k + 1][..k] == pages[..k];
      assert videos == Flatten(pages[..k + 1]);
      nextPageToken := response.nextPageToken;
      if !Truthy(nextPageToken) {
        assert Ends(pages[k]) && k == LastPage(pages);
        break;
      }
      k := k + 1;
    }
    r := Ok(videos);
  }

  /**
   * When the first `n` pages succeed with a further token and page `n`
   * succeeds without one, the result is every entry of pages 0 to n in order.
   */
  lemma ListingOk(pages: seq<Page>, n: nat)
    requires n < |pages|
    requires forall j :: 0 <= j < n ==> pages[j].status == 200 && Truthy(pages[j].nextPageToken)
    requires pages[n].status == 200 && !Truthy(pages[n].nextPageToken)
    ensures Terminates(pages) && Listing(pages) == Ok(Flatten(pages[..n + 1]))
    ensures |Flatten(pages[..n + 1])| == ItemCount(pages[..n + 1])
  {
    assert Ends(pages[n]);
    assert LastPage(pages) == n;
    FlattenLength(pages[..n + 1]);
  }

  /** A failing response ends the listing with its status and body, whatever came before. */
  lemma ListingFailFast(pages: seq<Page>, n: nat)
    requires n < |pages|
    requires forall j :: 0 <= j < n ==> pages[j].status == 200 && Truthy(pages[j].nextPageToken)
    requires pages[n].status != 200
    ensures Terminates(pages) && Listing(pages) == Err(ListingFailed(pages[n].status, pages[n].body))
  {
    assert Ends(pages[n]);
    assert LastPage(pages) == n;
  }

  function ItemCount(pages: seq<Page>): nat {
    if |pages| == 0 then 0 else ItemCount(pages[..|pages| - 1]) + |pages[|pages| - 1].items|
  }

  lemma {:induction false} FlattenLength(pages: seq<Page>)
    ensures |Flatten(pages)| == ItemCount(pages)
  {
    if |pages| > 0 {
      FlattenLength(pages[..|pages| - 1]);
    }
  }

  /** Two full pages of 50 and a last page of 7 give 107 entries, in source order. */
  lemma ListingThreePages(p0: Page, p1: Page, p2: Page)
    requires |p0.items| == 50 && |p1.items| == 50 && |p2.items| == 7
    requires p0.status == 200 && p1.status == 200 && p2.status == 200
    requires Truthy(p0.nextPageToken) && Truthy(p1.nextPageToken) && p2.nextPageToken == None
    ensures Terminates([p0, p1, p2])
    ensures Listing([p0, p1, p2]) == Ok(p0.items + p1.items + p2.items)
    ensures |Listing([p0, p1, p2]).value| == 107
  {
    var pages := [p0, p1, p2];
    ListingOk(pages, 2);
    assert pages[..3] == pages;
    assert pages[..2] == [p0, p1] && [p0, p1][..1] == [p0] && [p0][..0] == [];
    assert Flatten([p0]) == p0.items;
    assert Flatten([p0, p1]) == p0.items + p1.items;
    assert Flatten(pages) == p0.items + p1.items + p2.items;
  }

  /** An empty playlist is one page with no items and no token: no error, no entries. */
  lemma ListingEmpty(p: Page)
    requires p.status == 200 && p.items == [] && !Truthy(p.nextPageToken)
    ensures Terminates([p]) && Listing([p]) == Ok([])
  {
    ListingOk([p], 0);
    assert [p][..1] == [p] && [p][..0] == [];
  }
}
