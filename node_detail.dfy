/**
 * The node page's list logic: how one page of a node's topics is fetched and whether more
 * pages follow, and the key and value under which the list is kept in the list cache.
 */
module NodeDetail {
  import opened Wrappers
  import opened Types
  import Client
  import InfiniteScroll

  /** The site shows 20 topics on a full node page. */
  const TopicsPerPage := 20

  const LoadFailed := "加载失败"

  /** The decoded answer of the node-topics endpoint; `result` is `None` when absent. */
  datatype Response = Response(success: bool, result: Option<seq<Topic>>, totalPages: int)

  /** What `fetchPage` hands to the pager. */
  datatype Batch = Batch(items: seq<Topic>, hasMore: bool)

  /** The first half of `fetchPage`: with no node name the answer is an empty last page
      and nothing is requested; otherwise the node-topics path is requested. */
  datatype Plan = Answer(batch: Batch) | Request(path: string)

  function PlanFetch(name: string, page: nat): (p: Plan)
    ensures name == "" <==> p == Answer(Batch([], false))
    ensures name != "" ==> p == Request(Client.NodeTopicsPath(name, Some(page)))
  {
    if name == "" then Answer(Batch([], false))
    else Request(Client.NodeTopicsPath(name, Some(page)))
  }

  /** More pages follow: by the reported page count when it is above one, otherwise by
      whether a full page came back. */
  function HasMore(page: int, totalPages: int, count: nat): (b: bool)
    ensures totalPages > 1 ==> (b <==> page < totalPages)
    ensures totalPages <= 1 ==> (b <==> count >= TopicsPerPage)
  {
    var byPage := page < (if totalPages == 0 then 1 else totalPages);
    var byCount := count >= TopicsPerPage;
    if totalPages > 1 then byPage else byCount
  }

  /** The second half of `fetchPage`: an unsuccessful answer is an error; a missing result
      is an empty list. */
  function Receive(page: int, res: Response): (r: Result<Batch, string>)
    ensures !res.success <==> r == Failure(LoadFailed)
    ensures r.Success? ==> r.value.items == res.result.GetOr([])
    ensures r.Success? && res.totalPages > 1 ==> (r.value.hasMore <==> page < res.totalPages)
    ensures r.Success? && res.totalPages <= 1 ==>
      (r.value.hasMore <==> |res.result.GetOr([])| >= TopicsPerPage)
  {
    if !res.success then Failure(LoadFailed)
    else
      var items := res.result.GetOr([]);
      Success(Batch(items, HasMore(page, res.totalPages, |items|)))
  }

  /** The pager asks for pages 1, 2, ... and asks for the next one only while the last
      answer said more follows. When every answer reports the same page count above one,
      no page past that count is ever asked for, and the answer for the last page stops the
      listing. */
  lemma {:induction false} PagesStopAtCount(answers: seq<Response>, total: int)
    requires total > 1
    requires forall k :: 0 <= k < |answers| ==> answers[k].success && answers[k].totalPages == total
    requires forall k :: 0 <= k < |answers| - 1 ==> Receive(k + 1, answers[k]).value.hasMore
    ensures |answers| <= total
    ensures |answers| == total ==> !Receive(total, answers[total - 1]).value.hasMore
  {
    if |answers| > 1 {
      var k := |answers| - 2;
      assert Receive(k + 1, answers[k]).value.hasMore;
    }
  }

  /** The key of a node's list in the list cache. */
  function CacheKey(name: string): (k: string)
    ensures |k| == 6 + |name| && k[..6] == "/node/" && k[6..] == name
  {
    "/node/" + name
  }

  /** Different nodes never share a cache entry. */
  lemma CacheKeyInjective(a: string, b: string)
    requires CacheKey(a) == CacheKey(b)
    ensures a == b
  {
    assert CacheKey(a)[6..] == a;
  }

  /** What the page saves when it is left: the pager's snapshot and the node record. */
  datatype Cached = Cached(snapshot: InfiniteScroll.Snapshot<Topic>, node: Option<Node>)
}
