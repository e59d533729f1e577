/** Loading a paginated collection: parse each page's atom entries, follow `next`
    links, and concatenate the pages in order. */
module Pagination {
  import opened Wrappers
  import opened Faults
  import opened Xml
  import opened Resources

  /** The GET side of the transport: the document served at each URL. A URL
      outside the map is a failed fetch. */
  type Pages = map<string, Element>

  /** Python's `'%s' % value` for an optional URL. */
  function Show(u: Option<string>): string {
    match u
    case None => "None"
    case Some(s) => s
  }

  /** `_parse_resources` over the given entry elements: one element per entry,
      `None` for an entry of unknown kind; the first dispatch fault aborts. */
  function ParseEntries(es: seq<Element>): (r: Result<seq<Option<Resource>>, Fault>)
    ensures r.Success? <==> forall i :: 0 <= i < |es| ==> ParseResource(es[i]).Success?
    ensures r.Success? ==> |r.value| == |es|
    ensures r.Success? ==> forall i :: 0 <= i < |es| ==> ParseResource(es[i]) == Success(r.value[i])
    ensures r.Failure? ==>
      exists i :: 0 <= i < |es| && ParseResource(es[i]) == Failure(r.error) &&
        forall j :: 0 <= j < i ==> ParseResource(es[j]).Success?
  {
    if |es| == 0 then Success([])
    else
      var head :- ParseResource(es[0]);
      match ParseEntries(es[1..])
      case Failure(f) =>
        assert forall j :: 0 <= j < |es| - 1 ==> es[1..][j] == es[j + 1];
        Failure(f)
      case Success(tail) =>
        Success([head] + tail)
  }

  /** When every entry dispatches, the parsed list is exactly their dispatches, in order. */
  lemma ParseEntriesExactly(es: seq<Element>, rs: seq<Option<Resource>>)
    requires |es| == |rs| && forall i :: 0 <= i < |es| ==> ParseResource(es[i]) == Success(rs[i])
    ensures ParseEntries(es) == Success(rs)
  {
    var r := ParseEntries(es);
    assert r.value == rs;
  }

  /** The resources listed on one page, in document order. */
  function PageEntries(page: Element): Result<seq<Option<Resource>>, Fault> {
    ParseEntries(FindAll(page, Atom("entry")))
  }

  /** `_load_resources_page` on a fetched page: its `next` link (read first)
      and its entries, or the fault reading them raised. */
  function ReadPage(page: Element): (r: PageView<Option<Resource>>)
    ensures r.Success? <==> LinkUrl(page, "next").Success? && PageEntries(page).Success?
    ensures r.Success? ==> r.value == (LinkUrl(page, "next").value, PageEntries(page).value)
  {
    var next :- LinkUrl(page, "next");
    var items :- PageEntries(page);
    Success((next, items))
  }

  /** A page as the pagination loop sees it. */
  type PageView<T> = Result<(Option<string>, seq<T>), Fault>

  /** Every served page, read. */
  function View(pages: Pages): (v: map<string, PageView<Option<Resource>>>)
    ensures v.Keys == pages.Keys
    ensures forall u :: u in pages ==> v[u] == ReadPage(pages[u])
  {
    map u | u in pages :: ReadPage(pages[u])
  }

  /** What a collection load produced, and the GET requests it issued. */
  datatype Load<T> = Load(items: Result<seq<T>, Fault>, log: seq<Request>)

  /** One page's GET and items in front of the rest of the load. */
  function Prepend<T>(url: string, items: seq<T>, rest: Load<T>): Load<T> {
    Load(if rest.items.Success? then Success(items + rest.items.value) else rest.items, [Get(url)] + rest.log)
  }

  /** The loop of `_load_resources` from `url` on: fetch, read, follow `next`.
      `fuel` bounds the number of pages, since nothing stops a `next` cycle. */
  function Walk<T>(views: map<string, PageView<T>>, url: string, fuel: nat): Load<T>
    decreases fuel
  {
    if fuel == 0 then Load(Failure(Diverges), [])
    else if url !in views then Load(Failure(FetchFailed(url)), [Get(url)])
    else match views[url]
      case Failure(f) => Load(Failure(f), [Get(url)])
      case Success((next, items)) =>
        if next.None? then Load(Success(items), [Get(url)])
        else Prepend(url, items, Walk(views, next.value, fuel - 1))
  }

  /** Loading the pages from `url` on. */
  function LoadPages(pages: Pages, url: string, fuel: nat): Load<Option<Resource>> {
    Walk(View(pages), url, fuel)
  }

  /** The first page of a collection: the `rel` link with `rpublished/` appended. */
  function FirstPageUrl(node: Element, rel: string): Result<string, Fault> {
    var link :- LinkUrl(node, rel);
    Success(Show(link) + "rpublished/")
  }

  /** `_load_resources(rel)` without the assignment to the cache: a node whose
      `rel` link cannot be read loads nothing; otherwise the load succeeds exactly
      along a finished chain of pages starting at the first-page URL and no
      longer than the bound, fetching each page once and returning their entries
      in page order, then document order. */
  function LoadResources(node: Element, rel: string, pages: Pages, fuel: nat): (r: Load<Option<Resource>>)
    ensures LinkUrl(node, rel).Failure? ==> r == Load(Failure(LinkUrl(node, rel).error), [])
    ensures LinkUrl(node, rel).Success? && r.items.Success? ==>
      exists urls ::
        && IsChain(View(pages), urls) && urls[0] == Show(LinkUrl(node, rel).value) + "rpublished/" && |urls| <= fuel
        && r == Load(Success(Collected(View(pages), urls)), Gets(urls))
    ensures forall urls {:trigger IsChain(View(pages), urls)} ::
      LinkUrl(node, rel).Success? && IsChain(View(pages), urls) &&
      urls[0] == Show(LinkUrl(node, rel).value) + "rpublished/" && |urls| <= fuel ==>
        r == Load(Success(Collected(View(pages), urls)), Gets(urls))
  {
    match FirstPageUrl(node, rel)
    case Failure(f) => Load(Failure(f), [])
    case Success(url) =>
      WalkIsChain(View(pages), url, fuel);
      LoadPages(pages, url, fuel)
  }

  /** A walk succeeds exactly along the finished chains from its start that fit the fuel. */
  lemma WalkIsChain<T>(views: map<string, PageView<T>>, url: string, fuel: nat)
    ensures Walk(views, url, fuel).items.Success? ==>
      exists urls ::
        && IsChain(views, urls) && urls[0] == url && |urls| <= fuel
        && Walk(views, url, fuel) == Load(Success(Collected(views, urls)), Gets(urls))
    ensures forall urls {:trigger IsChain(views, urls)} :: IsChain(views, urls) && urls[0] == url && |urls| <= fuel ==>
      Walk(views, url, fuel) == Load(Success(Collected(views, urls)), Gets(urls))
  {
    if Walk(views, url, fuel).items.Success? {
      WalkFollowsChain(views, url, fuel);
    }
    forall urls | IsChain(views, urls) && urls[0] == url && |urls| <= fuel
      ensures Walk(views, url, fuel) == Load(Success(Collected(views, urls)), Gets(urls))
    {
      ChainIsWalked(views, urls, fuel);
    }
  }

  /** The first request of a load is the `rel` link plus `rpublished/`, or the
      literal `Nonerpublished/` when the node has no such link. */
  lemma FirstRequestIsPublishedListing(node: Element, rel: string, pages: Pages, fuel: nat)
    requires LinkUrl(node, rel).Success? && fuel > 0
    ensures var r := LoadResources(node, rel, pages, fuel);
      && |r.log| >= 1
      && (LinkUrl(node, rel).value.Some? ==> r.log[0] == Get(LinkUrl(node, rel).value.value + "rpublished/"))
      && (LinkUrl(node, rel).value.None? ==> r.log[0] == Get("Nonerpublished/"))
  {
    var url := Show(LinkUrl(node, rel).value) + "rpublished/";
    LoadFromFirstPage(node, rel, pages, fuel);
    WalkStartsAt(View(pages), url, fuel);
    if LinkUrl(node, rel).value.None? {
      assert "None" + "rpublished/" == "Nonerpublished/";
    }
  }

  /** With a readable `rel` link, a load is the walk from the first-page URL. */
  lemma LoadFromFirstPage(node: Element, rel: string, pages: Pages, fuel: nat)
    requires LinkUrl(node, rel).Success?
    ensures LoadResources(node, rel, pages, fuel) == Walk(View(pages), Show(LinkUrl(node, rel).value) + "rpublished/", fuel)
  {
  }

  /** A walk with fuel left fetches its starting URL first. */
  lemma WalkStartsAt<T>(views: map<string, PageView<T>>, url: string, fuel: nat)
    requires fuel > 0
    ensures |Walk(views, url, fuel).log| >= 1 && Walk(views, url, fuel).log[0] == Get(url)
  {
  }

  /** `urls` is a finished chain of pages: each is served and readable, each but
      the last links by `next` to its successor, and the last has no `next` link. */
  ghost predicate IsChain<T>(views: map<string, PageView<T>>, urls: seq<string>) {
    && |urls| >= 1
    && (forall k :: 0 <= k < |urls| ==> urls[k] in views && views[urls[k]].Success?)
    && (forall k :: 0 <= k < |urls| - 1 ==> views[urls[k]].value.0 == Some(urls[k + 1]))
    && views[urls[|urls| - 1]].value.0 == None
  }

  /** The items of the chain's pages, in page order and then document order. */
  function Collected<T>(views: map<string, PageView<T>>, urls: seq<string>): seq<T>
    requires forall k :: 0 <= k < |urls| ==> urls[k] in views && views[urls[k]].Success?
  {
    if |urls| == 0 then [] else views[urls[0]].value.1 + Collected(views, urls[1..])
  }

  /** One GET per URL, in order. */
  function Gets(urls: seq<string>): (log: seq<Request>)
    ensures |log| == |urls| && forall k :: 0 <= k < |urls| ==> log[k] == Get(urls[k])
  {
    if |urls| == 0 then [] else [Get(urls[0])] + Gets(urls[1..])
  }

  lemma ChainTail<T>(views: map<string, PageView<T>>, urls: seq<string>)
    requires IsChain(views, urls) && |urls| > 1
    ensures IsChain(views, urls[1..])
  {
  }

  /** A readable page whose `next` link leads to a finished chain starts a longer one. */
  lemma ChainCons<T>(views: map<string, PageView<T>>, url: string, rest: seq<string>)
    requires url in views && views[url].Success?
    requires IsChain(views, rest) && views[url].value.0 == Some(rest[0])
    ensures IsChain(views, [url] + rest)
    ensures Collected(views, [url] + rest) == views[url].value.1 + Collected(views, rest)
    ensures Gets([url] + rest) == [Get(url)] + Gets(rest)
  {
  }

  /** A readable page without a `next` link is a finished chain by itself. */
  lemma ChainOne<T>(views: map<string, PageView<T>>, url: string)
    requires url in views && views[url].Success? && views[url].value.0 == None
    ensures IsChain(views, [url])
    ensures Collected(views, [url]) == views[url].value.1
    ensures Gets([url]) == [Get(url)]
  {
  }

  /** A walk that returns a list went along a finished chain no longer than the
      fuel: it fetched exactly that chain's pages and returned their items in order. */
  lemma {:induction false} WalkFollowsChain<T>(views: map<string, PageView<T>>, url: string, fuel: nat)
    requires Walk(views, url, fuel).items.Success?
    ensures exists urls ::
      && IsChain(views, urls) && urls[0] == url && |urls| <= fuel
      && Walk(views, url, fuel) == Load(Success(Collected(views, urls)), Gets(urls))
    decreases fuel
  {
    var next := views[url].value.0;
    if next.None? {
      ChainOne(views, url);
      assert [url][0] == url;
    } else {
      var tail := Walk(views, next.value, fuel - 1);
      WalkFollowsChain(views, next.value, fuel - 1);
      var rest :| && IsChain(views, rest) && rest[0] == next.value && |rest| <= fuel - 1
                  && tail == Load(Success(Collected(views, rest)), Gets(rest));
      ChainCons(views, url, rest);
      var urls := [url] + rest;
      assert urls[0] == url;
    }
  }

  /** Conversely, a finished chain within the fuel is walked completely, in order,
      with one GET per page and no request beyond its last page. */
  lemma {:induction false} ChainIsWalked<T>(views: map<string, PageView<T>>, urls: seq<string>, fuel: nat)
    requires IsChain(views, urls) && |urls| <= fuel
    ensures Walk(views, urls[0], fuel) == Load(Success(Collected(views, urls)), Gets(urls))
    decreases |urls|
  {
    var url := urls[0];
    assert url in views && views[url].Success?;
    if |urls| > 1 {
      ChainTail(views, urls);
      ChainIsWalked(views, urls[1..], fuel - 1);
      assert urls[1..][0] == urls[1];
      ChainCons(views, url, urls[1..]);
      assert [url] + urls[1..] == urls;
    } else {
      ChainOne(views, url);
      assert [url] == urls;
    }
  }

  /** More fuel changes nothing once a walk has ended for a reason other than fuel. */
  lemma {:induction false} FuelSuffices<T>(views: map<string, PageView<T>>, url: string, fuel: nat, more: nat)
    requires Walk(views, url, fuel).items != Failure(Diverges) && fuel <= more
    ensures Walk(views, url, more) == Walk(views, url, fuel)
    decreases fuel
  {
    if url in views && views[url].Success? {
      var next := views[url].value.0;
      if next.Some? {
        FuelSuffices(views, next.value, fuel - 1, more - 1);
      }
    }
  }

  /** Number of atom entries on the given pages. */
  function EntryCount(pages: Pages, urls: seq<string>): nat
    requires forall k :: 0 <= k < |urls| ==> urls[k] in pages
  {
    if |urls| == 0 then 0 else |FindAll(pages[urls[0]], Atom("entry"))| + EntryCount(pages, urls[1..])
  }

  /** Every entry of every page of a chain yields exactly one element, unknown kinds included. */
  lemma {:induction false} CollectedLength(pages: Pages, urls: seq<string>)
    requires forall k :: 0 <= k < |urls| ==> urls[k] in pages && ReadPage(pages[urls[k]]).Success?
    ensures |Collected(View(pages), urls)| == EntryCount(pages, urls)
    decreases |urls|
  {
    if |urls| > 0 {
      CollectedLength(pages, urls[1..]);
    }
  }

  /** A successful load walked a finished chain of served pages, fetched each
      once in order, stopped at the first page without `next`, and returned
      one element per atom entry of those pages, in page and document order. */
  lemma LoadIsChainOfPages(pages: Pages, url: string, fuel: nat)
    requires LoadPages(pages, url, fuel).items.Success?
    ensures exists urls ::
      && IsChain(View(pages), urls) && urls[0] == url
      && LoadPages(pages, url, fuel).log == Gets(urls)
      && LoadPages(pages, url, fuel).items == Success(Collected(View(pages), urls))
      && |Collected(View(pages), urls)| == EntryCount(pages, urls)
  {
    WalkFollowsChain(View(pages), url, fuel);
    var urls :| && IsChain(View(pages), urls) && urls[0] == url && |urls| <= fuel
                && Walk(View(pages), url, fuel) == Load(Success(Collected(View(pages), urls)), Gets(urls));
    CollectedLength(pages, urls);
  }
}
