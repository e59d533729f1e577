/** The service locator: the per-URL registry of services and the lookup of a
    named collection in the service document. */
module Services {
  import opened Wrappers
  import opened Faults
  import opened Xml
  import opened Resources
  import Pagination

  /** A Service instance. Distinct instances have distinct `id`s, standing for
      object identity. */
  datatype Service = Service(url: string, id: nat)

  /** The class-wide `_services` dictionary, with the number of instances made so far. */
  datatype Registry = Registry(services: map<string, Service>, created: nat)

  const Empty: Registry := Registry(map[], 0)

  /** Each entry is the service for its own URL, made earlier, and no two URLs share an instance. */
  ghost predicate Valid(reg: Registry) {
    && (forall u :: u in reg.services ==> reg.services[u].url == u && reg.services[u].id < reg.created)
    && (forall u, v :: u in reg.services && v in reg.services && u != v ==> reg.services[u].id != reg.services[v].id)
  }

  /** `Service.get(url)`: the registered instance, or a new one registered first. */
  function GetService(reg: Registry, url: string): (r: (Registry, Service))
    ensures url in r.0.services && r.0.services[url] == r.1
    ensures url in reg.services ==> r.0 == reg
    ensures r.0.services.Keys == reg.services.Keys + {url}
    ensures forall u :: u in reg.services ==> r.0.services[u] == reg.services[u]
  {
    if url in reg.services then (reg, reg.services[url])
    else
      var s := Service(url, reg.created);
      (Registry(reg.services[url := s], reg.created + 1), s)
  }

  /** The class-level `_services = {}`: no entries, and the registry invariant holds. */
  lemma EmptyIsValid()
    ensures Empty.services.Keys == {} && Valid(Empty)
  {
  }

  /** Registering keeps the registry valid. */
  lemma GetKeepsValid(reg: Registry, url: string)
    requires Valid(reg)
    ensures Valid(GetService(reg, url).0)
    ensures GetService(reg, url).1.url == url
  {
  }

  /** Asking again for the same URL gives the same instance and changes nothing. */
  lemma GetTwiceSameInstance(reg: Registry, url: string)
    ensures var (reg1, s1) := GetService(reg, url);
      GetService(reg1, url) == (reg1, s1)
  {
  }

  /** Distinct URLs get distinct instances, and asking for one URL does not
      replace the instance already held for another. */
  lemma DistinctUrlsDistinctInstances(reg: Registry, u: string, v: string)
    requires Valid(reg) && u != v
    ensures var (reg1, su) := GetService(reg, u);
      var (reg2, sv) := GetService(reg1, v);
      su != sv && reg2.services[u] == su
  {
  }

  /** `_get_resource_url`'s scan: the href of the first collection whose `id`
      attribute is `resourceId`. Reading a missing `id` or `href` raises KeyError. */
  function ScanCollections(cs: seq<Element>, resourceId: string): (r: Result<Option<string>, Fault>)
    ensures r == Success(None) <==> forall j :: 0 <= j < |cs| ==> IdIsNot(cs[j], resourceId)
    ensures r.Success? && r.value.Some? ==>
      exists i :: 0 <= i < |cs| && IsFirstCollection(cs, resourceId, i) &&
        "href" in cs[i].attrs && cs[i].attrs["href"] == r.value.value
    ensures r.Failure? ==>
      (exists i :: 0 <= i < |cs| && "id" !in cs[i].attrs && forall j :: 0 <= j < i ==> IdIsNot(cs[j], resourceId)) ||
      (exists i :: 0 <= i < |cs| && IsFirstCollection(cs, resourceId, i) && "href" !in cs[i].attrs)
  {
    if |cs| == 0 then Success(None)
    else
      var id :- Attr(cs[0], "id");
      if id == resourceId then
        var href :- Attr(cs[0], "href");
        Success(Some(href))
      else
        var rest := ScanCollections(cs[1..], resourceId);
        assert forall j :: 0 <= j < |cs| - 1 ==> cs[1..][j] == cs[j + 1];
        rest
  }

  /** The element has an `id` attribute and it is not `resourceId`. */
  predicate IdIsNot(c: Element, resourceId: string) {
    "id" in c.attrs && c.attrs["id"] != resourceId
  }

  /** Collection `i` is the first whose `id` is `resourceId`; all before it have other ids. */
  predicate IsFirstCollection(cs: seq<Element>, resourceId: string, i: nat)
    requires i < |cs|
  {
    && "id" in cs[i].attrs && cs[i].attrs["id"] == resourceId
    && forall j :: 0 <= j < i ==> IdIsNot(cs[j], resourceId)
  }

  /** The app `collection` elements anywhere below the root, in document order. */
  function Collections(root: Element): seq<Element> {
    Select(Descendants(root), Name(AppNs, "collection"))
  }

  /** `Service._get_resource_url`: fetch the service document and scan its collections. */
  function ResourceUrl(svc: Service, pages: Pagination.Pages, resourceId: string): (r: (Result<Option<string>, Fault>, seq<Request>))
    ensures r.1 == [Get(svc.url)]
    ensures svc.url !in pages ==> r.0 == Failure(FetchFailed(svc.url))
    ensures svc.url in pages ==> r.0 == ScanCollections(Collections(pages[svc.url]), resourceId)
  {
    if svc.url !in pages then (Failure(FetchFailed(svc.url)), [Get(svc.url)])
    else (ScanCollections(Collections(pages[svc.url]), resourceId), [Get(svc.url)])
  }

  /** `Service.get_resource`: resolve the collection URL, fetch it, dispatch on its
      root. An unmatched id leaves no URL to fetch. */
  function GetResource(svc: Service, pages: Pagination.Pages, resourceId: string): (r: (Result<Option<Resource>, Fault>, seq<Request>))
    ensures |r.1| >= 1 && r.1[0] == Get(svc.url)
    ensures r.0.Success? ==>
      && |r.1| == 2 && r.1[1].Get? && r.1[1].url in pages
      && r.0 == ParseResource(pages[r.1[1].url])
      && ResourceUrl(svc, pages, resourceId).0 == Success(Some(r.1[1].url))
  {
    var (found, log) := ResourceUrl(svc, pages, resourceId);
    match found
    case Failure(f) => (Failure(f), log)
    case Success(None) => (Failure(NoUrl), log)
    case Success(Some(url)) =>
      if url !in pages then (Failure(FetchFailed(url)), log + [Get(url)])
      else (ParseResource(pages[url]), log + [Get(url)])
  }

  /** The scan stops at the first collection with the wanted id and returns its href. */
  lemma ScanFindsFirst(cs: seq<Element>, resourceId: string, i: nat)
    requires i < |cs| && IsFirstCollection(cs, resourceId, i) && "href" in cs[i].attrs
    ensures ScanCollections(cs, resourceId) == Success(Some(cs[i].attrs["href"]))
  {
  }

  /** A service document listing the wanted collection first under a served URL
      yields the resource dispatched from that document, after two GETs. */
  lemma GetResourceFollowsCollection(svc: Service, pages: Pagination.Pages, resourceId: string, i: nat)
    requires svc.url in pages
    requires var cs := Collections(pages[svc.url]);
      i < |cs| && IsFirstCollection(cs, resourceId, i) && "href" in cs[i].attrs && cs[i].attrs["href"] in pages
    ensures var href := Collections(pages[svc.url])[i].attrs["href"];
      GetResource(svc, pages, resourceId) == (ParseResource(pages[href]), [Get(svc.url), Get(href)])
  {
    var cs := Collections(pages[svc.url]);
    ScanFindsFirst(cs, resourceId, i);
    var href := cs[i].attrs["href"];
    assert [Get(svc.url)] + [Get(href)] == [Get(svc.url), Get(href)];
  }
}
