/** The child-resource cache of a resource and the operations that maintain it:
    lazy loading, `add` on album lists and albums, and `remove` by title. */
module Collections {
  import opened Wrappers
  import opened Faults
  import opened Xml
  import opened Resources
  import opened Pagination

  /** `_get_resources(rel)`: the cached list when there is one; otherwise load
      the collection named by `rel` and keep it. One cache per resource,
      whatever `rel` is. */
  function GetResources(res: Resource, rel: string, pages: Pages, fuel: nat): (s: Step<seq<Option<Resource>>>)
    ensures res.cache.Some? ==> s == Step(res, Success(res.cache.value), [])
    ensures res.cache.None? ==>
      && Load(s.value, s.log) == LoadResources(res.node, rel, pages, fuel)
      && s.self == (if s.value.Success? then res.(cache := Some(s.value.value)) else res)
  {
    if res.cache.Some? then Step(res, Success(res.cache.value), [])
    else
      var load := LoadResources(res.node, rel, pages, fuel);
      match load.items
      case Failure(f) => Step(res, Failure(f), load.log)
      case Success(items) => Step(res.(cache := Some(items)), Success(items), load.log)
  }

  /** A second call returns the same list, issues no request and changes nothing,
      whichever relation either call names. */
  lemma GetResourcesIsCached(res: Resource, rel: string, rel': string, pages: Pages, pages': Pages, fuel: nat, fuel': nat)
    requires GetResources(res, rel, pages, fuel).value.Success?
    ensures var first := GetResources(res, rel, pages, fuel);
      GetResources(first.self, rel', pages', fuel') == Step(first.self, first.value, [])
  {
  }

  /** The entry body `AlbumListResource._get_new_album_body` builds: an `entry`
      element with the Atom default namespace and a single `title` child. */
  function NewAlbumBody(title: string): Element {
    Element(Name("", "entry"), map["xmlns" := AtomNs], None, [Element(Name("", "title"), map[], Some(title), [])])
  }

  /** Append a new child to a loaded cache; an unloaded cache stays unloaded. */
  function Appended(cache: Option<seq<Option<Resource>>>, r: Option<Resource>): (c: Option<seq<Option<Resource>>>)
    ensures c.Some? <==> cache.Some?
    ensures c.Some? ==> |c.value| == |cache.value| + 1 && c.value[..|cache.value|] == cache.value
    ensures c.Some? ==> c.value[|cache.value|] == r
  {
    match cache
    case None => None
    case Some(xs) => Some(xs + [r])
  }

  /** `AlbumListResource.add(title)`: POST a new entry to the `self` link and
      record the server's reply in a loaded cache. `reply` is the document the
      server answers with. */
  function AddAlbum(list: Resource, title: string, reply: Element): (s: Step<Option<Resource>>)
    requires list.kind == AlbumList
    ensures s.self.kind == list.kind && s.self.node == list.node
    ensures s.value.Success? ==>
      && ParseResource(reply) == Success(s.value.value)
      && LinkUrl(list.node, "self").Success? && LinkUrl(list.node, "self").value.Some?
      && s.log == [Post(LinkUrl(list.node, "self").value.value, Entry(NewAlbumBody(title)))]
      && (list.cache.None? ==> s.self.cache.None?)
      && (list.cache.Some? ==> s.self.cache == Some(list.cache.value + [s.value.value]))
    ensures s.value.Failure? ==> s.self == list
    ensures LinkUrl(list.node, "self").Failure? ==> s == Step(list, Failure(LinkUrl(list.node, "self").error), [])
    ensures LinkUrl(list.node, "self") == Success(None) ==> s == Step(list, Failure(NoUrl), [])
    ensures LinkUrl(list.node, "self").Success? && LinkUrl(list.node, "self").value.Some? ==>
      && s.log == [Post(LinkUrl(list.node, "self").value.value, Entry(NewAlbumBody(title)))]
      && (s.value.Success? <==> ParseResource(reply).Success?)
      && (ParseResource(reply).Failure? ==> s.value == Failure(ParseResource(reply).error))
  {
    match LinkUrl(list.node, "self")
    case Failure(f) => Step(list, Failure(f), [])
    case Success(None) => Step(list, Failure(NoUrl), [])
    case Success(Some(url)) =>
      var log := [Post(url, Entry(NewAlbumBody(title)))];
      match ParseResource(reply)
      case Failure(f) => Step(list, Failure(f), log)
      case Success(r) => Step(list.(cache := Appended(list.cache, r)), Success(r), log)
  }

  /** `resource.title = title` on whatever the upload's reply parsed to: the
      photo setter for a photo, an AttributeError for `None` and for an album
      (read-only property), a plain attribute with no request for an album list.
      The first component is the object's state afterwards. */
  function AssignTitle(r: Option<Resource>, title: string): (a: (Option<Resource>, Result<(), Fault>, seq<Request>))
    ensures a.0.Some? <==> r.Some?
    ensures r.Some? && r.value.kind == Photo ==>
      (var s := SetTitle(r.value, title); a == (Some(s.self), s.value, s.log))
    ensures r.None? ==> a == (r, Failure(NoneEntry), [])
    ensures r.Some? && r.value.kind == Album ==> a == (r, Failure(ReadOnlyTitle), [])
    ensures r.Some? && r.value.kind == AlbumList ==> a == (r, Success(()), [])
  {
    match r
    case None => (r, Failure(NoneEntry), [])
    case Some(res) =>
      match res.kind
      case AlbumList => (r, Success(()), [])
      case Album => (r, Failure(ReadOnlyTitle), [])
      case Photo =>
        var s := SetTitle(res, title);
        (Some(s.self), s.value, s.log)
  }

  /** `AlbumResource.add(title, image)`: POST the image to the `photos` link,
      record the reply in a loaded cache, then set its title with a second
      request. The cache holds the very object whose title is then set, so the
      cached element reflects the title edit. */
  function AddPhoto(album: Resource, title: string, image: string, reply: Element): (s: Step<Option<Resource>>)
    requires album.kind == Album
    ensures s.self.kind == album.kind && s.self.node == album.node
    ensures s.value.Success? ==>
      && LinkUrl(album.node, "photos").Success? && LinkUrl(album.node, "photos").value.Some?
      && |s.log| >= 1 && s.log[0] == Post(LinkUrl(album.node, "photos").value.value, Image(image))
      && (album.cache.None? ==> s.self.cache.None?)
      && (album.cache.Some? ==> s.self.cache == Some(album.cache.value + [s.value.value]))
    ensures s.value.Success? && s.value.value.Some? && s.value.value.value.kind == Photo ==>
      Title(s.value.value) == Success(Some(title))
    ensures LinkUrl(album.node, "photos").Failure? ==> s == Step(album, Failure(LinkUrl(album.node, "photos").error), [])
    ensures LinkUrl(album.node, "photos") == Success(None) ==> s == Step(album, Failure(NoUrl), [])
    ensures LinkUrl(album.node, "photos").Success? && LinkUrl(album.node, "photos").value.Some? ==>
      (var post := Post(LinkUrl(album.node, "photos").value.value, Image(image));
       && |s.log| >= 1 && s.log[0] == post
       && (ParseResource(reply).Failure? ==> s == Step(album, Failure(ParseResource(reply).error), [post]))
       && (ParseResource(reply) == Success(None) ==>
             s == Step(album.(cache := Appended(album.cache, None)), Failure(NoneEntry), [post]))
       && (ParseResource(reply).Success? && ParseResource(reply).value.Some? ==>
             (var p := ParseResource(reply).value.value;
              && (p.kind == Album ==>
                    s == Step(album.(cache := Appended(album.cache, Some(p))), Failure(ReadOnlyTitle), [post]))
              && (p.kind == AlbumList ==>
                    s == Step(album.(cache := Appended(album.cache, Some(p))), Success(Some(p)), [post]))
              && (p.kind == Photo ==>
                    (var st := SetTitle(p, title);
                     && s.self == album.(cache := Appended(album.cache, Some(st.self)))
                     && s.log == [post] + st.log
                     && s.value == if st.value.Success? then Success(Some(st.self)) else Failure(st.value.error))))))
  {
    match LinkUrl(album.node, "photos")
    case Failure(f) => Step(album, Failure(f), [])
    case Success(None) => Step(album, Failure(NoUrl), [])
    case Success(Some(url)) =>
      var post := [Post(url, Image(image))];
      match ParseResource(reply)
      case Failure(f) => Step(album, Failure(f), post)
      case Success(r) =>
        var (r', outcome, put) := AssignTitle(r, title);
        var self := album.(cache := Appended(album.cache, r'));
        if outcome.Failure? then Step(self, Failure(outcome.error), post + put)
        else
          PhotoTitleIsSet(r, title);
          Step(self, Success(r'), post + put)
  }

  /** A photo whose title assignment succeeded reports the assigned title. */
  lemma PhotoTitleIsSet(r: Option<Resource>, title: string)
    requires AssignTitle(r, title).1.Success?
    ensures AssignTitle(r, title).0.Some? && AssignTitle(r, title).0.value.kind == Photo ==>
      Title(AssignTitle(r, title).0) == Success(Some(title))
  {
  }

  /** Uploading an image whose reply is a photo with an `edit` link and a title
      element sends exactly two requests: the POST of the image, then a PUT of
      the retitled node to the photo's `edit` link. The returned photo, which a
      loaded cache also gains, reports the new title. */
  lemma AddPhotoPostsThenPuts(album: Resource, title: string, image: string, reply: Element)
    requires album.kind == Album
    requires LinkUrl(album.node, "photos").Success? && LinkUrl(album.node, "photos").value.Some?
    requires ParseResource(reply).Success? && ParseResource(reply).value.Some?
    requires ParseResource(reply).value.value.kind == Photo
    requires var p := ParseResource(reply).value.value;
      LinkUrl(p.node, "edit").Success? && LinkUrl(p.node, "edit").value.Some? &&
      Find(p.node, Atom("title"), AnyAttrs).Some?
    ensures var p := ParseResource(reply).value.value;
      var renamed := SetTitle(p, title).self;
      var s := AddPhoto(album, title, image, reply);
      && renamed.node == WithChildText(reply, FirstMatch(reply.children, Atom("title"), AnyAttrs).value, title)
      && s.value == Success(Some(renamed))
      && s.log == [Post(LinkUrl(album.node, "photos").value.value, Image(image)),
                   Put(LinkUrl(reply, "edit").value.value, renamed.node)]
      && s.self == album.(cache := Appended(album.cache, Some(renamed)))
      && Title(Some(renamed)) == Success(Some(title))
  {
    var p := ParseResource(reply).value.value;
    SetTitleThenTitle(p, title);
  }

  /** `_get_album_resource` / `_get_photo_resource`: the position of the first
      entry whose title equals `title`; reading an entry's title may raise. */
  function FindByTitle(xs: seq<Option<Resource>>, title: string): (r: Result<Option<nat>, Fault>)
    ensures r.Success? && r.value.Some? ==>
      && r.value.value < |xs|
      && Title(xs[r.value.value]) == Success(Some(title))
      && forall j :: 0 <= j < r.value.value ==> NoMatch(xs[j], title)
    ensures r == Success(None) <==> forall j :: 0 <= j < |xs| ==> NoMatch(xs[j], title)
    ensures r.Failure? ==>
      exists i :: 0 <= i < |xs| && Title(xs[i]) == Failure(r.error) &&
        forall j :: 0 <= j < i ==> NoMatch(xs[j], title)
  {
    if |xs| == 0 then Success(None)
    else
      var t :- Title(xs[0]);
      if t == Some(title) then Success(Some(0))
      else match FindByTitle(xs[1..], title)
        case Failure(f) =>
          assert forall j :: 0 <= j < |xs| - 1 ==> xs[1..][j] == xs[j + 1];
          Failure(f)
        case Success(None) => Success(None)
        case Success(Some(i)) => Success(Some(i + 1))
  }

  /** Reading the entry's title succeeds and does not give `title`. */
  predicate NoMatch(x: Option<Resource>, title: string) {
    Title(x).Success? && Title(x).value != Some(title)
  }

  /** The relation each collection class loads its children under. */
  function ChildRel(k: Kind): string
    requires k != Photo
  {
    if k == AlbumList then "self" else "photos"
  }

  /** Number of DELETE requests in a log. */
  function Deletes(log: seq<Request>): nat {
    if |log| == 0 then 0 else (if log[0].Delete? then 1 else 0) + Deletes(log[1..])
  }

  lemma {:induction false} DeletesOfConcat(a: seq<Request>, b: seq<Request>)
    ensures Deletes(a + b) == Deletes(a) + Deletes(b)
    decreases |a|
  {
    if |a| > 0 {
      assert (a + b)[1..] == a[1..] + b;
      DeletesOfConcat(a[1..], b);
    } else {
      assert a + b == b;
    }
  }

  lemma {:induction false} WalkDeletesNothing<T>(views: map<string, PageView<T>>, url: string, fuel: nat)
    ensures Deletes(Walk(views, url, fuel).log) == 0
    decreases fuel
  {
    if fuel > 0 && url in views && views[url].Success? && views[url].value.0.Some? {
      var next := views[url].value.0.value;
      WalkDeletesNothing(views, next, fuel - 1);
      DeletesOfConcat([Get(url)], Walk(views, next, fuel - 1).log);
    }
  }

  /** `remove(title)` on an album list or an album: load the children if need
      be, destroy the first one titled `title`, and drop exactly that element
      from the cache. With no match nothing is destroyed. */
  function Remove(res: Resource, title: string, pages: Pages, fuel: nat): (s: Step<()>)
    requires res.kind != Photo
    ensures s.self.kind == res.kind && s.self.node == res.node
    ensures s.value.Success? ==> s.self.cache.Some?
  {
    var got := GetResources(res, ChildRel(res.kind), pages, fuel);
    match got.value
    case Failure(f) => Step(got.self, Failure(f), got.log)
    case Success(xs) =>
      match FindByTitle(xs, title)
      case Failure(f) => Step(got.self, Failure(f), got.log)
      case Success(None) => Step(got.self, Success(()), got.log)
      case Success(Some(i)) =>
        var d := Destroy(xs[i].value);
        if d.value.Failure? then Step(got.self, d.value, got.log + d.log)
        else Step(got.self.(cache := Some(xs[..i] + xs[i + 1..])), Success(()), got.log + d.log)
  }

  /** Loading children never deletes anything. */
  lemma GetResourcesDeletesNothing(res: Resource, rel: string, pages: Pages, fuel: nat)
    ensures Deletes(GetResources(res, rel, pages, fuel).log) == 0
  {
    if res.cache.None? && FirstPageUrl(res.node, rel).Success? {
      WalkDeletesNothing(View(pages), FirstPageUrl(res.node, rel).value, fuel);
    }
  }

  /** When the first child titled `title` is at position `i`, `remove` issues
      exactly one DELETE, to that child's `self` link, after loading, and the
      cache is the loaded list without position `i`. */
  lemma RemoveDestroysFirstMatch(res: Resource, title: string, pages: Pages, fuel: nat,
                                 xs: seq<Option<Resource>>, i: nat, url: string)
    requires res.kind != Photo
    requires GetResources(res, ChildRel(res.kind), pages, fuel).value == Success(xs)
    requires i < |xs| && Title(xs[i]) == Success(Some(title))
    requires forall j :: 0 <= j < i ==> NoMatch(xs[j], title)
    requires xs[i].Some? && LinkUrl(xs[i].value.node, "self") == Success(Some(url))
    ensures var s := Remove(res, title, pages, fuel);
      && s.value == Success(())
      && s.self == res.(cache := Some(xs[..i] + xs[i + 1..]))
      && s.log == GetResources(res, ChildRel(res.kind), pages, fuel).log + [Delete(url)]
      && Deletes(s.log) == 1
  {
    var got := GetResources(res, ChildRel(res.kind), pages, fuel);
    var r := FindByTitle(xs, title);
    assert r == Success(Some(i));
    GetResourcesDeletesNothing(res, ChildRel(res.kind), pages, fuel);
    DeletesOfConcat(got.log, [Delete(url)]);
  }

  /** When no child is titled `title`, `remove` destroys nothing and leaves the
      loaded list as it is, now cached. */
  lemma RemoveWithoutMatch(res: Resource, title: string, pages: Pages, fuel: nat, xs: seq<Option<Resource>>)
    requires res.kind != Photo
    requires GetResources(res, ChildRel(res.kind), pages, fuel).value == Success(xs)
    requires forall j :: 0 <= j < |xs| ==> NoMatch(xs[j], title)
    ensures var s := Remove(res, title, pages, fuel);
      && s.value == Success(())
      && s.self == res.(cache := Some(xs))
      && Deletes(s.log) == 0
  {
    GetResourcesDeletesNothing(res, ChildRel(res.kind), pages, fuel);
  }

  /** `remove` never issues more than one DELETE. */
  lemma RemoveDeletesAtMostOnce(res: Resource, title: string, pages: Pages, fuel: nat)
    requires res.kind != Photo
    ensures Deletes(Remove(res, title, pages, fuel).log) <= 1
  {
    var got := GetResources(res, ChildRel(res.kind), pages, fuel);
    GetResourcesDeletesNothing(res, ChildRel(res.kind), pages, fuel);
    if got.value.Success? {
      var xs := got.value.value;
      var r := FindByTitle(xs, title);
      if r.Success? && r.value.Some? {
        var d := Destroy(xs[r.value.value].value);
        DeletesOfConcat(got.log, d.log);
      }
    }
  }
}
