/** Resources: typed wrappers over parsed Atom nodes, the kind dispatch that builds
    them, their attribute accessors, and the two single-resource writes (title PUT
    and DELETE). Requests are recorded rather than performed. */
module Resources {
  import opened Wrappers
  import opened Faults
  import opened Xml
  import Text
  import Numbers

  /** The three resource classes: AlbumListResource, AlbumResource, PhotoResource. */
  datatype Kind = AlbumList | Album | Photo

  /** The id segment that names each kind. */
  function TagOf(k: Kind): string {
    match k
    case AlbumList => "albums"
    case Album => "album"
    case Photo => "photo"
  }

  function KindOfTag(tag: string): (k: Option<Kind>)
    ensures k.Some? <==> tag in {"albums", "album", "photo"}
    ensures k.Some? ==> TagOf(k.value) == tag
  {
    if tag == "albums" then Some(AlbumList)
    else if tag == "album" then Some(Album)
    else if tag == "photo" then Some(Photo)
    else None
  }

  /** A resource: its kind, its node, and the lazily loaded list of child
      resources (`None` until loaded; entries of unknown kind are `None`).
      Resources are values: editing a child taken from a cache does not reach
      the copy the cache holds. */
  datatype Resource = Resource(kind: Kind, node: Element, cache: Option<seq<Option<Resource>>>)

  /** A request handed to the HTTP transport. */
  datatype Request =
    | Get(url: string)
    | Post(url: string, body: Body)
    | Put(url: string, doc: Element)
    | Delete(url: string)

  /** A POST body: an Atom entry document or raw image bytes. */
  datatype Body = Entry(doc: Element) | Image(data: string)

  /** What an operation on a resource leaves behind: the resource's new state,
      the value or the exception raised, and the requests issued on the way. */
  datatype Step<T> = Step(self: Resource, value: Result<T, Fault>, log: seq<Request>)

  /** The href of the first atom `link` child whose `rel` is `rel`; `None` when
      there is no such link; KeyError when that link has no href. */
  function LinkUrl(node: Element, rel: string): (r: Result<Option<string>, Fault>)
    ensures r == Success(None) <==>
      forall j :: 0 <= j < |node.children| ==> !Matches(node.children[j], Atom("link"), AttrIs("rel", rel))
    ensures r.Success? && r.value.Some? ==>
      exists j :: 0 <= j < |node.children| && IsFirstLink(node, rel, j) &&
        "href" in node.children[j].attrs && node.children[j].attrs["href"] == r.value.value
    ensures r.Failure? ==> r.error == KeyError("href")
    ensures r.Failure? ==>
      exists j :: 0 <= j < |node.children| && IsFirstLink(node, rel, j) && "href" !in node.children[j].attrs
  {
    match FirstMatch(node.children, Atom("link"), AttrIs("rel", rel))
    case None => Success(None)
    case Some(i) =>
      var href :- Attr(node.children[i], "href");
      Success(Some(href))
  }

  /** Child `j` is the first atom link with relation `rel`. */
  predicate IsFirstLink(node: Element, rel: string, j: nat)
    requires j < |node.children|
  {
    && Matches(node.children[j], Atom("link"), AttrIs("rel", rel))
    && forall i :: 0 <= i < j ==> !Matches(node.children[i], Atom("link"), AttrIs("rel", rel))
  }

  /** The atom `id` child of a node, if any. */
  function IdNode(node: Element): Option<Element> {
    Find(node, Atom("id"), AnyAttrs)
  }

  /** `_parse_resource`: build the resource named by the fifth segment of the id. */
  function ParseResource(node: Element): (r: Result<Option<Resource>, Fault>)
    ensures r.Success? && r.value.Some? ==> r.value.value.node == node && r.value.value.cache.None?
    ensures IdNode(node).None? ==> r == Success(None)
    ensures r == Failure(TextMissing) <==> IdNode(node).Some? && IdNode(node).value.text.None?
    ensures r.Failure? ==> r.error in {TextMissing, IndexError}
  {
    match IdNode(node)
    case None => Success(None)
    case Some(id) =>
      if id.text.None? then Failure(TextMissing)
      else
        var parts := Text.Split(id.text.value, ':');
        if |parts| < 5 then Failure(IndexError)
        else match KindOfTag(parts[4])
          case None => Success(None)
          case Some(k) => Success(Some(Resource(k, node, None)))
  }

  /** The node's id text exists and its fifth segment names kind `k`. */
  ghost predicate IdNamesKind(node: Element, k: Kind) {
    var id := IdNode(node);
    id.Some? && id.value.text.Some? && Text.FifthSegmentIs(id.value.text.value, TagOf(k))
  }

  lemma FewSegments(text: string, tag: string)
    requires |Text.Split(text, ':')| < 5
    ensures !Text.FifthSegmentIs(text, tag)
  {
    if Text.FifthSegmentIs(text, tag) {
      var ps: seq<string> :| |ps| >= 5 && Text.NoSeparator(ps, ':') && Text.Join(ps, ':') == text && ps[4] == tag;
      Text.SplitJoin(ps, ':');
      assert false;
    }
  }

  /** Dispatch yields a resource of kind `k` exactly when the fifth segment of the id names `k`. */
  lemma DispatchSelectsKind(node: Element, k: Kind)
    ensures ParseResource(node) == Success(Some(Resource(k, node, None))) <==> IdNamesKind(node, k)
  {
    var id := IdNode(node);
    if id.Some? && id.value.text.Some? {
      var text := id.value.text.value;
      if |Text.Split(text, ':')| >= 5 {
        Text.FifthSegmentOfSplit(text, TagOf(k));
      } else {
        FewSegments(text, TagOf(k));
      }
    }
  }

  /** Dispatch yields `None` exactly when there is no id, or the id has at least five
      segments and its fifth names none of the three kinds. */
  lemma DispatchUnknown(node: Element)
    ensures ParseResource(node) == Success(None) <==>
      (var id := IdNode(node);
       id.None? ||
       (id.value.text.Some? && Text.Count(id.value.text.value, ':') >= 4 &&
        forall k: Kind :: !Text.FifthSegmentIs(id.value.text.value, TagOf(k))))
  {
    var id := IdNode(node);
    if id.Some? && id.value.text.Some? {
      var text := id.value.text.value;
      Text.SplitCount(text, ':');
      if |Text.Split(text, ':')| >= 5 {
        forall k: Kind ensures Text.FifthSegmentIs(text, TagOf(k)) <==> Text.Split(text, ':')[4] == TagOf(k) {
          Text.FifthSegmentOfSplit(text, TagOf(k));
        }
        var tag := Text.Split(text, ':')[4];
        if KindOfTag(tag).Some? {
          assert Text.FifthSegmentIs(text, TagOf(KindOfTag(tag).value));
        }
      }
    }
  }

  /** Dispatch raises IndexError exactly when the id text has fewer than four colons. */
  lemma DispatchShortId(node: Element)
    ensures ParseResource(node) == Failure(IndexError) <==>
      (var id := IdNode(node); id.Some? && id.value.text.Some? && Text.Count(id.value.text.value, ':') < 4)
  {
    var id := IdNode(node);
    if id.Some? && id.value.text.Some? {
      Text.SplitCount(id.value.text.value, ':');
    }
  }

  /** The `title` attribute of a collection entry: read from the first atom
      `title` child on albums and photos, `None` when that child is missing. */
  function Title(r: Option<Resource>): (t: Result<Option<string>, Fault>)
    ensures r.None? ==> t == Failure(NoneEntry)
    ensures r.Some? && r.value.kind == AlbumList ==> t == Failure(NoTitleAttribute)
    ensures r.Some? && r.value.kind != AlbumList ==>
      (t == Success(None) <==> Find(r.value.node, Atom("title"), AnyAttrs).None?)
    ensures t.Success? && t.value.Some? ==>
      r.Some? && Find(r.value.node, Atom("title"), AnyAttrs).Some? &&
      Find(r.value.node, Atom("title"), AnyAttrs).value.text == t.value
    ensures r.Some? && r.value.kind != AlbumList && Find(r.value.node, Atom("title"), AnyAttrs).Some? ==>
      (var e := Find(r.value.node, Atom("title"), AnyAttrs).value;
       t == if e.text.None? then Failure(TextMissing) else Success(e.text))
  {
    match r
    case None => Failure(NoneEntry)
    case Some(res) =>
      if res.kind == AlbumList then Failure(NoTitleAttribute)
      else match Find(res.node, Atom("title"), AnyAttrs)
        case None => Success(None)
        case Some(e) => if e.text.None? then Failure(TextMissing) else Success(Some(e.text.value))
  }

  /** `AlbumResource.photo_count`: the integer `value` of the first fotki `image-count` child. */
  function PhotoCount(album: Resource): (r: Result<Option<int>, Fault>)
    requires album.kind == Album
    ensures r == Success(None) <==> Find(album.node, Name(FotkiNs, "image-count"), AnyAttrs).None?
  {
    match Find(album.node, Name(FotkiNs, "image-count"), AnyAttrs)
    case None => Success(None)
    case Some(e) =>
      var value :- Attr(e, "value");
      var n :- Numbers.ParseInt(value);
      Success(Some(n))
  }

  /** `PhotoResource.size`: the integer `bytesize` of the first fotki `img` child whose `size` is `orig`. */
  function Size(photo: Resource): (r: Result<Option<int>, Fault>)
    requires photo.kind == Photo
    ensures r == Success(None) <==> Find(photo.node, Name(FotkiNs, "img"), AttrIs("size", "orig")).None?
  {
    match Find(photo.node, Name(FotkiNs, "img"), AttrIs("size", "orig"))
    case None => Success(None)
    case Some(e) =>
      var value :- Attr(e, "bytesize");
      var n :- Numbers.ParseInt(value);
      Success(Some(n))
  }

  /** An image count written as a decimal attribute is read back as that number. */
  lemma PhotoCountReadsValue(album: Resource, n: int)
    requires album.kind == Album
    requires var e := Find(album.node, Name(FotkiNs, "image-count"), AnyAttrs);
      e.Some? && "value" in e.value.attrs && e.value.attrs["value"] == Numbers.ShowInt(n)
    ensures PhotoCount(album) == Success(Some(n))
  {
    Numbers.ParseShowInt(n);
  }

  /** The original byte size written as a decimal attribute is read back as that number. */
  lemma SizeReadsBytesize(photo: Resource, n: int)
    requires photo.kind == Photo
    requires var e := Find(photo.node, Name(FotkiNs, "img"), AttrIs("size", "orig"));
      e.Some? && "bytesize" in e.value.attrs && e.value.attrs["bytesize"] == Numbers.ShowInt(n)
    ensures Size(photo) == Success(Some(n))
  {
    Numbers.ParseShowInt(n);
  }

  /** The `PhotoResource.title` setter: write `t` into the first atom `title`
      child, then PUT the whole node to the `edit` link. The in-memory edit
      survives even when the PUT cannot be sent. */
  function SetTitle(photo: Resource, t: string): (s: Step<()>)
    requires photo.kind == Photo
    ensures s.self.kind == photo.kind && s.self.cache == photo.cache
    ensures s.value.Success? ==>
      && LinkUrl(photo.node, "edit").Success? && LinkUrl(photo.node, "edit").value.Some?
      && s.log == [Put(LinkUrl(photo.node, "edit").value.value, s.self.node)]
    ensures s.value == Failure(TitleNodeMissing) ==> s.self == photo && s.log == []
    ensures s.value.Failure? ==> s.log == []
    ensures s.value.Failure? && s.value != Failure(NoUrl) ==> s.self == photo
    ensures LinkUrl(photo.node, "edit").Failure? ==> s == Step(photo, Failure(LinkUrl(photo.node, "edit").error), [])
    ensures LinkUrl(photo.node, "edit").Success? && Find(photo.node, Atom("title"), AnyAttrs).None? ==>
      s == Step(photo, Failure(TitleNodeMissing), [])
    ensures s.value.Success? <==>
      && LinkUrl(photo.node, "edit").Success? && LinkUrl(photo.node, "edit").value.Some?
      && Find(photo.node, Atom("title"), AnyAttrs).Some?
  {
    match LinkUrl(photo.node, "edit")
    case Failure(f) => Step(photo, Failure(f), [])
    case Success(url) =>
      match FirstMatch(photo.node.children, Atom("title"), AnyAttrs)
      case None => Step(photo, Failure(TitleNodeMissing), [])
      case Some(i) =>
        var edited := photo.(node := WithChildText(photo.node, i, t));
        if url.None? then Step(edited, Failure(NoUrl), [])
        else Step(edited, Success(()), [Put(url.value, edited.node)])
  }

  /** After the setter has edited the node, the title getter returns the new
      title, and the node differs from the old one only in that title's text. */
  lemma SetTitleThenTitle(photo: Resource, t: string)
    requires photo.kind == Photo
    requires LinkUrl(photo.node, "edit").Success?
    requires Find(photo.node, Atom("title"), AnyAttrs).Some?
    ensures var s := SetTitle(photo, t);
      && Title(Some(s.self)) == Success(Some(t))
      && s.self.node.name == photo.node.name && s.self.node.attrs == photo.node.attrs
      && s.self.node.text == photo.node.text
      && |s.self.node.children| == |photo.node.children|
      && exists i :: 0 <= i < |photo.node.children| &&
           Matches(photo.node.children[i], Atom("title"), AnyAttrs) &&
           s.self.node.children[i] == photo.node.children[i].(text := Some(t)) &&
           forall j :: 0 <= j < |photo.node.children| && j != i ==> s.self.node.children[j] == photo.node.children[j]
  {
  }

  /** `destroy`: DELETE the resource's `self` link. */
  function Destroy(r: Resource): (s: Step<()>)
    ensures s.self == r
    ensures s.value.Success? <==> LinkUrl(r.node, "self").Success? && LinkUrl(r.node, "self").value.Some?
    ensures s.value.Success? ==> s.log == [Delete(LinkUrl(r.node, "self").value.value)]
    ensures s.value.Failure? ==> s.log == []
  {
    match LinkUrl(r.node, "self")
    case Failure(f) => Step(r, Failure(f), [])
    case Success(None) => Step(r, Failure(NoUrl), [])
    case Success(Some(url)) => Step(r, Success(()), [Delete(url)])
  }
}
