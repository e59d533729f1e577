# dm_yf protocol layer, modelled in Dafny

This project models the protocol layer of a client for the Yandex.Fotki photo
service (`src/dm_yf/protocol.py`). The service speaks AtomPub. A *service
document* lists named collections. A *resource* is a parsed Atom node whose
kind (album list, album or photo) is the fifth colon-separated segment of its
`id`. Collections are paginated through `next` links. Album lists and albums
keep a lazily loaded cache of their children, which `add` and `remove` update
in place.

The model is functional:

- XML is an abstract element tree (`Xml.Element`): a namespaced name,
  attributes, optional text and ordered children. `find`, `findall` and
  `.//` are given as functions over it.
- The transport is a page source `map<string, Element>`. A GET of a URL
  outside the map is a failed fetch. The document a POST answers with is a
  parameter. Every request an operation issues is recorded in a log
  (`Resources.Request`).
- Python exceptions are the `Faults.Fault` datatype. Each operation on a
  resource returns a `Resources.Step`: the resource's state afterwards, the
  value or the fault, and the request log. The state is kept on the fault path
  too, because the source mutates the cache before some of its exceptions.
- The `Service` registry is an explicit `Services.Registry` value. An
  instance counter stands in for object identity.

Modules: `Wrappers` (Option and Result), `Faults`, `Text` (`str.split`),
`Numbers` (`int()` of a string), `Xml`, `Resources` (kinds, dispatch, accessors,
title PUT, DELETE), `Pagination`, `Collections` (cache, `add`, `remove`) and
`Services`.

Behaviour worth noting:

- The child cache is one `Option<seq>` per resource. It is not keyed by
  relation: once it is loaded, any `rel` returns it.
- `add` appends to a loaded cache and `remove` deletes from it. Nothing
  invalidates the cache.
- An `id` with fewer than five segments raises IndexError. It does not give
  "no resource".
- An entry of unknown kind stays in a loaded list as `None`. A later
  `remove` scan that reaches it raises AttributeError (`NoneEntry`).
- A node without the `rel` link is loaded from the literal URL
  `Nonerpublished/`, because `'%s' % None` is `"None"`.
- `get_resource` with no matching collection hands `None` to the
  transport. This is modelled as the `NoUrl` fault; the HTTP client is not
  part of this model.
- Pagination follows `next` to the end.

## Model

| member | source | states |
|---|---|---|
| `Text.Split` | src/dm_yf/protocol.py:76 | `split(':')` always gives at least one piece, and no piece contains the separator |
| `Text.JoinSplit` | src/dm_yf/protocol.py:76 | joining the pieces of a split with the separator gives back the id text |
| `Text.SplitJoin` | src/dm_yf/protocol.py:76 | splitting a join of separator-free pieces gives back exactly those pieces, so "fifth segment" is well defined |
| `Text.SplitCount` | src/dm_yf/protocol.py:76-77 | a split has one more piece than the text has colons, so index 4 exists iff there are at least four colons |
| `Resources.ParseResource` | src/dm_yf/protocol.py:65-85 | a missing id gives `None`; an id without text raises; dispatch raises nothing but that and IndexError; a built resource wraps the given node with an unloaded cache |
| `Resources.DispatchSelectsKind` | src/dm_yf/protocol.py:65-85 | dispatch builds an album list, album or photo exactly when the id's fifth colon-separated segment is `albums`, `album` or `photo` |
| `Resources.DispatchUnknown` | src/dm_yf/protocol.py:71-85 | dispatch gives `None` exactly when the id is missing, or it has at least five segments and its fifth names no kind |
| `Resources.DispatchShortId` | src/dm_yf/protocol.py:76-77 | dispatch raises IndexError exactly when the id text has fewer than four colons |
| `Resources.LinkUrl` | src/dm_yf/protocol.py:51-62 | gives the href of the first atom `link` child whose `rel` matches; gives `None` iff no child matches; raises KeyError iff that first link has no href |
| `Resources.Title` | src/dm_yf/protocol.py:302-312 | the title of an album or photo is the text of its first atom `title` child; `None` iff there is no such child; that child without text raises (`TextMissing`); reading it on `None` or on an album list raises |
| `Resources.PhotoCount` | src/dm_yf/protocol.py:332-343 | gives `None` exactly when the album has no fotki `image-count` child |
| `Resources.PhotoCountReadsValue` | src/dm_yf/protocol.py:332-343 | a decimal `value` on the first `image-count` child is read back as that number |
| `Resources.Size` | src/dm_yf/protocol.py:450-461 | gives `None` exactly when no fotki `img` child has `size="orig"` |
| `Resources.SizeReadsBytesize` | src/dm_yf/protocol.py:450-461 | a decimal `bytesize` on the first original-size `img` child is read back as that number |
| `Resources.SetTitle` | src/dm_yf/protocol.py:421-430 | succeeds iff the `edit` link reads and is present and there is a title element; a successful set issues exactly one PUT, to the `edit` link, whose body is the whole edited node; an unreadable `edit` link, or no title element, leaves the photo unchanged and sends nothing; only a missing `edit` link keeps the in-memory edit |
| `Resources.SetTitleThenTitle` | src/dm_yf/protocol.py:410-430 | after the setter edits the node, the title getter returns the new title; the node is unchanged except for that title's text |
| `Resources.Destroy` | src/dm_yf/protocol.py:223-229 | succeeds iff the resource has a `self` link, and then issues exactly one DELETE, to that link |
| `Pagination.ParseEntries` | src/dm_yf/protocol.py:177-188 | gives one element per entry, in document order, each the dispatch of its entry, `None` included; fails with the first entry's dispatch fault |
| `Pagination.ReadPage` | src/dm_yf/protocol.py:190-199 | a page reads successfully iff its `next` link and all its entries do, and then gives the link and the entries |
| `Pagination.LoadResources` | src/dm_yf/protocol.py:201-211 | a node whose `rel` link raises loads nothing; otherwise a load succeeds exactly along a finished chain of pages starting at `<rel link>rpublished/` and within the bound, with one GET per page in chain order, returning the pages' entries in page order, then document order (both directions) |
| `Pagination.FirstRequestIsPublishedListing` | src/dm_yf/protocol.py:206-207 | the first GET is the `rel` link followed by `rpublished/`, or `Nonerpublished/` when there is no link |
| `Pagination.WalkFollowsChain` | src/dm_yf/protocol.py:207-211 | a successful load fetched a finished chain of pages, one GET each, stopping at the first page without `next`, and returned their items in page order, then document order |
| `Pagination.ChainIsWalked` | src/dm_yf/protocol.py:207-211 | every finished chain of served pages is loaded completely, in that order, with no request past its last page |
| `Pagination.FuelSuffices` | src/dm_yf/protocol.py:208-210 | a load that ended with a result other than `Diverges` gives the same result with any larger bound |
| `Pagination.CollectedLength` | src/dm_yf/protocol.py:183-188 | the loaded list has exactly as many elements as the pages have atom entries |
| `Pagination.LoadIsChainOfPages` | src/dm_yf/protocol.py:190-211 | a successful load from a URL returns the entries of the chain of pages starting there, one element per entry |
| `Collections.GetResources` | src/dm_yf/protocol.py:213-221 | a loaded cache is returned with no request and no change; an unloaded one yields exactly the load of the `rel` collection (its value and its requests), and is kept only if that load succeeds |
| `Collections.GetResourcesIsCached` | src/dm_yf/protocol.py:213-221 | after one successful call, a second call returns the same list with no request, whatever relation, pages or bound it is given |
| `Collections.AddAlbum` | src/dm_yf/protocol.py:260-272 | an unreadable or missing `self` link fails with no request; otherwise exactly one POST of an entry holding only the title to the `self` link, and the call succeeds iff the reply dispatches (else it fails with the dispatch fault, the POST already sent); on success a loaded cache gains the reply's resource at its end, old elements unchanged, and an unloaded cache stays unloaded |
| `Collections.AssignTitle` | src/dm_yf/protocol.py:366 | assigning `title` runs the photo setter on a photo; it raises on `None` and on an album, whose property has no setter; on an album list it sends nothing |
| `Collections.AddPhoto` | src/dm_yf/protocol.py:353-367 | an unreadable or missing `photos` link sends nothing; otherwise the first request POSTs the image there; a reply that does not dispatch fails after the POST alone; a `None` reply or an album is appended to a loaded cache and the title assignment raises; an album-list reply is appended and returned after the POST alone; a photo reply is retitled by the setter, and the retitled object is both returned and appended, after the POST and the setter's PUT |
| `Collections.AddPhotoPostsThenPuts` | src/dm_yf/protocol.py:353-367 | for a photo reply with an `edit` link and a title element: exactly a POST of the image to `photos` and a PUT of the reply node with its title replaced to the reply's `edit` link; the returned and appended photo reports the new title |
| `Collections.FindByTitle` | src/dm_yf/protocol.py:274-283 | gives the position of the first entry whose title equals the argument; `None` iff every title reads and none matches; a fault comes from the first entry whose title cannot be read |
| `Collections.Remove` | src/dm_yf/protocol.py:285-294 | kind and node never change, and after a successful remove the cache is loaded |
| `Collections.RemoveDestroysFirstMatch` | src/dm_yf/protocol.py:285-294 | with a first match at position i, remove issues exactly one DELETE, to that child's `self` link, and the cache becomes the list without position i |
| `Collections.RemoveWithoutMatch` | src/dm_yf/protocol.py:285-292 | with no match, nothing is deleted and the loaded list is cached unchanged |
| `Collections.RemoveDeletesAtMostOnce` | src/dm_yf/protocol.py:380-389 | remove never issues more than one DELETE |
| `Collections.GetResourcesDeletesNothing` | src/dm_yf/protocol.py:201-221 | loading children issues no DELETE |
| `Services.EmptyIsValid` | src/dm_yf/protocol.py:103 | the class-level registry starts with no entries, and it satisfies the registry invariant that `GetKeepsValid` preserves |
| `Services.GetService` | src/dm_yf/protocol.py:105-114 | the returned instance is registered under the URL; a registered URL leaves the registry as it is; only that URL is added; other entries are unchanged |
| `Services.GetKeepsValid` | src/dm_yf/protocol.py:105-114 | registering keeps each entry bound to its own URL and instances distinct, and the instance is for the requested URL |
| `Services.GetTwiceSameInstance` | src/dm_yf/protocol.py:112-114 | a second `get` of the same URL gives the same instance and changes nothing |
| `Services.DistinctUrlsDistinctInstances` | src/dm_yf/protocol.py:102-114 | distinct URLs get distinct instances, and a later `get` does not replace an earlier URL's instance |
| `Services.ScanCollections` | src/dm_yf/protocol.py:130-133 | gives the href of the first collection whose `id` matches; `None` iff every collection has another id; a missing `id` or `href` raises |
| `Services.ScanFindsFirst` | src/dm_yf/protocol.py:130-132 | the scan stops at the first collection with the wanted id and returns its href |
| `Services.ResourceUrl` | src/dm_yf/protocol.py:122-133 | fetches the service document once and scans its app `collection` descendants |
| `Services.GetResource` | src/dm_yf/protocol.py:135-153 | starts with a GET of the service URL; a result comes from dispatching the document at the resolved URL, after exactly two GETs |
| `Services.GetResourceFollowsCollection` | src/dm_yf/protocol.py:145-153 | when the wanted collection is found and served, the result is the dispatch of its document |
| `Numbers.ParseShowInt` | src/dm_yf/protocol.py:343 | `int()` of a printed integer gives that integer back |
| `Numbers.ParsePadded` | src/dm_yf/protocol.py:461 | any leading and any trailing whitespace around a printed integer does not change what `int()` reads |
| `Scenarios.AlbumEntryParses` | src/dm_yf/protocol.py:65-85 | an entry whose id is `urn:yandex:fotki:user:album:<n>` dispatches to an album wrapping that entry |
| `Scenarios.TwoPageAlbumList` | src/dm_yf/protocol.py:190-211 | an album list whose first page holds two albums and links to a second page holding one loads all three in order, with one GET of `<self>rpublished/` and one of the second page |

## Left out

- HTTP transport (`_get_document`, `_send_document`, `HttpClient`): GETs come from a page map. POST replies are parameters. PUT and DELETE always succeed when they have a URL. `dm_yf/http.py` is not part of this model. The content-type header choice is not modelled.
- XML parsing and serialisation (`fromstring`, `tostring`): documents are given as element trees. A PUT body is the element itself, not its serialised text.
- `PhotoResource.content`: it is a fresh network fetch with no model-side logic.
- `published`, `updated`, `_parse_datetime`: these wrap `datetime.strptime`, whose calendar checks are not visible.
- `PhotoResource.remote_id`: a plain text lookup not used by the core.
- UTF-8 `encode`/`decode` in the title accessors and in the new-album body: titles are opaque strings.
- Logging calls.
- `src/dm_yf/models.py`: it calls `get_resources`, `get_property` and `get_media`. None of these exist on the resource classes of `protocol.py`.
- Pagination.LoadPages: takes a page bound (`fuel`). Running out gives `Diverges` on a `next` cycle, where the source would loop forever, or on a chain longer than the bound, which the source would load. `ChainIsWalked` loads any finished chain within the bound; `FuelSuffices` shows a result other than `Diverges` does not change with more fuel.
- Object aliasing: resources are values. In the source, `_get_resources` hands out the cached list itself and the title setter edits the cached object's node in place, so retitling a child taken from `album.photos` changes what a later `remove` of the parent sees. In the model a retitled child is a new value and the parent's cache keeps the old one; only `AddPhoto` writes its retitled photo into the cache.
- Numbers.ParseInt: reads only whitespace, an optional sign and ASCII digits. Python 2's `int()` accepts some further spellings (such as whitespace between sign and digits), which it does not model.
- Collections.AssignTitle: on an album list it sets a plain instance attribute. The model does not keep that attribute, so a later `title` read on that object still raises.
- POST failures at the transport are not modelled: the reply is always a document.
