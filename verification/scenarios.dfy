/** Worked instances of the general properties on small documents. */
module Scenarios {
  import opened Wrappers
  import opened Xml
  import opened Resources
  import opened Pagination
  import opened Collections

  function Link(rel: string, href: string): Element {
    Element(Atom("link"), map["rel" := rel, "href" := href], None, [])
  }

  function Id(text: string): Element {
    Element(Atom("id"), map[], Some(text), [])
  }

  function TitleElement(t: string): Element {
    Element(Atom("title"), map[], Some(t), [])
  }

  /** An album entry with the given title and number. */
  function AlbumEntry(n: string, t: string): Element {
    Element(Atom("entry"), map[], None, [Id("urn:yandex:fotki:user:album:" + n), TitleElement(t), Link("self", "http://a/" + n)])
  }

  function AlbumOf(n: string, t: string): Option<Resource> {
    Some(Resource(Album, AlbumEntry(n, t), None))
  }

  lemma JoinCons(a: string, rest: seq<string>)
    requires |rest| >= 1
    ensures Text.Join([a] + rest, ':') == a + ":" + Text.Join(rest, ':')
  {
    assert ([a] + rest)[1..] == rest;
  }

  /** The album ids used here split into six segments, the fifth being `album`. */
  lemma AlbumIdSplits(n: string)
    requires ':' !in n
    ensures Text.Split("urn:yandex:fotki:user:album:" + n, ':') == ["urn", "yandex", "fotki", "user", "album", n]
  {
    var parts := ["urn", "yandex", "fotki", "user", "album", n];
    JoinCons("album", [n]);
    JoinCons("user", ["album", n]);
    JoinCons("fotki", ["user", "album", n]);
    JoinCons("yandex", ["fotki", "user", "album", n]);
    JoinCons("urn", ["yandex", "fotki", "user", "album", n]);
    assert ["urn"] + ["yandex", "fotki", "user", "album", n] == parts;
    assert "urn" + ":" + ("yandex" + ":" + ("fotki" + ":" + ("user" + ":" + ("album" + ":" + n)))) == "urn:yandex:fotki:user:album:" + n;
    assert Text.NoSeparator(parts, ':');
    Text.SplitJoin(parts, ':');
  }

  lemma AlbumEntryParses(n: string, t: string)
    requires ':' !in n
    ensures ParseResource(AlbumEntry(n, t)) == Success(AlbumOf(n, t))
  {
    AlbumIdSplits(n);
    assert IdNode(AlbumEntry(n, t)) == Some(Id("urn:yandex:fotki:user:album:" + n));
  }

  function PageOne(a: string, b: string): Element {
    Element(Atom("feed"), map[], None, [AlbumEntry(a, "A1"), AlbumEntry(b, "A2"), Link("next", "http://l/p2")])
  }

  function PageTwo(c: string): Element {
    Element(Atom("feed"), map[], None, [AlbumEntry(c, "A3")])
  }

  lemma PageOneReads(a: string, b: string)
    requires ':' !in a && ':' !in b
    ensures ReadPage(PageOne(a, b)) == Success((Some("http://l/p2"), [AlbumOf(a, "A1"), AlbumOf(b, "A2")]))
  {
    var e1, e2, l := AlbumEntry(a, "A1"), AlbumEntry(b, "A2"), Link("next", "http://l/p2");
    var cs := [e1, e2, l];
    assert cs[1..] == [e2, l] && [e2, l][1..] == [l] && [l][1..] == [];
    assert Select([l], Atom("entry")) == [];
    assert Select([e2, l], Atom("entry")) == [e2];
    assert FindAll(PageOne(a, b), Atom("entry")) == [e1, e2];
    AlbumEntryParses(a, "A1");
    AlbumEntryParses(b, "A2");
    ParseEntriesExactly([e1, e2], [AlbumOf(a, "A1"), AlbumOf(b, "A2")]);
    assert PageEntries(PageOne(a, b)) == Success([AlbumOf(a, "A1"), AlbumOf(b, "A2")]);
    assert LinkUrl(PageOne(a, b), "next") == Success(Some("http://l/p2"));
  }

  lemma PageTwoReads(c: string)
    requires ':' !in c
    ensures ReadPage(PageTwo(c)) == Success((None, [AlbumOf(c, "A3")]))
  {
    var e3 := AlbumEntry(c, "A3");
    assert [e3][1..] == [];
    assert FindAll(PageTwo(c), Atom("entry")) == [e3];
    AlbumEntryParses(c, "A3");
    ParseEntriesExactly([e3], [AlbumOf(c, "A3")]);
    assert PageEntries(PageTwo(c)) == Success([AlbumOf(c, "A3")]);
    assert LinkUrl(PageTwo(c), "next") == Success(None);
  }

  /** Two pages: the first with two albums and a `next` link, the second with one. */
  function TwoPages(a: string, b: string, c: string): Pages {
    map["http://l/rpublished/" := PageOne(a, b), "http://l/p2" := PageTwo(c)]
  }

  function ListNode(): Element {
    Element(Atom("feed"), map[], None, [Id("urn:yandex:fotki:user:albums"), Link("self", "http://l/")])
  }

  /** A walk over two readable pages, the first linking to the second. */
  lemma WalkTwo<T>(views: map<string, PageView<T>>, u1: string, u2: string, xs: seq<T>, ys: seq<T>, fuel: nat)
    requires u1 in views && views[u1] == Success((Some(u2), xs))
    requires u2 in views && views[u2] == Success((None, ys))
    requires fuel >= 2
    ensures Walk(views, u1, fuel) == Load(Success(xs + ys), [Get(u1), Get(u2)])
  {
    assert Walk(views, u2, fuel - 1) == Load(Success(ys), [Get(u2)]);
  }

  lemma ListFirstPage()
    ensures FirstPageUrl(ListNode(), "self") == Success("http://l/rpublished/")
  {
    var node := ListNode();
    assert LinkUrl(node, "self") == Success(Some("http://l/"));
    assert Show(Some("http://l/")) + "rpublished/" == "http://l/rpublished/";
  }

  /** Loading an album list whose first page holds albums A1 and A2 and links
      to a second page holding A3 gives [A1, A2, A3], after one GET per page. */
  lemma TwoPageAlbumList(a: string, b: string, c: string)
    requires ':' !in a && ':' !in b && ':' !in c
    ensures LoadResources(ListNode(), "self", TwoPages(a, b, c), 10) ==
      Load(Success([AlbumOf(a, "A1"), AlbumOf(b, "A2"), AlbumOf(c, "A3")]),
           [Get("http://l/rpublished/"), Get("http://l/p2")])
  {
    PageOneReads(a, b);
    PageTwoReads(c);
    ListFirstPage();
    var pages := TwoPages(a, b, c);
    var views := View(pages);
    assert pages["http://l/rpublished/"] == PageOne(a, b) && pages["http://l/p2"] == PageTwo(c);
    assert [AlbumOf(a, "A1"), AlbumOf(b, "A2")] + [AlbumOf(c, "A3")] == [AlbumOf(a, "A1"), AlbumOf(b, "A2"), AlbumOf(c, "A3")];
    WalkTwo(views, "http://l/rpublished/", "http://l/p2", [AlbumOf(a, "A1"), AlbumOf(b, "A2")], [AlbumOf(c, "A3")], 10);
  }
}
