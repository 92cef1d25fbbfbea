/** `Include` and `generate_document` of apistar/server/core.py: grouping
    routes into sections and assembling the API document.

    A `Link` is an object built once by its route and shared by every
    section and document that lists it; `generate_document` prefixes the
    URLs of an include's links by assigning to those shared objects. The
    model keeps the link objects in a store (`Links`) keyed by identity:
    sections and documents hold identities, and prefixing rewrites the
    store.

    As written, `Include.generate_content` tests each item with
    `isinstance(item, Section)`; the items of an include are routes and
    includes, never sections, so a nested include is dropped.
    `GenerateContentAsWritten` keeps that behaviour, and sections are built
    with it; `GenerateContent` tests for an include, as evidently
    intended. */
module Documents {
  import opened Outcomes
  import opened Routes

  /** The identity of a `Link` object. */
  type LinkId = nat

  /** The link objects, by identity. */
  type Links = map<LinkId, Link>

  /** An item of a route list: a route with the identity of the link its
      constructor built, or an include of further items under a URL. */
  datatype Item =
    | RouteItem(route: Route, link: LinkId)
    | IncludeItem(url: string, name: string, routes: seq<Item>, documented: bool)

  /** An entry of a section or of the document: a link or a section. */
  datatype Entry = LinkEntry(link: LinkId) | SectionEntry(section: Section)

  datatype Section = Section(name: string, content: seq<Entry>)

  datatype Document = Document(content: seq<Entry>)

  predicate IsDocumented(item: Item) {
    match item
    case RouteItem(route, _) => route.documented
    case IncludeItem(_, _, _, documented) => documented
  }

  predicate IsRoute(item: Item) {
    item.RouteItem?
  }

  // ---------------------------------------------------------------------
  // Filters: which positions a loop over the items keeps.

  /** `idx` lists, in increasing order, exactly the positions of `items`
      whose item `keep` accepts, each once. */
  predicate Picks(items: seq<Item>, keep: Item -> bool, idx: seq<nat>) {
    && (forall k :: 0 <= k < |idx| ==> idx[k] < |items| && keep(items[idx[k]]))
    && (forall k, k' :: 0 <= k < k' < |idx| ==> idx[k] < idx[k'])
    && (forall j :: 0 <= j < |items| && keep(items[j]) ==> j in idx)
  }

  function Shift(idx: seq<nat>): (r: seq<nat>)
    ensures |r| == |idx| && forall k :: 0 <= k < |idx| ==> r[k] == idx[k] + 1
  {
    seq(|idx|, k requires 0 <= k < |idx| => idx[k] + 1)
  }

  /** The positions `keep` accepts, in order. */
  function Positions(items: seq<Item>, keep: Item -> bool): seq<nat>
    decreases |items|
  {
    if |items| == 0 then []
    else (if keep(items[0]) then [0] else []) + Shift(Positions(items[1..], keep))
  }

  lemma {:induction false} PositionsPick(items: seq<Item>, keep: Item -> bool)
    ensures Picks(items, keep, Positions(items, keep))
    decreases |items|
  {
    if |items| > 0 {
      PositionsPick(items[1..], keep);
      var head: seq<nat> := if keep(items[0]) then [0] else [];
      assert Positions(items, keep) == head + Shift(Positions(items[1..], keep));
      PicksCons(items, keep, head, Positions(items[1..], keep));
    }
  }

  /** Positions of the tail, shifted past the head, after the head's own. */
  lemma PicksCons(items: seq<Item>, keep: Item -> bool, head: seq<nat>, rest: seq<nat>)
    requires |items| > 0 && head == (if keep(items[0]) then [0] else [])
    requires Picks(items[1..], keep, rest)
    ensures Picks(items, keep, head + Shift(rest))
  {
    ConsKept(items, keep, head, rest);
    ConsIncreasing(head, rest);
    ConsComplete(items, keep, head, rest);
  }

  lemma ConsKept(items: seq<Item>, keep: Item -> bool, head: seq<nat>, rest: seq<nat>)
    requires |items| > 0 && head == (if keep(items[0]) then [0] else [])
    requires forall k :: 0 <= k < |rest| ==> rest[k] < |items[1..]| && keep(items[1..][rest[k]])
    ensures var idx := head + Shift(rest);
            forall k :: 0 <= k < |idx| ==> idx[k] < |items| && keep(items[idx[k]])
  {
    var idx := head + Shift(rest);
    var h := |head|;
    forall k | 0 <= k < |idx|
      ensures idx[k] < |items| && keep(items[idx[k]])
    {
      if k >= h {
        assert idx[k] == rest[k - h] + 1;
        assert items[idx[k]] == items[1..][rest[k - h]];
      }
    }
  }

  lemma ConsIncreasing(head: seq<nat>, rest: seq<nat>)
    requires head == [] || head == [0]
    requires forall k, k' :: 0 <= k < k' < |rest| ==> rest[k] < rest[k']
    ensures var idx := head + Shift(rest);
            forall k, k' :: 0 <= k < k' < |idx| ==> idx[k] < idx[k']
  {
    var idx := head + Shift(rest);
    var h := |head|;
    forall k, k' | 0 <= k < k' < |idx|
      ensures idx[k] < idx[k']
    {
      assert idx[k'] == rest[k' - h] + 1;
      if k >= h {
        assert idx[k] == rest[k - h] + 1;
      }
    }
  }

  lemma ConsComplete(items: seq<Item>, keep: Item -> bool, head: seq<nat>, rest: seq<nat>)
    requires |items| > 0 && head == (if keep(items[0]) then [0] else [])
    requires forall j :: 0 <= j < |items[1..]| && keep(items[1..][j]) ==> j in rest
    ensures var idx := head + Shift(rest);
            forall j :: 0 <= j < |items| && keep(items[j]) ==> j in idx
  {
    var idx := head + Shift(rest);
    var h := |head|;
    forall j | 0 <= j < |items| && keep(items[j])
      ensures j in idx
    {
      if j == 0 {
        assert idx[0] == 0;
      } else {
        assert items[j] == items[1..][j - 1];
        var k :| 0 <= k < |rest| && rest[k] == j - 1;
        assert idx[k + h] == j;
      }
    }
  }

  // ---------------------------------------------------------------------
  // Sections.

  /** `Include.generate_content` as written: the link of every route,
      documented or not; includes are skipped. */
  function GenerateContentAsWritten(items: seq<Item>): (r: seq<Entry>)
    ensures |r| <= |items|
    ensures forall k :: 0 <= k < |r| ==> r[k].LinkEntry?
    ensures (forall k :: 0 <= k < |items| ==> items[k].RouteItem?) ==>
              |r| == |items| && forall k :: 0 <= k < |items| ==> r[k] == LinkEntry(items[k].link)
    ensures (forall k :: 0 <= k < |items| ==> items[k].IncludeItem?) ==> r == []
    decreases |items|
  {
    if |items| == 0 then []
    else
      var rest := GenerateContentAsWritten(items[1..]);
      assert forall k :: 1 <= k < |items| ==> items[k] == items[1..][k - 1];
      match items[0]
      case RouteItem(_, link) => [LinkEntry(link)] + rest
      case IncludeItem(_, _, _, _) => rest
  }

  /** As written, the content is the links of the route items, each once,
      in order: nothing else is kept. */
  lemma {:induction false} ContentAsWrittenPicksRoutes(items: seq<Item>)
    ensures var r := GenerateContentAsWritten(items);
            exists idx :: Picks(items, IsRoute, idx) && |idx| == |r|
                          && forall k :: 0 <= k < |r| ==> r[k] == LinkEntry(items[idx[k]].link)
  {
    PositionsPick(items, IsRoute);
    ContentAtPositions(items);
  }

  lemma {:induction false} ContentAtPositions(items: seq<Item>)
    ensures var r := GenerateContentAsWritten(items);
            var idx := Positions(items, IsRoute);
            |idx| == |r| && forall k :: 0 <= k < |r| ==>
              idx[k] < |items| && items[idx[k]].RouteItem? && r[k] == LinkEntry(items[idx[k]].link)
    decreases |items|
  {
    if |items| > 0 {
      var tail := items[1..];
      ContentAtPositions(tail);
      var rest := Positions(tail, IsRoute);
      var r := GenerateContentAsWritten(items);
      var idx := Positions(items, IsRoute);
      var h := if IsRoute(items[0]) then 1 else 0;
      assert idx == (if IsRoute(items[0]) then [0] else []) + Shift(rest);
      forall k | 0 <= k < |r|
        ensures idx[k] < |items| && items[idx[k]].RouteItem? && r[k] == LinkEntry(items[idx[k]].link)
      {
        if k >= h {
          assert idx[k] == rest[k - h] + 1;
          assert items[idx[k]] == tail[rest[k - h]];
          assert r[k] == GenerateContentAsWritten(tail)[k - h];
        }
      }
    }
  }

  /** `Include.generate_content` with the include test evidently intended:
      one entry per item, in order, documented or not. */
  function GenerateContent(items: seq<Item>): (r: seq<Entry>)
    ensures |r| == |items|
    ensures forall k :: 0 <= k < |items| ==> (r[k].LinkEntry? <==> items[k].RouteItem?)
    ensures forall k :: 0 <= k < |items| && items[k].RouteItem? ==> r[k] == LinkEntry(items[k].link)
    ensures forall k :: 0 <= k < |items| && items[k].IncludeItem? ==> r[k].section.name == items[k].name
    decreases items
  {
    seq(|items|, k requires 0 <= k < |items| => EntryOf(items[k]))
  }

  /** The intended content entry for one item of an include. */
  function EntryOf(item: Item): (r: Entry)
    ensures item.RouteItem? ==> r == LinkEntry(item.link)
    ensures item.IncludeItem? ==> r.SectionEntry? && r.section.name == item.name
    decreases item
  {
    match item
    case RouteItem(_, link) => LinkEntry(link)
    case IncludeItem(_, name, routes, _) => SectionEntry(IntendedSectionOf(item))
  }

  /** The section an include would have with the intended content. */
  function IntendedSectionOf(item: Item): (r: Section)
    requires item.IncludeItem?
    ensures r.name == item.name && |r.content| == |item.routes|
    decreases item, 0
  {
    Section(item.name, GenerateContent(item.routes))
  }

  /** The entries of a content list that are links, in order. */
  function LinksOnly(content: seq<Entry>): seq<Entry>
    decreases |content|
  {
    if |content| == 0 then []
    else (if content[0].LinkEntry? then [content[0]] else []) + LinksOnly(content[1..])
  }

  /** The only difference the `Section` test makes: the as-written content
      is the intended content with its sections removed. */
  lemma {:induction false} ContentAsWrittenDropsSections(items: seq<Item>)
    ensures GenerateContentAsWritten(items) == LinksOnly(GenerateContent(items))
    decreases |items|
  {
    if |items| > 0 {
      var c := GenerateContent(items);
      assert c[1..] == GenerateContent(items[1..]);
      ContentAsWrittenDropsSections(items[1..]);
    }
  }

  /** `Include.section`, built when the include is constructed, with the
      content as written: the include's route links, each once, in order. */
  function SectionOf(item: Item): (r: Section)
    requires item.IncludeItem?
    ensures r.name == item.name
    ensures forall k :: 0 <= k < |r.content| ==> r.content[k].LinkEntry?
    ensures (forall k :: 0 <= k < |item.routes| ==> item.routes[k].IncludeItem?) ==> r.content == []
  {
    Section(item.name, GenerateContentAsWritten(item.routes))
  }

  /** `Section.get_links` (apistar/document.py is not part of this model):
      the links of a content list, nested sections flattened in place. */
  function GetLinks(content: seq<Entry>): (r: seq<LinkId>)
    ensures forall k :: 0 <= k < |content| && content[k].LinkEntry? ==> content[k].link in r
    decreases content
  {
    if |content| == 0 then []
    else
      var rest := GetLinks(content[1..]);
      assert forall k :: 1 <= k < |content| ==> content[k] == content[1..][k - 1];
      EntryLinks(content[0]) + rest
  }

  /** The links of one entry. */
  function EntryLinks(e: Entry): (r: seq<LinkId>)
    ensures e.LinkEntry? ==> r == [e.link]
    decreases e
  {
    match e
    case LinkEntry(id) => [id]
    case SectionEntry(section) => GetLinks(section.content)
  }

  /** The links of a concatenation are the links of its parts, in order. */
  lemma {:induction false} GetLinksConcat(a: seq<Entry>, b: seq<Entry>)
    ensures GetLinks(a + b) == GetLinks(a) + GetLinks(b)
    decreases |a|
  {
    if |a| == 0 {
      assert a + b == b;
    } else {
      assert (a + b)[0] == a[0];
      assert (a + b)[1..] == a[1..] + b;
      GetLinksConcat(a[1..], b);
    }
  }

  /** A link is listed exactly when some entry lists it: a link entry of its
      own, or a nested section that lists it. */
  lemma {:induction false} GetLinksMembers(content: seq<Entry>, id: LinkId)
    ensures id in GetLinks(content) <==> exists k :: 0 <= k < |content| && id in EntryLinks(content[k])
    decreases |content|
  {
    if |content| > 0 {
      GetLinksMembers(content[1..], id);
      assert GetLinks(content) == EntryLinks(content[0]) + GetLinks(content[1..]);
      if exists k :: 0 <= k < |content[1..]| && id in EntryLinks(content[1..][k]) {
        var k :| 0 <= k < |content[1..]| && id in EntryLinks(content[1..][k]);
        assert content[k + 1] == content[1..][k];
      }
      if exists k :: 0 <= k < |content| && id in EntryLinks(content[k]) {
        var k :| 0 <= k < |content| && id in EntryLinks(content[k]);
        if k > 0 {
          assert content[1..][k - 1] == content[k];
        }
      }
    }
  }

  /** The links of a content list made of links only are those links, each
      once, in order. */
  lemma {:induction false} GetLinksOfLinks(content: seq<Entry>)
    requires forall k :: 0 <= k < |content| ==> content[k].LinkEntry?
    ensures var r := GetLinks(content);
            |r| == |content| && forall k :: 0 <= k < |content| ==> r[k] == content[k].link
    decreases |content|
  {
    if |content| > 0 {
      assert forall k :: 0 <= k < |content[1..]| ==> content[1..][k] == content[k + 1];
      GetLinksOfLinks(content[1..]);
    }
  }

  /** The links of a section built as written: the links of the include's
      route items, each once, in order; links of nested includes are not
      among them. */
  lemma SectionLinks(item: Item)
    requires item.IncludeItem?
    ensures var r := GetLinks(SectionOf(item).content);
            exists idx :: Picks(item.routes, IsRoute, idx) && |idx| == |r|
                          && forall k :: 0 <= k < |r| ==> r[k] == item.routes[idx[k]].link
  {
    var content := SectionOf(item).content;
    GetLinksOfLinks(content);
    PositionsPick(item.routes, IsRoute);
    ContentAtPositions(item.routes);
    var idx := Positions(item.routes, IsRoute);
    var r := GetLinks(content);
    assert |idx| == |r|;
    forall k | 0 <= k < |r|
      ensures r[k] == item.routes[idx[k]].link
    {
      assert content[k] == LinkEntry(item.routes[idx[k]].link);
    }
  }

  /** Counting over a concatenation adds the counts. */
  lemma {:induction false} CountConcat(a: seq<LinkId>, b: seq<LinkId>, id: LinkId)
    ensures Count(a + b, id) == Count(a, id) + Count(b, id)
    decreases |a|
  {
    if |a| == 0 {
      assert a + b == b;
    } else {
      assert (a + b)[0] == a[0];
      assert (a + b)[1..] == a[1..] + b;
      CountConcat(a[1..], b, id);
    }
  }

  // ---------------------------------------------------------------------
  // Prefixing.

  /** How many times `id` occurs in `ids`. */
  function Count(ids: seq<LinkId>, id: LinkId): (r: nat)
    ensures r <= |ids|
    ensures r == 0 <==> id !in ids
  {
    if |ids| == 0 then 0
    else (if ids[0] == id then 1 else 0) + Count(ids[1..], id)
  }

  /** `n` copies of `s`. */
  function Repeat(s: string, n: nat): (r: string)
    ensures |r| == n * |s|
  {
    if n == 0 then "" else s + Repeat(s, n - 1)
  }

  /** `link.url = prefix + link.url` for each identity in `ids` in turn: a
      link listed twice is prefixed twice. */
  function PrefixLinks(links: Links, ids: seq<LinkId>, prefix: string): (r: Links)
    ensures r.Keys == links.Keys
    ensures forall id :: id in links ==>
              r[id] == links[id].(url := Repeat(prefix, Count(ids, id)) + links[id].url)
    decreases |ids|
  {
    if |ids| == 0 then links
    else
      var once := PrefixOne(links, ids[0], prefix);
      var r := PrefixLinks(once, ids[1..], prefix);
      PrefixStep(links, once, r, ids, prefix);
      r
  }

  /** `link.url = prefix + link.url` for one identity. */
  function PrefixOne(links: Links, id: LinkId, prefix: string): (r: Links)
    ensures r.Keys == links.Keys
    ensures id in links ==> r[id] == links[id].(url := prefix + links[id].url)
    ensures forall other :: other in links && other != id ==> r[other] == links[other]
  {
    if id in links then links[id := links[id].(url := prefix + links[id].url)] else links
  }

  lemma PrefixStep(links: Links, once: Links, r: Links, ids: seq<LinkId>, prefix: string)
    requires |ids| >= 1 && once == PrefixOne(links, ids[0], prefix)
    requires r.Keys == once.Keys
    requires forall id :: id in once ==>
               r[id] == once[id].(url := Repeat(prefix, Count(ids[1..], id)) + once[id].url)
    ensures forall id :: id in links ==>
              r[id] == links[id].(url := Repeat(prefix, Count(ids, id)) + links[id].url)
  {
    forall id | id in links
      ensures r[id] == links[id].(url := Repeat(prefix, Count(ids, id)) + links[id].url)
    {
      PrefixStepAt(links[id], once[id], r[id], ids, prefix, id);
    }
  }

  lemma PrefixStepAt(link: Link, once: Link, r: Link, ids: seq<LinkId>, prefix: string, id: LinkId)
    requires |ids| >= 1
    requires once == if id == ids[0] then link.(url := prefix + link.url) else link
    requires r == once.(url := Repeat(prefix, Count(ids[1..], id)) + once.url)
    ensures r == link.(url := Repeat(prefix, Count(ids, id)) + link.url)
  {
    if id == ids[0] {
      RepeatAppend(prefix, Count(ids[1..], id));
      assert Repeat(prefix, Count(ids[1..], id)) + (prefix + link.url)
             == (Repeat(prefix, Count(ids[1..], id)) + prefix) + link.url;
    }
  }

  lemma {:induction false} RepeatAppend(s: string, n: nat)
    ensures Repeat(s, n) + s == Repeat(s, n + 1)
  {
    if n > 0 {
      RepeatAppend(s, n - 1);
    }
  }

  /** What `generate_document` puts in front of a link's URL: for each
      documented include in turn, its URL once per listing of the link. A
      later include's prefix goes in front of an earlier one's. */
  function PrefixFor(items: seq<Item>, id: LinkId): string
    decreases |items|
  {
    if |items| == 0 then "" else PrefixFor(items[1..], id) + OwnPrefix(items[0], id)
  }

  /** The prefix one item puts in front of a link's URL. */
  function OwnPrefix(item: Item, id: LinkId): (r: string)
    ensures !(item.IncludeItem? && item.documented) ==> r == ""
    ensures item.IncludeItem? && item.documented && id !in GetLinks(SectionOf(item).content) ==> r == ""
  {
    if item.IncludeItem? && item.documented
    then Repeat(item.url, Count(GetLinks(SectionOf(item).content), id))
    else ""
  }

  /** The entry `generate_document` adds for a documented item. */
  function DocumentEntry(item: Item): (r: Entry)
    ensures item.RouteItem? ==> r == LinkEntry(item.link)
    ensures item.IncludeItem? ==> r == SectionEntry(SectionOf(item))
  {
    match item
    case RouteItem(_, link) => LinkEntry(link)
    case IncludeItem(_, _, _, _) => SectionEntry(SectionOf(item))
  }

  /** The documented items, in order. */
  function Documented(items: seq<Item>): seq<Item>
    decreases |items|
  {
    if |items| == 0 then []
    else
      var rest := Documented(items[1..]);
      if IsDocumented(items[0]) then [items[0]] + rest else rest
  }

  /** The filter keeps exactly the documented items, each once, in order. */
  lemma DocumentedItems(items: seq<Item>)
    ensures var r := Documented(items);
            exists idx :: Picks(items, IsDocumented, idx) && |idx| == |r|
                          && forall k :: 0 <= k < |r| ==> r[k] == items[idx[k]]
  {
    PositionsPick(items, IsDocumented);
    DocumentedAtPositions(items);
  }

  lemma {:induction false} DocumentedAtPositions(items: seq<Item>)
    ensures var r := Documented(items);
            var idx := Positions(items, IsDocumented);
            |idx| == |r| && forall k :: 0 <= k < |r| ==> idx[k] < |items| && r[k] == items[idx[k]]
    decreases |items|
  {
    if |items| > 0 {
      var tail := items[1..];
      DocumentedAtPositions(tail);
      var rest := Positions(tail, IsDocumented);
      var r := Documented(items);
      var idx := Positions(items, IsDocumented);
      var h := if IsDocumented(items[0]) then 1 else 0;
      assert idx == (if IsDocumented(items[0]) then [0] else []) + Shift(rest);
      forall k | 0 <= k < |r|
        ensures idx[k] < |items| && r[k] == items[idx[k]]
      {
        if k >= h {
          assert idx[k] == rest[k - h] + 1;
          assert items[idx[k]] == tail[rest[k - h]];
          assert r[k] == Documented(tail)[k - h];
        }
      }
    }
  }

  /** The loop of `generate_document`: the documented routes' links and
      the documented includes' sections, in order; each documented include
      prefixes the URLs of its section's links in the store. */
  function DocumentFrom(items: seq<Item>, links: Links): (r: (seq<Entry>, Links))
    ensures |r.0| == |Documented(items)|
    ensures forall k :: 0 <= k < |r.0| ==> r.0[k] == DocumentEntry(Documented(items)[k])
    ensures r.1.Keys == links.Keys
    ensures forall id :: id in links ==>
              r.1[id] == links[id].(url := PrefixFor(items, id) + links[id].url)
    decreases |items|
  {
    if |items| == 0 then ([], links)
    else
      var item := items[0];
      var links' := IncludePrefix(item, links);
      var rest := DocumentFrom(items[1..], links');
      var content := if IsDocumented(item) then [DocumentEntry(item)] + rest.0 else rest.0;
      DocumentStep(items, links, links', rest.1);
      ContentStep(items, rest.0, content);
      (content, rest.1)
  }

  /** The prefixing one item does: only a documented include prefixes. */
  function IncludePrefix(item: Item, links: Links): (r: Links)
    ensures r.Keys == links.Keys
    ensures forall id :: id in links ==> r[id] == links[id].(url := OwnPrefix(item, id) + links[id].url)
  {
    if item.IncludeItem? && item.documented then PrefixLinks(links, GetLinks(SectionOf(item).content), item.url)
    else links
  }

  lemma DocumentStep(items: seq<Item>, links: Links, links': Links, r: Links)
    requires |items| >= 1 && links' == IncludePrefix(items[0], links)
    requires r.Keys == links'.Keys
    requires forall id :: id in links' ==> r[id] == links'[id].(url := PrefixFor(items[1..], id) + links'[id].url)
    ensures r.Keys == links.Keys
    ensures forall id :: id in links ==> r[id] == links[id].(url := PrefixFor(items, id) + links[id].url)
  {
    forall id | id in links
      ensures r[id] == links[id].(url := PrefixFor(items, id) + links[id].url)
    {
      PrefixTwice(links[id], OwnPrefix(items[0], id), PrefixFor(items[1..], id));
    }
  }

  /** Prefixing by `a` and then by `b` is prefixing by `b + a`. */
  lemma PrefixTwice(l: Link, a: string, b: string)
    ensures l.(url := a + l.url).(url := b + (a + l.url)) == l.(url := (b + a) + l.url)
  {
    assert b + (a + l.url) == (b + a) + l.url;
  }

  lemma ContentStep(items: seq<Item>, rest: seq<Entry>, content: seq<Entry>)
    requires |items| >= 1
    requires |rest| == |Documented(items[1..])|
    requires forall k :: 0 <= k < |rest| ==> rest[k] == DocumentEntry(Documented(items[1..])[k])
    requires content == if IsDocumented(items[0]) then [DocumentEntry(items[0])] + rest else rest
    ensures |content| == |Documented(items)|
    ensures forall k :: 0 <= k < |content| ==> content[k] == DocumentEntry(Documented(items)[k])
  {
    if IsDocumented(items[0]) {
      assert Documented(items) == [items[0]] + Documented(items[1..]);
      forall k | 0 <= k < |content|
        ensures content[k] == DocumentEntry(Documented(items)[k])
      {
        if k > 0 {
          assert content[k] == rest[k - 1];
          assert Documented(items)[k] == Documented(items[1..])[k - 1];
        }
      }
    } else {
      assert Documented(items) == Documented(items[1..]);
    }
  }

  /** `generate_document`. */
  function GenerateDocument(items: seq<Item>, links: Links): (Document, Links) {
    var (content, links') := DocumentFrom(items, links);
    (Document(content), links')
  }

  // ---------------------------------------------------------------------
  // Properties.

  /** A link listed once, by one documented include at the top level, gets
      that include's URL in front of its own; nothing else about it
      changes. */
  lemma PrefixOnce(items: seq<Item>, links: Links, i: nat, id: LinkId)
    requires i < |items| && items[i].IncludeItem? && items[i].documented && id in links
    requires Count(GetLinks(SectionOf(items[i]).content), id) == 1
    requires forall k :: 0 <= k < |items| && k != i && items[k].IncludeItem? && items[k].documented ==>
               id !in GetLinks(SectionOf(items[k]).content)
    ensures GenerateDocument(items, links).1[id] == links[id].(url := items[i].url + links[id].url)
  {
    PrefixForSingle(items, i, id);
  }

  lemma {:induction false} PrefixForSingle(items: seq<Item>, i: nat, id: LinkId)
    requires i < |items| && items[i].IncludeItem? && items[i].documented
    requires Count(GetLinks(SectionOf(items[i]).content), id) == 1
    requires forall k :: 0 <= k < |items| && k != i && items[k].IncludeItem? && items[k].documented ==>
               id !in GetLinks(SectionOf(items[k]).content)
    ensures PrefixFor(items, id) == items[i].url
    decreases |items|
  {
    if i == 0 {
      PrefixForAbsent(items[1..], id);
      assert Repeat(items[0].url, 1) == items[0].url;
    } else {
      assert forall k :: 0 <= k < |items[1..]| ==> items[1..][k] == items[k + 1];
      PrefixForSingle(items[1..], i - 1, id);
    }
  }

  /** A link no documented include lists keeps its URL. */
  lemma {:induction false} PrefixForAbsent(items: seq<Item>, id: LinkId)
    requires forall k :: 0 <= k < |items| && items[k].IncludeItem? && items[k].documented ==>
               id !in GetLinks(SectionOf(items[k]).content)
    ensures PrefixFor(items, id) == ""
    decreases |items|
  {
    if |items| > 0 {
      assert forall k :: 0 <= k < |items[1..]| ==> items[1..][k] == items[k + 1];
      PrefixForAbsent(items[1..], id);
    }
  }

  /** `generate_document` is not idempotent: a second call on the same
      routes prefixes the shared links once more. */
  lemma SecondCallPrefixesAgain(items: seq<Item>, links: Links, id: LinkId)
    requires id in links
    ensures var once := GenerateDocument(items, links).1;
            var twice := GenerateDocument(items, once).1;
            twice[id].url == PrefixFor(items, id) + PrefixFor(items, id) + links[id].url
  {
    var once := GenerateDocument(items, links).1;
    var twice := GenerateDocument(items, once).1;
    var prefix := PrefixFor(items, id);
    DocumentUrl(items, links, id);
    assert once[id].url == prefix + links[id].url;
    DocumentUrl(items, once, id);
    assert twice[id].url == prefix + once[id].url;
    ConcatAssociates(prefix, prefix, links[id].url);
  }

  lemma ConcatAssociates(a: string, b: string, c: string)
    ensures a + (b + c) == a + b + c
  {
  }

  /** The URL one call leaves on a stored link. */
  lemma DocumentUrl(items: seq<Item>, links: Links, id: LinkId)
    requires id in links
    ensures var r := GenerateDocument(items, links).1;
            id in r && r[id].url == PrefixFor(items, id) + links[id].url
  {
  }

  /** Undocumented items contribute nothing to the document. */
  lemma {:induction false} UndocumentedIgnored(items: seq<Item>, links: Links)
    requires forall k :: 0 <= k < |items| ==> !IsDocumented(items[k])
    ensures GenerateDocument(items, links) == (Document([]), links)
    decreases |items|
  {
    if |items| > 0 {
      assert forall k :: 0 <= k < |items[1..]| ==> items[1..][k] == items[k + 1];
      UndocumentedIgnored(items[1..], links);
    }
  }

  /** As written, a documented include whose items are all includes gets an
      empty section in the document, and no link URL changes. */
  lemma NestedLinksNotPrefixed(outer: Item, links: Links)
    requires outer.IncludeItem? && outer.documented
    requires forall k :: 0 <= k < |outer.routes| ==> outer.routes[k].IncludeItem?
    ensures GenerateDocument([outer], links) == (Document([SectionEntry(Section(outer.name, []))]), links)
  {
    var r := GenerateDocument([outer], links).1;
    forall id | id in links
      ensures r[id] == links[id]
    {
      assert PrefixFor([outer], id) == PrefixFor([], id) + OwnPrefix(outer, id);
      assert links[id].(url := "" + links[id].url) == links[id];
    }
    assert r == links;
    assert Documented([outer]) == [outer];
    assert SectionOf(outer) == Section(outer.name, []);
    var content := GenerateDocument([outer], links).0.content;
    assert |content| == 1 && content[0] == SectionEntry(Section(outer.name, []));
    assert content == [SectionEntry(Section(outer.name, []))];
    assert GenerateDocument([outer], links).1 == r;
  }

  /** As written, an include inside an include contributes nothing to the
      outer section; with the include test it contributes its section. */
  lemma NestedIncludeDropped(inner: Item)
    requires inner.IncludeItem?
    ensures GenerateContentAsWritten([inner]) == []
    ensures GenerateContent([inner]) == [SectionEntry(IntendedSectionOf(inner))]
  {
  }
}
