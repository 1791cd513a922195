/** `RaiParser` (single.py:81-225) and `url_to_filename` (single.py:20-21): playlist
    expansion into `inner`, the feed built by `_json_to_feed`, and `process` with its
    type filter, date repair, ordering and the file it writes. */
module Parser {
  import opened Wrappers
  import opened Text
  import opened DateParse
  import opened PageTypes
  import opened Catalog
  import opened FeedBuilder
  import opened DateRepair
  import opened Ordering

  /** What `RaiParser(url, folder).process()` returns for a nested playlist url. */
  type Child = string -> seq<Feed>

  /** `Feed.sort_items` of the feed library. */
  type ChronoSort = seq<FeedItem> -> seq<FeedItem>

  /** `url.split("/")[-1] + ".xml"`: the text after the last '/' of the url, then ".xml". */
  function UrlToFilename(url: string): (r: string)
    ensures |r| >= 4 && r[|r| - 4..] == ".xml"
    ensures var seg := r[..|r| - 4];
      |seg| <= |url| && url[|url| - |seg|..] == seg && '/' !in seg &&
      (|seg| == |url| || url[|url| - |seg| - 1] == '/')
  {
    LastSegmentIsFinalPart(url);
    var r := LastSegment(url) + ".xml";
    assert r[..|r| - 4] == LastSegment(url);
    r
  }

  /** `os.path.join(folder, name)`: an absolute name replaces the folder; otherwise the
      name follows the folder, with one '/' added unless the folder is empty or already
      ends in '/'. */
  function PathJoin(folder: string, name: string): (r: string)
    ensures |r| >= |name| && r[|r| - |name|..] == name
    ensures name != [] && name[0] == '/' ==> r == name
    ensures !(name != [] && name[0] == '/') ==>
      |r| >= |folder| && r[..|folder|] == folder &&
      (folder == [] || folder[|folder| - 1] == '/' ==> |r| == |folder| + |name|) &&
      (folder != [] && folder[|folder| - 1] != '/' ==> |r| == |folder| + 1 + |name| && r[|folder|] == '/')
  {
    if name != [] && name[0] == '/' then name
    else if folder == [] || folder[|folder| - 1] == '/' then folder + name
    else folder + "/" + name
  }

  // ---------------------------------------------------------------------------
  // Playlist expansion (single.py:88-97)

  /** `url in (f.url for f in feeds)`. */
  predicate HasUrl(feeds: seq<Feed>, u: string) {
    exists i :: 0 <= i < |feeds| && feeds[i].url == u
  }

  /** `inner` after `extend(link)` on a parser for `base`. */
  function Extended(inner: seq<Feed>, base: string, recursive: bool, link: string,
                    resolve: Resolver, child: Child): seq<Feed>
  {
    var u := resolve(base, link);
    if !recursive || u == base || HasUrl(inner, u) then inner else inner + child(u)
  }

  /** `inner` after `extend` on each link in turn. */
  function ExpandAll(inner: seq<Feed>, base: string, recursive: bool, links: seq<string>,
                     resolve: Resolver, child: Child): seq<Feed>
    decreases |links|
  {
    if links == [] then inner
    else Extended(ExpandAll(inner, base, recursive, links[..|links| - 1], resolve, child),
                  base, recursive, links[|links| - 1], resolve, child)
  }

  /** Expansion only appends: the feeds already accumulated stay first and unchanged. */
  lemma {:induction false} ExpandAllExtends(inner: seq<Feed>, base: string, recursive: bool,
                                             links: seq<string>, resolve: Resolver, child: Child)
    ensures inner <= ExpandAll(inner, base, recursive, links, resolve, child)
    decreases |links|
  {
    if links != [] {
      ExpandAllExtends(inner, base, recursive, links[..|links| - 1], resolve, child);
    }
  }

  /** A non-recursive parser never changes `inner`. */
  lemma {:induction false} ExpandAllNonRecursive(inner: seq<Feed>, base: string, links: seq<string>,
                                                  resolve: Resolver, child: Child)
    ensures ExpandAll(inner, base, false, links, resolve, child) == inner
    decreases |links|
  {
    if links != [] {
      ExpandAllNonRecursive(inner, base, links[..|links| - 1], resolve, child);
    }
  }

  /** Links that resolve to the page itself are never followed. */
  lemma {:induction false} ExpandAllSkipsSelf(inner: seq<Feed>, base: string, recursive: bool,
                                               links: seq<string>, resolve: Resolver, child: Child)
    requires forall i :: 0 <= i < |links| ==> resolve(base, links[i]) == base
    ensures ExpandAll(inner, base, recursive, links, resolve, child) == inner
    decreases |links|
  {
    if links != [] {
      ExpandAllSkipsSelf(inner, base, recursive, links[..|links| - 1], resolve, child);
    }
  }

  /** Expanding two link lists in turn is expanding their concatenation. */
  lemma {:induction false} ExpandAllConcat(inner: seq<Feed>, base: string, recursive: bool,
                                            a: seq<string>, b: seq<string>, resolve: Resolver, child: Child)
    ensures ExpandAll(ExpandAll(inner, base, recursive, a, resolve, child), base, recursive, b, resolve, child)
         == ExpandAll(inner, base, recursive, a + b, resolve, child)
    decreases |b|
  {
    if b == [] {
      assert a + b == a;
    } else {
      ExpandAllConcat(inner, base, recursive, a, b[..|b| - 1], resolve, child);
      assert (a + b)[..|a + b| - 1] == a + b[..|b| - 1];
    }
  }

  /** Once a nested page has reported its own feed, a second link to it adds nothing. */
  lemma ExtendedOnce(inner: seq<Feed>, base: string, recursive: bool, link: string,
                     resolve: Resolver, child: Child)
    requires HasUrl(child(resolve(base, link)), resolve(base, link))
    ensures var once := Extended(inner, base, recursive, link, resolve, child);
      Extended(once, base, recursive, link, resolve, child) == once
  {
    var u := resolve(base, link);
    var c := child(u);
    if recursive && u != base && !HasUrl(inner, u) {
      var i :| 0 <= i < |c| && c[i].url == u;
      assert (inner + c)[|inner| + i] == c[i];
    }
  }

  /** The links of the tabs whose content type is "playlist" (single.py:177-179). */
  function TabLinks(tabs: seq<Tab>): seq<string>
    decreases |tabs|
  {
    if tabs == [] then []
    else TabLinks(tabs[..|tabs| - 1]) +
         (if tabs[|tabs| - 1].contentType == "playlist" then [tabs[|tabs| - 1].weblink] else [])
  }

  /** The web links of the cards that contain "/playlist/" (single.py:127-128). */
  function CardLinks(cards: seq<Card>): seq<string>
    decreases |cards|
  {
    if cards == [] then []
    else
      var c := cards[|cards| - 1];
      CardLinks(cards[..|cards| - 1]) +
      (if c.weblink.Some? && Contains(c.weblink.value, "/playlist/") then [c.weblink.value] else [])
  }

  /** A tab's link is followed iff its content type is "playlist". */
  lemma {:induction false} TabLinksMembers(tabs: seq<Tab>, link: string)
    ensures link in TabLinks(tabs) <==>
      exists i :: 0 <= i < |tabs| && tabs[i].contentType == "playlist" && tabs[i].weblink == link
    decreases |tabs|
  {
    if tabs != [] {
      var init := tabs[..|tabs| - 1];
      TabLinksMembers(init, link);
      assert forall i :: 0 <= i < |init| ==> init[i] == tabs[i];
    }
  }

  /** The followed tab links keep the order of the tabs. */
  lemma {:induction false} TabLinksConcat(a: seq<Tab>, b: seq<Tab>)
    ensures TabLinks(a + b) == TabLinks(a) + TabLinks(b)
    decreases |b|
  {
    if b == [] {
      assert a + b == a;
    } else {
      TabLinksConcat(a, b[..|b| - 1]);
      assert (a + b)[..|a + b| - 1] == a + b[..|b| - 1];
    }
  }

  /** A card's web link is followed iff it contains "/playlist/". */
  lemma {:induction false} CardLinksMembers(cards: seq<Card>, link: string)
    ensures link in CardLinks(cards) <==>
      exists i :: 0 <= i < |cards| && cards[i].weblink == Some(link) && Contains(link, "/playlist/")
    decreases |cards|
  {
    if cards != [] {
      var init := cards[..|cards| - 1];
      CardLinksMembers(init, link);
      assert forall i :: 0 <= i < |init| ==> init[i] == cards[i];
    }
  }

  /** The followed card links keep the order of the cards. */
  lemma {:induction false} CardLinksConcat(a: seq<Card>, b: seq<Card>)
    ensures CardLinks(a + b) == CardLinks(a) + CardLinks(b)
    decreases |b|
  {
    if b == [] {
      assert a + b == a;
    } else {
      CardLinksConcat(a, b[..|b| - 1]);
      assert (a + b)[..|a + b| - 1] == a + b[..|b| - 1];
    }
  }

  lemma CardLinksStep(cards: seq<Card>, k: nat)
    requires k < |cards|
    ensures CardLinks(cards[..k + 1]) == CardLinks(cards[..k]) + CardLinks([cards[k]])
  {
    assert cards[..k + 1][..k] == cards[..k];
    assert [cards[k]][..0] == [];
  }

  function PlaylistLinks(page: PageData): seq<string> {
    TabLinks(page.tabs) + CardLinks(page.cards)
  }

  // ---------------------------------------------------------------------------
  // What `process` returns and writes

  /** The file `atomic_write` replaces: its path, the feed serialized into it and the
      modification time it is given (None: left as written). */
  datatype FileWrite = FileWrite(path: string, feed: Feed, mtime: Stamp)

  datatype Outcome = Outcome(feeds: seq<Feed>, written: Option<FileWrite>)

  /** The exceptions `process` lets escape: a bad type list, `max` over timestamps of
      which some are None, `max` of no items. */
  datatype Crash = BadTypeList(e: TypeListError) | IncomparableStamps | MaxOfEmpty

  function MaxOf(ts: seq<int>): (m: int)
    requires ts != []
    ensures (exists i :: 0 <= i < |ts| && ts[i] == m) && forall i :: 0 <= i < |ts| ==> ts[i] <= m
    decreases |ts|
  {
    if |ts| == 1 then ts[0]
    else
      var rest := MaxOf(ts[1..]);
      assert forall i :: 1 <= i < |ts| ==> ts[i] == ts[1..][i - 1];
      if ts[0] >= rest then ts[0] else rest
  }

  /** `max(item.update for item in items)`: a lone item's timestamp whatever it is, the
      latest timestamp when all are present, a TypeError when two or more items include
      a None, a ValueError for no items. */
  function LatestUpdate(items: seq<FeedItem>): (r: Result<Stamp, Crash>)
    ensures r.Success? <==> |items| == 1 || (|items| > 1 && AllTimed(items))
    ensures |items| == 1 ==> r == Success(items[0].update)
    ensures r.Success? && |items| > 1 ==>
      r.value.Some? && (exists i :: 0 <= i < |items| && items[i].update == r.value) &&
      forall i :: 0 <= i < |items| ==> items[i].update.value <= r.value.value
  {
    if items == [] then Failure(MaxOfEmpty)
    else if |items| == 1 then Success(items[0].update)
    else if AllTimed(items) then Success(Some(MaxOf(Times(items))))
    else Failure(IncomparableStamps)
  }

  /** The page type of single.py:171-172: the lower-cased typology, "" when missing. */
  function PageTypeOf(page: PageData): Flags {
    FromString(Lower(page.info.typology.GetOr("")))
  }

  /** The result of `process` for a converted page whose feed, as `_json_to_feed` filled
      it in, is `feed` and whose `inner` holds `inner`: the feed first, then the nested
      feeds; the file is written only when the feed has items. */
  function Finish(base: string, folder: string, feed: Feed, dateOk: bool,
                  chronoSort: ChronoSort, inner: seq<Feed>): Result<Outcome, Crash>
  {
    if feed.items == [] then Success(Outcome([feed] + inner, None))
    else
      var done := feed.(items := OrderItems(Repaired(feed.items, dateOk), chronoSort));
      match LatestUpdate(done.items)
      case Failure(e) => Failure(e)
      case Success(m) => Success(Outcome([done] + inner, Some(FileWrite(PathJoin(folder, UrlToFilename(base)), done, m))))
  }

  /** A converted page's result starts with its own feed, followed by the nested feeds
      unchanged; a file is written exactly when the page has a card with audio, holding
      that same feed, at `<folder>/<last url segment>.xml`. */
  lemma FinishShape(base: string, folder: string, page: PageData, dateOk: bool,
                    resolve: Resolver, chronoSort: ChronoSort, inner: seq<Feed>)
    ensures var r := Finish(base, folder, FeedOf(base, page, resolve), dateOk, chronoSort, inner);
      r.Success? ==>
        |r.value.feeds| == |inner| + 1 && r.value.feeds[1..] == inner &&
        r.value.feeds[0].url == base && r.value.feeds[0].title == page.title &&
        (r.value.written.Some? <==> CountAudio(page.cards) > 0) &&
        (r.value.written.Some? ==> r.value.written.value.feed == r.value.feeds[0] &&
                                   r.value.written.value.path == PathJoin(folder, UrlToFilename(base)))
  {
    var k: nat := 0;
    ItemsFollowCards(base, page.cards, resolve, k);
  }

  lemma TimedPermutation(a: seq<FeedItem>, b: seq<FeedItem>)
    requires AllTimed(a) && multiset(a) == multiset(b)
    ensures AllTimed(b)
  {
    forall i | 0 <= i < |b| ensures b[i].update.Some? {
      assert b[i] in multiset(a);
    }
  }

  /** Items that all fall on one calendar day keep their timestamps, and when they all
      carry integer season and episode they are written in episode order. */
  lemma FinishSameDayEpisodes(base: string, folder: string, feed: Feed, dateOk: bool,
                              chronoSort: ChronoSort, inner: seq<Feed>)
    requires feed.items != [] && AllTimed(feed.items)
    requires AllSeasoned(feed.items) && AllKeyable(feed.items, true)
    requires forall i :: 0 <= i < |feed.items| ==> DateOf(feed.items[i].update.value) == DateOf(feed.items[0].update.value)
    ensures var r := Finish(base, folder, feed, dateOk, chronoSort, inner);
      r.Success? && multiset(r.value.feeds[0].items) == multiset(feed.items) &&
      (forall i :: 0 <= i < |r.value.feeds[0].items| ==> NumKey(r.value.feeds[0].items[i]).Some?) &&
      forall i, j :: 0 <= i < j < |r.value.feeds[0].items| ==>
        NumKey(r.value.feeds[0].items[i]).value <= NumKey(r.value.feeds[0].items[j]).value
  {
    var items := feed.items;
    var days := Days(Times(items));
    assert NonDecreasing(days) && NonIncreasing(days);
    RepairUntouched(items, dateOk);
    OrderNumeric(items, chronoSort);
    var ordered := OrderItems(items, chronoSort);
    TimedPermutation(items, ordered);
  }

  // ---------------------------------------------------------------------------

  class RaiParser {
    const url: string
    const folderPath: string
    const recursive: bool
    var inner: seq<Feed>

    constructor (url: string, folderPath: string, recursive: bool)
      ensures this.url == url && this.folderPath == folderPath && this.recursive == recursive
      ensures inner == []
    {
      this.url := url;
      this.folderPath := folderPath;
      this.recursive := recursive;
      inner := [];
    }

    /** `extend(link)`: unchanged when not recursive, when the link resolves to this page
        or to a url among the accumulated feeds; otherwise the nested page's whole result
        is appended. */
    method Extend(link: string, resolve: Resolver, child: Child)
      modifies this
      ensures inner == Extended(old(inner), url, recursive, link, resolve, child)
      ensures old(inner) <= inner
    {
      if !recursive {
        return;
      }
      var u := resolve(url, link);
      if u == url {
        return;
      }
      if HasUrl(inner, u) {
        return;
      }
      inner := inner + child(u);
    }

    /** One pass of the card loop of `_json_to_feed`: follow the card if it links a
        playlist, then build its item if it has audio. */
    method VisitCard(card: Card, resolve: Resolver, child: Child) returns (items: seq<FeedItem>)
      modifies this
      ensures items == CardItems(url, card, resolve)
      ensures inner == ExpandAll(old(inner), url, recursive, CardLinks([card]), resolve, child)
    {
      assert [card][..0] == [];
      if card.weblink.Some? && Contains(card.weblink.value, "/playlist/") {
        Extend(card.weblink.value, resolve, child);
      }
      items := [];
      if card.audio.Some? {
        items := [ItemOf(url, card, resolve)];
      }
    }

    /** The card loop of single.py:126-157. */
    method WalkCards(cards: seq<Card>, resolve: Resolver, child: Child) returns (items: seq<FeedItem>)
      modifies this
      ensures items == ItemsOf(url, cards, resolve)
      ensures inner == ExpandAll(old(inner), url, recursive, CardLinks(cards), resolve, child)
    {
      items := [];
      for k := 0 to |cards|
        invariant items == ItemsOf(url, cards[..k], resolve)
        invariant inner == ExpandAll(old(inner), url, recursive, CardLinks(cards[..k]), resolve, child)
      {
        var more := VisitCard(cards[k], resolve, child);
        items := items + more;
        CardLinksStep(cards, k);
        ExpandAllConcat(old(inner), url, recursive, CardLinks(cards[..k]), CardLinks([cards[k]]), resolve, child);
        assert cards[..k + 1][..k] == cards[..k];
      }
      assert cards[..|cards|] == cards;
    }

    /** `_json_to_feed`: fills in the feed for the page, following the playlist cards. */
    method JsonToFeed(page: PageData, resolve: Resolver, child: Child) returns (feed: Feed)
      modifies this
      ensures feed == FeedOf(url, page, resolve)
      ensures inner == ExpandAll(old(inner), url, recursive, CardLinks(page.cards), resolve, child)
    {
      var description := page.info.description.GetOr("");
      if description == "" {
        description := page.title;
      }
      var categories := CollectCategories(page.info);
      var update := ParseStamp(page.updateDate);
      if update.None? {
        update := ParseStamp(page.trackDate);
      }
      var items := WalkCards(page.cards, resolve, child);
      feed := Feed(page.title, description, url, resolve(url, page.info.image), Author, Language,
                   OwnerEmail, categories, update, items);
    }

    /** `process(types, date_ok)` on the fetched page document (None when the request
        failed). */
    method Process(types: seq<string>, dateOk: bool, fetched: Option<PageData>,
                   resolve: Resolver, child: Child, chronoSort: ChronoSort) returns (r: Result<Outcome, Crash>)
      modifies this
      ensures WantedTypes(types).Failure? ==>
        r == Failure(BadTypeList(WantedTypes(types).error)) && inner == old(inner)
      ensures WantedTypes(types).Success? && fetched.None? ==>
        r == Success(Outcome(old(inner), None)) && inner == old(inner)
      ensures WantedTypes(types).Success? && fetched.Some? &&
              Skipped(PageTypeOf(fetched.value), WantedTypes(types).value) ==>
        r == Success(Outcome([], None)) && inner == old(inner)
      ensures WantedTypes(types).Success? && fetched.Some? &&
              !Skipped(PageTypeOf(fetched.value), WantedTypes(types).value) ==>
        inner == ExpandAll(old(inner), url, recursive, PlaylistLinks(fetched.value), resolve, child) &&
        r == Finish(url, folderPath, FeedOf(url, fetched.value, resolve), dateOk, chronoSort, inner)
    {
      var wanted := WantedTypes(types);
      if wanted.Failure? {
        return Failure(BadTypeList(wanted.error));
      }
      if fetched.None? {
        return Success(Outcome(inner, None));
      }
      var page := fetched.value;
      var typology := Lower(page.info.typology.GetOr(""));
      var pagetype := FromString(typology);
      if Serie !in pagetype {
        if pagetype * wanted.value == {} {
          return Success(Outcome([], None));
        }
      }
      ExpandTabs(page.tabs, resolve, child);
      var feed := JsonToFeed(page, resolve, child);
      ExpandAllConcat(old(inner), url, recursive, TabLinks(page.tabs), CardLinks(page.cards), resolve, child);
      r := Complete(feed, dateOk, chronoSort);
    }

    /** The tab loop of single.py:177-179. */
    method ExpandTabs(tabs: seq<Tab>, resolve: Resolver, child: Child)
      modifies this
      ensures inner == ExpandAll(old(inner), url, recursive, TabLinks(tabs), resolve, child)
    {
      for k := 0 to |tabs|
        invariant inner == ExpandAll(old(inner), url, recursive, TabLinks(tabs[..k]), resolve, child)
      {
        assert tabs[..k + 1][..k] == tabs[..k];
        if tabs[k].contentType == "playlist" {
          assert TabLinks(tabs[..k + 1]) == TabLinks(tabs[..k]) + [tabs[k].weblink];
          assert [tabs[k].weblink][..0] == [];
          ExpandAllConcat(old(inner), url, recursive, TabLinks(tabs[..k]), [tabs[k].weblink], resolve, child);
          ghost var before := inner;
          Extend(tabs[k].weblink, resolve, child);
          assert inner == ExpandAll(before, url, recursive, [tabs[k].weblink], resolve, child);
          assert inner == ExpandAll(old(inner), url, recursive, TabLinks(tabs[..k + 1]), resolve, child);
        } else {
          assert TabLinks(tabs[..k + 1]) == TabLinks(tabs[..k]);
          assert inner == ExpandAll(old(inner), url, recursive, TabLinks(tabs[..k + 1]), resolve, child);
        }
      }
      assert tabs[..|tabs|] == tabs;
    }

    /** single.py:184-225 once the feed is filled in: repair the timestamps of its items in
        place, order them, write the file and return the feed before the nested ones. */
    method Complete(feed: Feed, dateOk: bool, chronoSort: ChronoSort) returns (r: Result<Outcome, Crash>)
      ensures r == Finish(url, folderPath, feed, dateOk, chronoSort, inner)
    {
      if feed.items == [] {
        return Success(Outcome([feed] + inner, None));
      }
      var items := new FeedItem[|feed.items|](i requires 0 <= i < |feed.items| => feed.items[i]);
      assert items[..] == feed.items;
      RepairDates(items, dateOk);
      var done := feed.(items := OrderItems(items[..], chronoSort));
      var latest := LatestUpdate(done.items);
      if latest.Failure? {
        return Failure(latest.error);
      }
      var filename := PathJoin(folderPath, UrlToFilename(url));
      return Success(Outcome([done] + inner, Some(FileWrite(filename, done, latest.value))));
    }
  }
}
