/** The mapping of `_json_to_feed` (single.py:99-157) from a page document to a feed:
    metadata, the category set and one item per card with audio. The calls to `extend`
    made from the card loop are in the Parser module. */
module FeedBuilder {
  import opened Wrappers
  import opened Text
  import opened DateParse
  import opened Catalog

  // ---------------------------------------------------------------------------
  // Categories (single.py:108-122)

  /** The names of a tag list. */
  function Names(cs: seq<Named>): set<string>
    decreases |cs|
  {
    if cs == [] then {} else Names(cs[..|cs| - 1]) + {cs[|cs| - 1].name}
  }

  lemma {:induction false} NamesMember(cs: seq<Named>, n: string)
    ensures n in Names(cs) <==> exists i :: 0 <= i < |cs| && cs[i].name == n
    decreases |cs|
  {
    if cs != [] {
      var init := cs[..|cs| - 1];
      NamesMember(init, n);
      assert forall i :: 0 <= i < |init| ==> init[i] == cs[i];
    }
  }

  lemma {:induction false} NamesConcat(a: seq<Named>, b: seq<Named>)
    ensures Names(a + b) == Names(a) + Names(b)
    decreases |b|
  {
    if b == [] {
      assert a + b == a;
    } else {
      NamesConcat(a, b[..|b| - 1]);
      assert (a + b)[..|a + b| - 1] == a + b[..|b| - 1];
    }
  }

  /** The lists chained by the first category loop; missing tag keys are empty lists. */
  function ChainedTags(info: PodcastInfo): seq<Named> {
    info.genres + info.subgenres + info.escapedGenres.GetOr([]) + info.escapedTypology.GetOr([])
  }

  /** The category set: every name of the chained lists and of the product sources. */
  function CategoryNames(info: PodcastInfo): set<string> {
    Names(ChainedTags(info)) + Names(info.productSources.GetOr([]))
  }

  /** A name is a category exactly when one of the five lists has it; a page without
      product sources contributes none of them and is no error. */
  lemma CategoryMembership(info: PodcastInfo, n: string)
    ensures n in CategoryNames(info) <==>
      n in Names(info.genres) || n in Names(info.subgenres) ||
      n in Names(info.escapedGenres.GetOr([])) || n in Names(info.escapedTypology.GetOr([])) ||
      n in Names(info.productSources.GetOr([]))
  {
    NamesConcat(info.genres, info.subgenres);
    NamesConcat(info.genres + info.subgenres, info.escapedGenres.GetOr([]));
    NamesConcat(info.genres + info.subgenres + info.escapedGenres.GetOr([]), info.escapedTypology.GetOr([]));
  }

  /** `for c in cs: categories.add(c["name"])`. */
  method AddNames(cats: set<string>, cs: seq<Named>) returns (r: set<string>)
    ensures r == cats + Names(cs)
  {
    r := cats;
    for i := 0 to |cs|
      invariant r == cats + Names(cs[..i])
    {
      assert cs[..i + 1][..i] == cs[..i];
      r := r + {cs[i].name};
    }
    assert cs[..|cs|] == cs;
  }

  /** The two category loops of `_json_to_feed`; the KeyError of a missing
      product-sources list is caught and adds nothing. */
  method CollectCategories(info: PodcastInfo) returns (cats: set<string>)
    ensures cats == CategoryNames(info)
  {
    cats := AddNames({}, ChainedTags(info));
    match info.productSources {
      case Some(sources) =>
        cats := AddNames(cats, sources);
      case None =>
    }
  }

  // ---------------------------------------------------------------------------
  // Feed metadata (single.py:100-107, 122-125)

  /** `_datetime_parser(s)` as a timestamp. */
  function ParseStamp(s: string): Stamp {
    match ParseDateTime(s)
    case Some(d) => Some(ToSeconds(d))
    case None => None
  }

  /** `podcast_info.get("description", "") or title`. */
  function FeedDescription(page: PageData): string {
    match page.info.description
    case Some(d) => if d != "" then d else page.title
    case None => page.title
  }

  /** The block's update date, else the date of the page's `track_info`. */
  function FeedUpdate(page: PageData): Stamp {
    var declared := ParseStamp(page.updateDate);
    if declared.Some? then declared else ParseStamp(page.trackDate)
  }

  // ---------------------------------------------------------------------------
  // Items (single.py:126-157)

  predicate HasAudio(card: Card) { card.audio.Some? }

  /** `card.get("downloadable_audio") and card["downloadable_audio"].get("url")`. */
  predicate HasDownload(card: Card) { card.downloadable.Some? && card.downloadable.value != "" }

  /** The feed item built from a card that has audio. */
  function ItemOf(base: string, card: Card, resolve: Resolver): (r: FeedItem)
    requires HasAudio(card)
    ensures r.season.Some? <==> r.episode.Some?
    ensures r.season.Some? ==> Given(r.season) && Given(r.episode)
  {
    var enclosure :=
      if HasDownload(card) then ForceHttps(resolve(base, card.downloadable.value))
      else resolve(base, card.audio.value.url);
    var paired := Given(card.season) && Given(card.episode);
    FeedItem(
      card.toptitle,
      IdPrefix + card.uniquename,
      ParseStamp(card.createDate + " " + card.createTime),
      resolve(base, card.pageUrl),
      card.description.GetOr(card.title),
      EnclosureType,
      enclosure,
      card.audio.value.duration,
      resolve(base, card.image),
      if paired then card.season else None,
      if paired then card.episode else None)
  }

  /** The enclosure prefers the downloadable variant, which then contains no "http:";
      season and episode are copied only as a pair of truthy values. */
  lemma ItemFields(base: string, card: Card, resolve: Resolver)
    requires HasAudio(card)
    ensures var r := ItemOf(base, card, resolve);
      r.enclosureType == "audio/mpeg" &&
      r.id == "timendum-raiplaysound-" + card.uniquename &&
      (HasDownload(card) ==> r.enclosureUrl == ForceHttps(resolve(base, card.downloadable.value)) &&
                             !Contains(r.enclosureUrl, "http:")) &&
      (!HasDownload(card) ==> r.enclosureUrl == resolve(base, card.audio.value.url)) &&
      (r.season.Some? <==> Given(card.season) && Given(card.episode)) &&
      (r.season.Some? ==> r.season == card.season && r.episode == card.episode)
  {
    if HasDownload(card) {
      ForceHttpsRemovesHttp(resolve(base, card.downloadable.value));
    }
  }

  /** The items a card contributes: none when it has no audio. */
  function CardItems(base: string, card: Card, resolve: Resolver): seq<FeedItem> {
    if HasAudio(card) then [ItemOf(base, card, resolve)] else []
  }

  /** The items of a card list, in card order. */
  function ItemsOf(base: string, cards: seq<Card>, resolve: Resolver): seq<FeedItem>
    decreases |cards|
  {
    if cards == [] then []
    else ItemsOf(base, cards[..|cards| - 1], resolve) + CardItems(base, cards[|cards| - 1], resolve)
  }

  /** The number of cards with audio. */
  function CountAudio(cards: seq<Card>): nat
    decreases |cards|
  {
    if cards == [] then 0
    else CountAudio(cards[..|cards| - 1]) + (if HasAudio(cards[|cards| - 1]) then 1 else 0)
  }

  /** The index of the card with audio that has exactly k cards with audio before it. */
  function SourceCard(cards: seq<Card>, k: nat): (j: nat)
    requires k < CountAudio(cards)
    ensures j < |cards| && HasAudio(cards[j]) && CountAudio(cards[..j]) == k
    decreases |cards|
  {
    var init := cards[..|cards| - 1];
    if k < CountAudio(init) then
      var j := SourceCard(init, k);
      assert init[..j] == cards[..j];
      j
    else
      assert cards[..|cards| - 1] == init;
      |cards| - 1
  }

  /** There is one item per card with audio, and item k comes from the k-th such card:
      cards without audio are dropped and the order of the cards is kept. */
  lemma {:induction false} ItemsFollowCards(base: string, cards: seq<Card>, resolve: Resolver, k: nat)
    ensures |ItemsOf(base, cards, resolve)| == CountAudio(cards)
    ensures k < CountAudio(cards) ==>
      ItemsOf(base, cards, resolve)[k] == ItemOf(base, cards[SourceCard(cards, k)], resolve)
    decreases |cards|
  {
    if cards != [] {
      var init := cards[..|cards| - 1];
      ItemsFollowCards(base, init, resolve, k);
      if k < CountAudio(cards) && k >= CountAudio(init) {
        assert cards[..|cards| - 1] == init;
      }
    }
  }

  /** Every item of a page has season and episode both or neither. */
  lemma {:induction false} ItemsPaired(base: string, cards: seq<Card>, resolve: Resolver, k: nat)
    requires k < |ItemsOf(base, cards, resolve)|
    ensures ItemsOf(base, cards, resolve)[k].season.Some? <==> ItemsOf(base, cards, resolve)[k].episode.Some?
  {
    ItemsFollowCards(base, cards, resolve, k);
  }

  // ---------------------------------------------------------------------------

  /** The feed `_json_to_feed` fills in for the page at `base`. */
  function FeedOf(base: string, page: PageData, resolve: Resolver): (f: Feed)
    ensures f.url == base && f.title == page.title
    ensures f.description == "" ==> page.title == ""
  {
    Feed(
      page.title,
      FeedDescription(page),
      base,
      resolve(base, page.info.image),
      Author,
      Language,
      OwnerEmail,
      CategoryNames(page.info),
      FeedUpdate(page),
      ItemsOf(base, page.cards, resolve))
  }

  /** The feed's description is the page's own when that is non-empty, else the title;
      its update is the block's date when that parses, else the track date; it holds one
      item per card with audio, in card order, and exactly the names of the category
      lists. */
  lemma FeedFields(base: string, page: PageData, resolve: Resolver)
    ensures var f := FeedOf(base, page, resolve);
      (page.info.description.Some? && page.info.description.value != "" ==>
         f.description == page.info.description.value) &&
      (page.info.description.None? || page.info.description.value == "" ==>
         f.description == page.title) &&
      (ParseDateTime(page.updateDate).Some? ==>
         f.update == Some(ToSeconds(ParseDateTime(page.updateDate).value))) &&
      (ParseDateTime(page.updateDate).None? ==> f.update == ParseStamp(page.trackDate)) &&
      |f.items| == CountAudio(page.cards) &&
      (forall k :: 0 <= k < |f.items| ==> f.items[k] == ItemOf(base, page.cards[SourceCard(page.cards, k)], resolve)) &&
      (forall n :: n in f.categories <==> n in Names(ChainedTags(page.info)) || n in Names(page.info.productSources.GetOr([])))
  {
    var z: nat := 0;
    ItemsFollowCards(base, page.cards, resolve, z);
    forall k | 0 <= k < CountAudio(page.cards)
      ensures ItemsOf(base, page.cards, resolve)[k] == ItemOf(base, page.cards[SourceCard(page.cards, k)], resolve)
    {
      ItemsFollowCards(base, page.cards, resolve, k);
    }
  }
}
