/** The parsed JSON of a catalog page (the fields single.py reads) and the feed values
    the conversion produces. */
module Catalog {
  import opened Wrappers

  /** An entry `{"name": ...}` of a genre, subgenre, tag or product-source list. */
  datatype Named = Named(name: string)

  /** A JSON scalar as found in `season` and `episode`: a number or a string. */
  datatype Scalar = JNum(n: int) | JStr(s: string)

  /** Python truthiness of a scalar. */
  predicate Truthy(v: Scalar) {
    match v
    case JNum(n) => n != 0
    case JStr(s) => s != ""
  }

  /** A present, truthy optional scalar (`item.get(key, None)` is truthy). */
  predicate Given(v: Option<Scalar>) {
    v.Some? && Truthy(v.value)
  }

  /** `rdata["podcast_info"]`. Optional fields are the ones read with `.get`; for the
      product sources None stands for a missing "metadata" or "product_sources" key. */
  datatype PodcastInfo = PodcastInfo(
    description: Option<string>,
    image: string,
    typology: Option<string>,
    genres: seq<Named>,
    subgenres: seq<Named>,
    escapedGenres: Option<seq<Named>>,
    escapedTypology: Option<seq<Named>>,
    productSources: Option<seq<Named>>)

  /** An entry of `rdata["tab_menu"]`. */
  datatype Tab = Tab(contentType: string, weblink: string)

  /** `card["audio"]`; a missing, null or empty audio object is None. */
  datatype Audio = Audio(url: string, duration: string)

  /** An entry of `rdata["block"]["cards"]`. `downloadable` is
      `card["downloadable_audio"].get("url")`, None when either is missing or null. */
  datatype Card = Card(
    toptitle: string,
    title: string,
    uniquename: string,
    createDate: string,
    createTime: string,
    weblink: Option<string>,
    pageUrl: string,
    audio: Option<Audio>,
    downloadable: Option<string>,
    image: string,
    description: Option<string>,
    season: Option<Scalar>,
    episode: Option<Scalar>)

  /** A page document as returned by `<url>.json`. */
  datatype PageData = PageData(
    title: string,
    info: PodcastInfo,
    tabs: seq<Tab>,
    updateDate: string,
    trackDate: string,
    cards: seq<Card>)

  /** A timestamp in seconds; None when the date did not parse. */
  type Stamp = Option<int>

  /** One episode of a feed. Season and episode are the values stored under the
      itunes:season and itunes:episode keys, None when the key is absent. */
  datatype FeedItem = FeedItem(
    title: string,
    id: string,
    update: Stamp,
    url: string,
    content: string,
    enclosureType: string,
    enclosureUrl: string,
    duration: string,
    image: string,
    season: Option<Scalar>,
    episode: Option<Scalar>)

  /** One feed: the metadata of a page and its items. */
  datatype Feed = Feed(
    title: string,
    description: string,
    url: string,
    image: string,
    author: string,
    language: string,
    ownerEmail: string,
    categories: set<string>,
    update: Stamp,
    items: seq<FeedItem>)

  const Author := "RaiPlaySound"
  const Language := "it-it"
  const OwnerEmail := "timedum@gmail.com"
  const IdPrefix := "timendum-raiplaysound-"
  const EnclosureType := "audio/mpeg"

  /** `urllib.parse.urljoin(base, link)`, which the model does not interpret. */
  type Resolver = (string, string) -> string
}
