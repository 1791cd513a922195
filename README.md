# raiplaysound `single.py` in Dafny

This project models the converter in `single.py` of raiplaysound. The converter turns one
RaiPlaySound catalog page into an RSS podcast feed. The model covers:

- `url_to_filename` and `_datetime_parser`;
- the `PageTypes` flag set and its `from_string`;
- the `RaiParser` class: its constructor, `extend`, `_json_to_feed` and `process`.

The parts of `process` that are modelled:

- the type filter;
- recursive expansion of playlist links into `inner`;
- the feed fields;
- the repair of item timestamps (done in place on an array, as the Python loops do);
- the episode ordering;
- the file that `process` writes and the list of feeds it returns.

Modules:

- `Wrappers`: `Option` and `Result`.
- `Text`: the string operations the converter uses, stated on `seq<char>`:
  - `in` on strings;
  - `str.replace("http:", "https:")`;
  - `split("/")[-1]`;
  - `lower()`;
  - `int()` and `str()`;
  - `zfill`;
  - string ordering.
- `DateParse`: the three `strptime` formats of `_datetime_parser`, with the calendar and a
  timestamp in seconds. The `.date()` of a timestamp is its day number.
- `PageTypes`: the IntFlag as a set of flags, `from_string`, the `--tipi` type list, and the
  skip filter.
- `Catalog`: the JSON page document read by the converter, plus the feed and item values it
  produces.
- `FeedBuilder`: `_json_to_feed` as functions: categories, description, update date, and
  one item per card.
- `DateRepair`: the timestamp repair of `process`. It has specification functions and the
  in-place methods proved against them.
- `Ordering`: the two `sorted` calls, modelled as a stable insertion sort over keys computed
  first, followed by the `sort_items` fallback.
- `Parser`: the `RaiParser` class, with fields `url`, `folderPath`, `recursive` and `inner`,
  and the `process` result.

Three things outside this file are parameters of the model:

- `urljoin` is a `Resolver` function.
- The nested `RaiParser(url, folder).process()` is a `Child` function giving that page's
  list of feeds.
- The feed library's `sort_items` is a `ChronoSort` function.

The two repair loops, `DateRepair.BumpForward` and `DateRepair.PullDownForward`, work in place on an array. Each is specified by its effect on the array. `DateRepair.RepairDates` chooses between them by the direction test of `process`.

The HTTP request becomes an `Option<PageData>`, where `None` is a failed request. A written
file is the value `FileWrite(path, feed, mtime)`.

Where the code and its description differ, the model follows the code:

- An item's content falls back to the card title only when the card has no description key.
- A feed whose block has no parsable update date takes the date of the page's `track_info`.
- A converted page returns `[feed] + inner` even when the feed has no items. No file is
  written in that case.
- Items that all fall on one calendar day are never re-timed, since their dates both never decrease and never increase. Two cards with identical timestamps therefore keep them equal (`DateRepair.RepairUntouched`, `Parser.FinishSameDayEpisodes`).
- `from_string` tests `typology in ("serie audio")`. In Python that checks for a
  substring, not for membership in a tuple. The model keeps the substring test, so an empty
  or missing typology, "audio", "serie" and every other slice of "serie audio" make a SERIE
  page (`PageTypes.SerieAudioSlices`), and such a page is never skipped.

## Model

| member | source | states |
|---|---|---|
| Text.ForceHttpsRemovesHttp | single.py:150-153 | after `replace("http:", "https:")` no "http:" occurs anywhere in the url |
| Text.ForceHttpsKeepsSecure | single.py:150-153 | a url containing no "http:" is returned unchanged |
| Text.ForceHttpsIdempotent | single.py:150-153 | applying the replacement twice is the same as once |
| Text.LastSegmentIsFinalPart | single.py:20-21 | the last segment is a suffix of the url with no '/', preceded by '/' unless it is the whole url |
| Text.Lower | single.py:171 | lower-casing keeps the length, maps each ASCII capital to its small letter and keeps every other character |
| Text.LowerKeepsLowerCase | single.py:70-77 | text without capitals—every label `from_string` compares against—is unchanged by `lower()` |
| Text.ParseInt | single.py:210-211 | `int(s)` succeeds exactly on an optional sign followed by at least one digit |
| Text.IntToStringRoundTrip | single.py:210-218 | `int(str(n)) == n` for every integer |
| Text.NatToStringValue | single.py:217-218 | the decimal text of n is all digits and reads back as n |
| Text.ZFill | single.py:217-218 | `zfill` leaves text of at least the width alone; shorter text gets leading zeros up to the width, placed after a leading sign |
| Text.ZFillValue | single.py:217-218 | `int(s.zfill(w)) == int(s)` whenever `int(s)` succeeds |
| Text.ZFillDigits | single.py:217-218 | a digit string no longer than the width fills to exactly the width in digits of the same value |
| Text.StrLtDigits | single.py:215-219 | digit strings of the same length compare as text exactly as their values compare |
| Text.ZerosValue | single.py:217-218 | leading zeros do not change the numeric value of a digit string |
| Text.StrLtIrreflexive | single.py:215-219 | no string sorts before itself |
| Text.StrLtAsymmetric | single.py:215-219 | two strings never sort before each other |
| Text.StrLtTransitive | single.py:215-219 | string order is transitive |
| Text.StrLtTotal | single.py:215-219 | two different strings are ordered one way or the other |
| DateParse.ParseDateTime | single.py:24-39 | empty text gives None; any result is a valid date; the first format that matches wins; there is a result iff one of the three formats matches |
| DateParse.ParseDmyHmsFields | single.py:24-38 | text shaped `dd-mm-YYYY HH:MM:SS` with digit fields parses iff its fields form a valid date and time, and then to that date; otherwise the ValueError falls through the other formats to None |
| DateParse.ParseFormatDmyHms | single.py:28 | a valid date printed as `%d-%m-%Y %H:%M:%S` parses back to itself |
| DateParse.ParseFormatDmyHm | single.py:32 | a valid date printed as `%d-%m-%Y %H:%M` parses back to itself with seconds 0 |
| DateParse.ParseFormatYmd | single.py:36 | a valid date printed as `%Y-%m-%d` parses back to that day at midnight |
| DateParse.DateOfToSeconds | single.py:187 | the calendar day of a date's timestamp is that date's day number counted from 1970-01-01 |
| DateParse.DayNumberOrdersDates | single.py:187-189 | one valid date's day is earlier than another's iff its day number is smaller |
| PageTypes.FromString | single.py:67-78 | every typology maps to exactly one flag |
| PageTypes.FromStringCases | single.py:67-78 | FILM iff "film"/"fiction"; PROGRAMMA iff "programmi radio"/"informazione notiziari"; SERIE iff a substring of "serie audio"; GENERE otherwise |
| PageTypes.SerieAudioSlices | single.py:74-75 | every slice of "serie audio", the empty string included, is a SERIE typology |
| PageTypes.WantedTypes | single.py:160-162 | the union succeeds iff the list is non-empty and every name is a flag name; it then holds exactly the named flags; an empty list is its own error |
| PageTypes.FilterOnLabel | single.py:172-176 | a SERIE page is never skipped; any other page is skipped iff its flag is not wanted |
| FeedBuilder.NamesMember | single.py:115-116 | a name was collected iff some entry of the list carries it |
| FeedBuilder.AddNames | single.py:115-116 | the loop adds exactly the names of the list to the set |
| FeedBuilder.CollectCategories | single.py:108-121 | the two loops collect exactly the category names of the page |
| FeedBuilder.CategoryMembership | single.py:108-121 | a name is a category iff one of the five lists has it; missing optional lists contribute nothing |
| FeedBuilder.ItemOf | single.py:131-157 | an item has season and episode both or neither, and both are truthy when present |
| FeedBuilder.ItemFields | single.py:131-156 | the enclosure type is audio/mpeg, the id is prefixed, the downloadable url is preferred and then has no "http:", season and episode are copied only as a truthy pair |
| FeedBuilder.ItemsFollowCards | single.py:126-157 | there is one item per card with audio, and item k is built from the k-th such card |
| FeedBuilder.ItemsPaired | single.py:154-156 | every item of a page has season and episode both or neither |
| FeedBuilder.FeedOf | single.py:99-125 | the feed carries the parser's url and the page title; its description is empty only when the title is empty |
| FeedBuilder.FeedFields | single.py:100-157 | description falls back to the title, the update falls back to the track date, items follow the audio cards, categories are exactly the listed names |
| DateRepair.BothDirectionsMeansOneDay | single.py:187-189 | day lists that never decrease and never increase are constant |
| DateRepair.BumpUpOrders | single.py:192-196 | the forward walk gives strictly increasing timestamps, all after the start, none moved backwards |
| DateRepair.BumpUpAt | single.py:193-196 | each timestamp is moved only when it is not after the previous one, and then to one second after it |
| DateRepair.BumpUpKeepsOrdered | single.py:192-196 | already strictly increasing timestamps are not moved |
| DateRepair.BumpDownOrders | single.py:199-203 | the forward walk that pulls timestamps down gives strictly decreasing timestamps, all before the start, none moved forwards |
| DateRepair.BumpDownAt | single.py:200-203 | each timestamp is moved only when it is not before the previous one, and then to one second before it |
| DateRepair.BumpDownKeepsOrdered | single.py:199-203 | already strictly decreasing timestamps are not moved |
| DateRepair.RepairKeepsItems | single.py:185-203 | the repair changes only timestamps: the number, order and other fields of the items stay |
| DateRepair.RepairIncreasing | single.py:190-196 | never-decreasing, non-constant days: the repaired timestamps strictly increase and none moved back |
| DateRepair.RepairDecreasing | single.py:197-203 | never-increasing, non-constant days: the repaired timestamps strictly decrease, none moved forward, the first item unchanged |
| DateRepair.RepairUntouched | single.py:185-190 | with `date_ok`, a missing timestamp, or days going both ways or none, nothing changes |
| DateRepair.RepairIncreasingIdempotent | single.py:185-196 | repairing an increasing repair again changes nothing |
| DateRepair.DaysFollowTimes | single.py:187-188 | non-decreasing timestamps have non-decreasing days |
| DateRepair.BumpForward | single.py:192-196 | the in-place forward loop leaves the array as the increasing walk over its old timestamps |
| DateRepair.PullDownForward | single.py:199-203 | the in-place loop over the items, front to back, leaves the array as the pulling-down walk started one second after the first timestamp |
| DateRepair.RepairDates | single.py:185-203 | the array afterwards holds the repaired items of its old contents |
| Ordering.KeyLtIrreflexive | single.py:208-219 | no sort key is below itself |
| Ordering.KeyLtTransitive | single.py:208-219 | key order is transitive |
| Ordering.KeyLtTotal | single.py:208-219 | two distinct keys are ordered one way or the other |
| Ordering.SortByKeySorted | single.py:208-219 | the sort gives a list non-decreasing in key |
| Ordering.SortByKeyPermutes | single.py:208-219 | the sort gives a permutation of its input |
| Ordering.SortByKeyStable | single.py:208-219 | elements with equal keys keep their relative order |
| Ordering.TextKeyDigits | single.py:217-218 | for season and episode numbers below 100000 the text key is ten digits worth season * 100000 + episode |
| Ordering.TextKeyOrder | single.py:213-219 | for season and episode numbers below 100000 the text keys order items by season, then episode |
| Ordering.SortedItemsCorrect | single.py:208-219 | sorting items by key is a stable, non-decreasing permutation |
| Ordering.OrderNumeric | single.py:204-212 | integer seasons and episodes: a stable permutation non-decreasing in episode + season * 10000 |
| Ordering.OrderText | single.py:213-219 | some non-integer season or episode: a stable permutation non-decreasing in the zero-filled text key |
| Ordering.OrderChronological | single.py:220-221 | an item without truthy season or episode: the feed library's order |
| Parser.UrlToFilename | single.py:20-21 | the file name is the url's last '/'-segment followed by ".xml" |
| Parser.PathJoin | single.py:222 | `os.path.join`: an absolute name replaces the folder; otherwise folder, one '/' unless the folder is empty or ends in '/', then the name |
| Parser.TabLinksMembers | single.py:177-179 | a tab's link is followed iff its content type is "playlist" |
| Parser.TabLinksConcat | single.py:177-179 | tab links are followed in tab order |
| Parser.CardLinksMembers | single.py:126-128 | a card's web link is followed iff it contains "/playlist/" |
| Parser.CardLinksConcat | single.py:126-128 | card links are followed in card order |
| Parser.ExpandAllExtends | single.py:88-97 | following links only appends to the accumulated feeds |
| Parser.ExpandAllNonRecursive | single.py:89-90 | a parser that is not recursive never changes `inner` |
| Parser.ExpandAllSkipsSelf | single.py:91-93 | links that resolve to the page itself are never followed |
| Parser.ExpandAllConcat | single.py:177-181 | following two link lists in turn is following their concatenation |
| Parser.ExtendedOnce | single.py:94-95 | once a nested page has reported its feed, a second link to it adds nothing |
| Parser.MaxOf | single.py:223 | the maximum occurs in the list and bounds every element |
| Parser.LatestUpdate | single.py:223 | `max` over the timestamps succeeds iff there is one item or all items have one; a lone item gives its own update, None included; otherwise it is the latest timestamp |
| Parser.FinishShape | single.py:182-225 | the page's feed comes first, then `inner` unchanged; a file is written iff a card has audio, at folder/filename, holding that feed |
| Parser.FinishSameDayEpisodes | single.py:185-212 | same-day items keep their timestamps and, with integer season and episode, are written in episode order |
| Parser.RaiParser.constructor | single.py:82-86 | the parser stores url, folder and recursion and starts with no nested feeds |
| Parser.RaiParser.Extend | single.py:88-97 | `inner` becomes its extension by the link's nested feeds, and only grows |
| Parser.RaiParser.VisitCard | single.py:127-157 | one card follows a playlist link and contributes its item |
| Parser.RaiParser.WalkCards | single.py:126-157 | the card loop builds the page's items and follows every playlist card |
| Parser.RaiParser.JsonToFeed | single.py:99-157 | the filled-in feed is the page's feed, and `inner` has followed the playlist cards |
| Parser.RaiParser.ExpandTabs | single.py:177-179 | the tab loop follows every playlist tab |
| Parser.RaiParser.Complete | single.py:184-225 | the finished result: repaired and ordered items, the file written, the feed before `inner` |
| Parser.RaiParser.Process | single.py:159-225 | a bad type list raises; a failed request returns `inner`; a skipped page returns []; otherwise tabs then cards are followed and the finished result is returned |

## Left out

- `get_session` and its rate limiter: these are HTTP client configuration, with no logic to model.
- The HTTP request, `raise_for_status` and JSON decoding: the fetched page is an input, `None` when the request failed.
- `urljoin`: the `Resolver` parameter, whose own behaviour is not modelled.
- The nested parser's `process()`: the `Child` parameter, a total function from a url to the list of feeds that page returns. The model does not capture four things about it:
  - the nested parser's default arguments (types `['GENERE']`, `date_ok=False`);
  - an exception raised inside a nested `process()`, such as a missing JSON key or the `max` TypeError of single.py:223. In the source it escapes `extend` (single.py:97) and aborts the calling page before its file is written. The model always returns from `Child`;
  - unbounded recursion: a nested parser starts with an empty `inner` and `recursive=True` (single.py:96), so two playlists that link each other recurse without end. The model has no recursion;
  - the files that nested parsers write.
- `Feed.sort_items` and `to_rss_string` of the feed library: `sort_items` is the `ChronoSort` parameter, and serialization shows up only as the feed value inside `FileWrite`.
- `atomic_write`, `UmaskNamedTemporaryFile`, `os.utime` and `strftime('%s')`: the file system is not modelled. A write is the value `FileWrite(path, feed, mtime)`.
- Time zones: the timestamp of a date counts seconds from 1970-01-01 in the same clock, and `dt.fromtimestamp(0)` is timestamp 0.
- `DateParse.ParseDateTime`: `strptime` also accepts one-digit fields and some surrounding whitespace. The model accepts only the zero-padded, fixed-width forms.
- `Text.ParseInt`: Python's `int()` also accepts surrounding whitespace, `_` digit separators and non-ASCII decimal digits. JSON floats in season or episode are not modelled.
- `Text.Lower`: only ASCII letters are lower-cased, with no Unicode case mapping.
- `print` and logging: output only.
- `add_arguments`, `main` and `all.py`: command-line wiring around `RaiParser`. all.py is not part of this model.
- `KeyError`s and `TypeError`s from required JSON keys that are missing or null: every required field is assumed present. A `null` weblink or item description is treated like a missing one.
- `FeedBuilder.CollectCategories`: the category list is produced from a Python set, so its order is unspecified. The model keeps it as a set.
- Datetime overflow when one second is added at 9999-12-31 23:59:59: timestamps are unbounded integers.
