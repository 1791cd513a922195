/** Episode ordering of `process` (single.py:204-221): a stable sort by
    `int(episode) + int(season) * 10000`, falling back to the key
    `str(season).zfill(5) + str(episode).zfill(5)` when a value is not an integer, and to
    the feed library's own chronological sort when an item lacks season or episode. */
module Ordering {
  import opened Wrappers
  import opened Text
  import opened Catalog

  // ---------------------------------------------------------------------------
  // Sort keys and Python's `<` on them

  datatype SortKey = Num(n: int) | Txt(s: string)

  /** `<` on two int keys or on two str keys; a single sort never mixes the two kinds. */
  predicate KeyLt(a: SortKey, b: SortKey) {
    match (a, b)
    case (Num(x), Num(y)) => x < y
    case (Txt(x), Txt(y)) => StrLt(x, y)
    case (Num(_), Txt(_)) => true
    case (Txt(_), Num(_)) => false
  }

  lemma KeyLtIrreflexive(a: SortKey)
    ensures !KeyLt(a, a)
  {
    if a.Txt? { StrLtIrreflexive(a.s); }
  }

  lemma KeyLtTransitive(a: SortKey, b: SortKey, c: SortKey)
    requires KeyLt(a, b) && KeyLt(b, c)
    ensures KeyLt(a, c)
  {
    if a.Txt? && b.Txt? && c.Txt? { StrLtTransitive(a.s, b.s, c.s); }
  }

  lemma KeyLtTotal(a: SortKey, b: SortKey)
    requires a != b
    ensures KeyLt(a, b) || KeyLt(b, a)
  {
    if a.Txt? && b.Txt? { StrLtTotal(a.s, b.s); }
  }

  lemma KeyLtAsymmetric(a: SortKey, b: SortKey)
    requires KeyLt(a, b)
    ensures !KeyLt(b, a)
  {
    if a.Txt? && b.Txt? { StrLtAsymmetric(a.s, b.s); }
  }

  /** `a <= b` for keys: not `b < a`; transitive because `<` is a strict total order. */
  lemma KeyLeTransitive(a: SortKey, b: SortKey, c: SortKey)
    requires !KeyLt(b, a) && !KeyLt(c, b)
    ensures !KeyLt(c, a)
  {
    if a != b && b != c {
      KeyLtTotal(a, b);
      KeyLtTotal(b, c);
      KeyLtTransitive(a, b, c);
      KeyLtAsymmetric(a, c);
    }
  }

  // ---------------------------------------------------------------------------
  // A stable sort of decorated values (`sorted(xs, key=...)` computes every key first)

  datatype Keyed<T> = Keyed(key: SortKey, val: T)

  /** Insert x in front of the first element whose key is not smaller. */
  function Insert<T>(x: Keyed<T>, s: seq<Keyed<T>>): (r: seq<Keyed<T>>)
    ensures |r| == |s| + 1
    decreases |s|
  {
    if s == [] then [x]
    else if KeyLt(s[0].key, x.key) then [s[0]] + Insert(x, s[1..])
    else [x] + s
  }

  function SortByKey<T>(s: seq<Keyed<T>>): (r: seq<Keyed<T>>)
    ensures |r| == |s|
    decreases |s|
  {
    if s == [] then [] else Insert(s[0], SortByKey(s[1..]))
  }

  predicate SortedByKey<T>(s: seq<Keyed<T>>) {
    forall i, j :: 0 <= i < j < |s| ==> !KeyLt(s[j].key, s[i].key)
  }

  function Values<T>(s: seq<Keyed<T>>): (r: seq<T>)
    ensures |r| == |s|
  {
    seq(|s|, i requires 0 <= i < |s| => s[i].val)
  }

  /** The elements with a given key, in order. */
  function WithKey<T>(s: seq<Keyed<T>>, k: SortKey): seq<Keyed<T>>
    decreases |s|
  {
    if s == [] then [] else (if s[0].key == k then [s[0]] else []) + WithKey(s[1..], k)
  }

  lemma {:induction false} InsertSorted<T>(x: Keyed<T>, s: seq<Keyed<T>>)
    requires SortedByKey(s)
    ensures SortedByKey(Insert(x, s))
    decreases |s|
  {
    var r := Insert(x, s);
    if s == [] {
    } else if KeyLt(s[0].key, x.key) {
      InsertSorted(x, s[1..]);
      InsertMembers(x, s[1..]);
      forall j | 1 <= j < |r| ensures !KeyLt(r[j].key, r[0].key) {
        var e := r[j];
        assert e in Insert(x, s[1..]);
        if e != x {
          var m :| 0 <= m < |s[1..]| && s[1..][m] == e;
          assert s[m + 1] == e;
        } else {
          KeyLtIrreflexive(e.key);
          if KeyLt(e.key, s[0].key) { KeyLtTransitive(e.key, s[0].key, e.key); }
        }
      }
      forall i, j | 1 <= i < j < |r| ensures !KeyLt(r[j].key, r[i].key) {
        assert r[i] == Insert(x, s[1..])[i - 1] && r[j] == Insert(x, s[1..])[j - 1];
      }
    } else {
      forall i, j | 0 <= i < j < |r| ensures !KeyLt(r[j].key, r[i].key) {
        if i == 0 {
          if j > 1 { KeyLeTransitive(x.key, s[0].key, s[j - 1].key); }
        } else {
          assert r[i] == s[i - 1] && r[j] == s[j - 1];
        }
      }
    }
  }

  lemma {:induction false} InsertMembers<T>(x: Keyed<T>, s: seq<Keyed<T>>)
    ensures multiset(Insert(x, s)) == multiset(s) + multiset{x}
    ensures forall e :: e in Insert(x, s) ==> e == x || e in s
    decreases |s|
  {
    if s != [] && KeyLt(s[0].key, x.key) {
      InsertMembers(x, s[1..]);
      assert s == [s[0]] + s[1..];
    }
  }

  lemma {:induction false} InsertValues<T>(x: Keyed<T>, s: seq<Keyed<T>>)
    ensures multiset(Values(Insert(x, s))) == multiset(Values(s)) + multiset{x.val}
    decreases |s|
  {
    if s == [] {
      assert Values([x]) == [x.val];
    } else if KeyLt(s[0].key, x.key) {
      InsertValues(x, s[1..]);
      assert Values(Insert(x, s)) == [s[0].val] + Values(Insert(x, s[1..]));
      assert Values(s) == [s[0].val] + Values(s[1..]);
    } else {
      assert Values([x] + s) == [x.val] + Values(s);
    }
  }

  lemma {:induction false} InsertWithKey<T>(x: Keyed<T>, s: seq<Keyed<T>>, k: SortKey)
    ensures WithKey(Insert(x, s), k) == (if x.key == k then [x] else []) + WithKey(s, k)
    decreases |s|
  {
    if s == [] {
      assert WithKey([x], k) == (if x.key == k then [x] else []) + WithKey([], k);
    } else if KeyLt(s[0].key, x.key) {
      InsertWithKey(x, s[1..], k);
      var r := Insert(x, s);
      assert r[1..] == Insert(x, s[1..]);
      if x.key == k { KeyLtIrreflexive(k); }
    } else {
      assert ([x] + s)[1..] == s;
    }
  }

  /** The sort returns its input sorted by key. */
  lemma {:induction false} SortByKeySorted<T>(s: seq<Keyed<T>>)
    ensures SortedByKey(SortByKey(s))
    decreases |s|
  {
    if s != [] {
      SortByKeySorted(s[1..]);
      InsertSorted(s[0], SortByKey(s[1..]));
    }
  }

  /** The sort is a permutation, of the decorated elements and of the plain values. */
  lemma {:induction false} SortByKeyPermutes<T>(s: seq<Keyed<T>>)
    ensures multiset(SortByKey(s)) == multiset(s)
    ensures multiset(Values(SortByKey(s))) == multiset(Values(s))
    decreases |s|
  {
    if s != [] {
      SortByKeyPermutes(s[1..]);
      InsertMembers(s[0], SortByKey(s[1..]));
      InsertValues(s[0], SortByKey(s[1..]));
      assert s == [s[0]] + s[1..];
      assert Values(s) == [s[0].val] + Values(s[1..]);
    }
  }

  /** The sort is stable: the elements of any one key keep their relative order. */
  lemma {:induction false} SortByKeyStable<T>(s: seq<Keyed<T>>, k: SortKey)
    ensures WithKey(SortByKey(s), k) == WithKey(s, k)
    decreases |s|
  {
    if s != [] {
      SortByKeyStable(s[1..], k);
      InsertWithKey(s[0], SortByKey(s[1..]), k);
    }
  }

  // ---------------------------------------------------------------------------
  // The keys of single.py:210-211 and 217-218

  /** `int(v)` of a JSON value; None for the ValueError. */
  function ToInt(v: Scalar): Option<int> {
    match v
    case JNum(n) => Some(n)
    case JStr(s) => ParseInt(s)
  }

  /** `str(v)` of a JSON value. */
  function ToText(v: Scalar): string {
    match v
    case JNum(n) => IntToString(n)
    case JStr(s) => s
  }

  /** `int(episode) + int(season) * 10000`, or None when either raises ValueError. */
  function NumKey(item: FeedItem): Option<int> {
    match (item.episode, item.season)
    case (Some(e), Some(se)) =>
      (match (ToInt(e), ToInt(se))
       case (Some(a), Some(b)) => Some(a + b * 10000)
       case _ => None)
    case _ => None
  }

  /** `str(season).zfill(5) + str(episode).zfill(5)`. */
  function TextKey(item: FeedItem): (k: string)
    requires item.season.Some? && item.episode.Some?
    ensures |k| >= 10
  {
    ZFill(ToText(item.season.value), 5) + ZFill(ToText(item.episode.value), 5)
  }

  /** `str(v)` is one to five decimal digits, as for a season or episode number below
      100000. */
  predicate ShortNumber(v: Scalar) {
    var t := ToText(v); 1 <= |t| <= 5 && AllDigits(t)
  }

  function NumberOf(v: Scalar): nat
    requires ShortNumber(v)
  {
    DigitsValue(ToText(v))
  }

  lemma TextKeyDigits(item: FeedItem)
    requires item.season.Some? && item.episode.Some?
    requires ShortNumber(item.season.value) && ShortNumber(item.episode.value)
    ensures var k := TextKey(item);
      |k| == 10 && AllDigits(k) &&
      DigitsValue(k) == NumberOf(item.season.value) * 100000 + NumberOf(item.episode.value) &&
      NumberOf(item.episode.value) < 100000
  {
    var zs := ZFill(ToText(item.season.value), 5);
    var ze := ZFill(ToText(item.episode.value), 5);
    ZFillDigits(ToText(item.season.value), 5);
    ZFillDigits(ToText(item.episode.value), 5);
    DigitsConcat(zs, ze);
    DigitsBound(ze);
    assert Pow10(5) == 100000;
  }

  /** For season and episode numbers below 100000 the zero-filled text key orders items
      by season, then by episode, just as the numeric key does. */
  lemma TextKeyOrder(a: FeedItem, b: FeedItem)
    requires a.season.Some? && a.episode.Some? && b.season.Some? && b.episode.Some?
    requires ShortNumber(a.season.value) && ShortNumber(a.episode.value)
    requires ShortNumber(b.season.value) && ShortNumber(b.episode.value)
    ensures StrLt(TextKey(a), TextKey(b)) <==>
      NumberOf(a.season.value) < NumberOf(b.season.value) ||
      (NumberOf(a.season.value) == NumberOf(b.season.value) && NumberOf(a.episode.value) < NumberOf(b.episode.value))
  {
    TextKeyDigits(a);
    TextKeyDigits(b);
    StrLtDigits(TextKey(a), TextKey(b));
    LexBound(NumberOf(a.season.value), NumberOf(a.episode.value),
             NumberOf(b.season.value), NumberOf(b.episode.value), 100000);
  }

  /** The items have the key the chosen sort needs. */
  predicate Keyable(item: FeedItem, numeric: bool) {
    if numeric then NumKey(item).Some? else item.season.Some? && item.episode.Some?
  }

  function KeyOf(item: FeedItem, numeric: bool): SortKey
    requires Keyable(item, numeric)
  {
    if numeric then Num(NumKey(item).value) else Txt(TextKey(item))
  }

  predicate AllKeyable(items: seq<FeedItem>, numeric: bool) {
    forall i :: 0 <= i < |items| ==> Keyable(items[i], numeric)
  }

  function Decorate(items: seq<FeedItem>, numeric: bool): (ps: seq<Keyed<FeedItem>>)
    requires AllKeyable(items, numeric)
    ensures |ps| == |items| && Values(ps) == items
  {
    seq(|items|, i requires 0 <= i < |items| => Keyed(KeyOf(items[i], numeric), items[i]))
  }

  /** `sorted(items, key=...)` with the int key (numeric) or the zero-filled str key. */
  function SortedItems(items: seq<FeedItem>, numeric: bool): seq<FeedItem>
    requires AllKeyable(items, numeric)
  {
    Values(SortByKey(Decorate(items, numeric)))
  }

  /** The items whose key is k, in order. */
  function ItemsWithKey(items: seq<FeedItem>, numeric: bool, k: SortKey): seq<FeedItem>
    requires AllKeyable(items, numeric)
    decreases |items|
  {
    if items == [] then []
    else (if KeyOf(items[0], numeric) == k then [items[0]] else []) + ItemsWithKey(items[1..], numeric, k)
  }

  lemma ValuesConcat<T>(a: seq<Keyed<T>>, b: seq<Keyed<T>>)
    ensures Values(a + b) == Values(a) + Values(b)
  {
  }

  lemma {:induction false} DecoratedWithKey(ps: seq<Keyed<FeedItem>>, numeric: bool, k: SortKey)
    requires AllKeyable(Values(ps), numeric)
    requires forall p :: p in ps ==> Keyable(p.val, numeric) && p.key == KeyOf(p.val, numeric)
    ensures Values(WithKey(ps, k)) == ItemsWithKey(Values(ps), numeric, k)
    decreases |ps|
  {
    if ps != [] {
      var vs := Values(ps);
      var tail := ps[1..];
      assert vs[1..] == Values(tail);
      assert forall p :: p in tail ==> p in ps;
      DecoratedWithKey(tail, numeric, k);
      assert ps[0] in ps;
      assert vs[0] == ps[0].val;
      var head := if ps[0].key == k then [ps[0]] else [];
      assert Values(head) == if KeyOf(vs[0], numeric) == k then [vs[0]] else [];
      ValuesConcat(head, WithKey(tail, k));
      assert ItemsWithKey(vs, numeric, k)
          == (if KeyOf(vs[0], numeric) == k then [vs[0]] else []) + ItemsWithKey(vs[1..], numeric, k);
    }
  }

  /** Every decorated element keeps the key of its own value through the sort. */
  lemma SortedConsistent(items: seq<FeedItem>, numeric: bool)
    requires AllKeyable(items, numeric)
    ensures var sorted := SortByKey(Decorate(items, numeric));
      forall p :: p in sorted ==> Keyable(p.val, numeric) && p.key == KeyOf(p.val, numeric)
  {
    var ps := Decorate(items, numeric);
    SortByKeyPermutes(ps);
    assert forall p :: p in SortByKey(ps) ==> p in multiset(ps);
  }

  /** Items with equal keys keep their relative order. */
  lemma SortedItemsStable(items: seq<FeedItem>, numeric: bool, k: SortKey)
    requires AllKeyable(items, numeric)
    ensures AllKeyable(SortedItems(items, numeric), numeric)
    ensures ItemsWithKey(SortedItems(items, numeric), numeric, k) == ItemsWithKey(items, numeric, k)
  {
    var ps := Decorate(items, numeric);
    var sorted := SortByKey(ps);
    SortedConsistent(items, numeric);
    assert forall i :: 0 <= i < |sorted| ==> Values(sorted)[i] == sorted[i].val && sorted[i] in sorted;
    DecoratedWithKey(sorted, numeric, k);
    DecoratedWithKey(ps, numeric, k);
    SortByKeyStable(ps, k);
  }

  /** The sorted items are a permutation of the items, non-decreasing in their key, and
      items with equal keys keep their order. */
  lemma SortedItemsCorrect(items: seq<FeedItem>, numeric: bool)
    requires AllKeyable(items, numeric)
    ensures var r := SortedItems(items, numeric);
      multiset(r) == multiset(items) && AllKeyable(r, numeric) &&
      (forall i, j :: 0 <= i < j < |r| ==> !KeyLt(KeyOf(r[j], numeric), KeyOf(r[i], numeric))) &&
      (forall k :: ItemsWithKey(r, numeric, k) == ItemsWithKey(items, numeric, k))
  {
    var ps := Decorate(items, numeric);
    var sorted := SortByKey(ps);
    SortByKeySorted(ps);
    SortByKeyPermutes(ps);
    SortedConsistent(items, numeric);
    var r := Values(sorted);
    assert forall i :: 0 <= i < |r| ==> r[i] == sorted[i].val && sorted[i] in sorted;
    forall k ensures ItemsWithKey(r, numeric, k) == ItemsWithKey(items, numeric, k) {
      SortedItemsStable(items, numeric, k);
    }
  }

  // ---------------------------------------------------------------------------

  /** Every item has a truthy episode and a truthy season (single.py:204-206). */
  predicate AllSeasoned(items: seq<FeedItem>) {
    forall i :: 0 <= i < |items| ==> Given(items[i].episode) && Given(items[i].season)
  }

  /** The ordering block of single.py:204-221; `chronoSort` is `Feed.sort_items`. */
  function OrderItems(items: seq<FeedItem>, chronoSort: seq<FeedItem> -> seq<FeedItem>): seq<FeedItem> {
    if AllSeasoned(items) then
      if AllKeyable(items, true) then SortedItems(items, true) else SortedItems(items, false)
    else chronoSort(items)
  }

  /** All seasons and episodes are integers: the result is a stable permutation of the
      items, non-decreasing in `episode + season * 10000`. */
  lemma OrderNumeric(items: seq<FeedItem>, chronoSort: seq<FeedItem> -> seq<FeedItem>)
    requires AllSeasoned(items) && AllKeyable(items, true)
    ensures var r := OrderItems(items, chronoSort);
      multiset(r) == multiset(items) &&
      (forall i :: 0 <= i < |r| ==> NumKey(r[i]).Some?) &&
      (forall i, j :: 0 <= i < j < |r| ==> NumKey(r[i]).value <= NumKey(r[j]).value) &&
      (forall k :: ItemsWithKey(r, true, Num(k)) == ItemsWithKey(items, true, Num(k)))
  {
    SortedItemsCorrect(items, true);
  }

  /** Some season or episode is not an integer: the result is a stable permutation of
      the items, non-decreasing in the zero-filled text key. */
  lemma OrderText(items: seq<FeedItem>, chronoSort: seq<FeedItem> -> seq<FeedItem>)
    requires AllSeasoned(items) && !AllKeyable(items, true)
    ensures var r := OrderItems(items, chronoSort);
      multiset(r) == multiset(items) && AllKeyable(r, false) &&
      (forall i, j :: 0 <= i < j < |r| ==> !StrLt(TextKey(r[j]), TextKey(r[i]))) &&
      (forall k :: ItemsWithKey(r, false, Txt(k)) == ItemsWithKey(items, false, Txt(k)))
  {
    assert AllKeyable(items, false);
    SortedItemsCorrect(items, false);
  }

  /** Otherwise the order is the feed library's. */
  lemma OrderChronological(items: seq<FeedItem>, chronoSort: seq<FeedItem> -> seq<FeedItem>)
    requires !AllSeasoned(items)
    ensures OrderItems(items, chronoSort) == chronoSort(items)
  {
  }
}
