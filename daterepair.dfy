/** The timestamp repair of `process` (single.py:185-203): when the item dates run in one
    direction only, colliding timestamps are moved by whole seconds so that the items are
    strictly ordered in that direction. */
module DateRepair {
  import opened Wrappers
  import opened DateParse
  import opened Catalog

  predicate AllTimed(items: seq<FeedItem>) {
    forall i :: 0 <= i < |items| ==> items[i].update.Some?
  }

  function Times(items: seq<FeedItem>): (ts: seq<int>)
    requires AllTimed(items)
    ensures |ts| == |items| && forall i :: 0 <= i < |items| ==> ts[i] == items[i].update.value
  {
    seq(|items|, i requires 0 <= i < |items| => items[i].update.value)
  }

  /** `[i.update.date() for i in items]`. */
  function Days(ts: seq<int>): (ds: seq<int>)
    ensures |ds| == |ts|
  {
    seq(|ts|, i requires 0 <= i < |ts| => DateOf(ts[i]))
  }

  /** `all(map(lambda a, b: b >= a, xs[0:-1], xs[1:]))`. */
  predicate NonDecreasing(xs: seq<int>) {
    forall i :: 0 <= i < |xs| - 1 ==> xs[i] <= xs[i + 1]
  }

  /** `all(map(lambda a, b: b <= a, xs[0:-1], xs[1:]))`. */
  predicate NonIncreasing(xs: seq<int>) {
    forall i :: 0 <= i < |xs| - 1 ==> xs[i + 1] <= xs[i]
  }

  predicate StrictlyIncreasing(xs: seq<int>) {
    forall i, j :: 0 <= i < j < |xs| ==> xs[i] < xs[j]
  }

  predicate StrictlyDecreasing(xs: seq<int>) {
    forall i, j :: 0 <= i < j < |xs| ==> xs[j] < xs[i]
  }

  /** Dates that never decrease and never increase are all the same day. */
  lemma {:induction false} BothDirectionsMeansOneDay(xs: seq<int>, i: nat, j: nat)
    requires NonDecreasing(xs) && NonIncreasing(xs)
    requires i <= j < |xs|
    ensures xs[i] == xs[j]
    decreases j - i
  {
    if i < j {
      BothDirectionsMeansOneDay(xs, i + 1, j);
      assert xs[i] <= xs[i + 1] && xs[i + 1] <= xs[i];
    }
  }

  // ---------------------------------------------------------------------------
  // Forward walk for the never-decreasing case

  /** One step: a timestamp not after `last` becomes `last` plus one second. */
  function Bumped(t: int, last: int): int {
    if t <= last then last + 1 else t
  }

  /** The timestamps after walking forward from `last`. */
  function BumpUp(ts: seq<int>, last: int): (r: seq<int>)
    ensures |r| == |ts|
    decreases |ts|
  {
    if ts == [] then [] else var v := Bumped(ts[0], last); [v] + BumpUp(ts[1..], v)
  }

  /** The walk keeps the number of items, moves timestamps only forward, ends strictly
      increasing and stays after its start. */
  lemma {:induction false} BumpUpOrders(ts: seq<int>, last: int)
    ensures var r := BumpUp(ts, last);
      |r| == |ts| && StrictlyIncreasing(r) &&
      (forall i :: 0 <= i < |ts| ==> r[i] > last && r[i] >= ts[i])
    decreases |ts|
  {
    if ts != [] {
      var v := Bumped(ts[0], last);
      BumpUpOrders(ts[1..], v);
      var r := BumpUp(ts, last);
      assert forall i :: 1 <= i < |ts| ==> r[i] == BumpUp(ts[1..], v)[i - 1] && ts[i] == ts[1..][i - 1];
    }
  }

  /** Element i of the walk is the step from the element before it (from `last` for the
      first): an item moves only when it collides, and then by exactly what is needed. */
  lemma {:induction false} BumpUpAt(ts: seq<int>, last: int, i: nat)
    requires i < |ts|
    ensures |BumpUp(ts, last)| == |ts|
    ensures BumpUp(ts, last)[i] == Bumped(ts[i], if i == 0 then last else BumpUp(ts, last)[i - 1])
    decreases |ts|
  {
    BumpUpOrders(ts, last);
    if i > 0 {
      var v := Bumped(ts[0], last);
      BumpUpAt(ts[1..], v, i - 1);
      BumpUpOrders(ts[1..], v);
    }
  }

  /** Timestamps that are already strictly increasing after `last` are not moved. */
  lemma {:induction false} BumpUpKeepsOrdered(ts: seq<int>, last: int)
    requires StrictlyIncreasing(ts) && (ts != [] ==> ts[0] > last)
    ensures BumpUp(ts, last) == ts
    decreases |ts|
  {
    if ts != [] {
      BumpUpKeepsOrdered(ts[1..], ts[0]);
    }
  }

  // ---------------------------------------------------------------------------
  // Forward walk pulling timestamps down, for the never-increasing case

  /** One step: a timestamp not before `last` becomes `last` minus one second. */
  function Lowered(t: int, last: int): int {
    if t >= last then last - 1 else t
  }

  function BumpDown(ts: seq<int>, last: int): (r: seq<int>)
    ensures |r| == |ts|
    decreases |ts|
  {
    if ts == [] then [] else var v := Lowered(ts[0], last); [v] + BumpDown(ts[1..], v)
  }

  lemma {:induction false} BumpDownOrders(ts: seq<int>, last: int)
    ensures var r := BumpDown(ts, last);
      |r| == |ts| && StrictlyDecreasing(r) &&
      (forall i :: 0 <= i < |ts| ==> r[i] < last && r[i] <= ts[i])
    decreases |ts|
  {
    if ts != [] {
      var v := Lowered(ts[0], last);
      BumpDownOrders(ts[1..], v);
      var r := BumpDown(ts, last);
      assert forall i :: 1 <= i < |ts| ==> r[i] == BumpDown(ts[1..], v)[i - 1] && ts[i] == ts[1..][i - 1];
    }
  }

  lemma {:induction false} BumpDownAt(ts: seq<int>, last: int, i: nat)
    requires i < |ts|
    ensures |BumpDown(ts, last)| == |ts|
    ensures BumpDown(ts, last)[i] == Lowered(ts[i], if i == 0 then last else BumpDown(ts, last)[i - 1])
    decreases |ts|
  {
    BumpDownOrders(ts, last);
    if i > 0 {
      var v := Lowered(ts[0], last);
      BumpDownAt(ts[1..], v, i - 1);
      BumpDownOrders(ts[1..], v);
    }
  }

  lemma {:induction false} BumpDownKeepsOrdered(ts: seq<int>, last: int)
    requires StrictlyDecreasing(ts) && (ts != [] ==> ts[0] < last)
    ensures BumpDown(ts, last) == ts
    decreases |ts|
  {
    if ts != [] {
      BumpDownKeepsOrdered(ts[1..], ts[0]);
    }
  }

  // ---------------------------------------------------------------------------
  // The repair as a whole

  /** The items with their timestamps replaced, every other field kept. */
  function Retimed(items: seq<FeedItem>, ts: seq<int>): (r: seq<FeedItem>)
    requires |ts| == |items|
    ensures |r| == |items|
  {
    seq(|items|, i requires 0 <= i < |items| => items[i].(update := Some(ts[i])))
  }

  /** Which repair applies: 1 for the never-decreasing walk, -1 for the never-increasing
      walk, 0 for none. */
  function Direction(items: seq<FeedItem>, dateOk: bool): int {
    if dateOk || !AllTimed(items) then 0
    else
      var days := Days(Times(items));
      if NonDecreasing(days) && !NonIncreasing(days) then 1
      else if NonIncreasing(days) && !NonDecreasing(days) then -1
      else 0
  }

  /** The items after the repair of single.py:185-203. */
  function Repaired(items: seq<FeedItem>, dateOk: bool): (r: seq<FeedItem>)
    ensures |r| == |items|
  {
    var dir := Direction(items, dateOk);
    if dir == 1 then Retimed(items, BumpUp(Times(items), 0))
    else if dir == -1 then
      var ts := Times(items);
      assert !NonDecreasing(Days(ts));
      Retimed(items, BumpDown(ts, ts[0] + 1))
    else items
  }

  /** The repair changes timestamps only: item count, order and every other field stay. */
  lemma RepairKeepsItems(items: seq<FeedItem>, dateOk: bool, i: nat)
    requires i < |items|
    ensures Repaired(items, dateOk)[i].(update := items[i].update) == items[i]
  {
  }

  /** Never-decreasing, not constant dates: the repaired timestamps strictly increase and
      none moved backwards. */
  lemma RepairIncreasing(items: seq<FeedItem>, dateOk: bool)
    requires Direction(items, dateOk) == 1
    ensures var r := Repaired(items, dateOk);
      AllTimed(r) && StrictlyIncreasing(Times(r)) &&
      forall i :: 0 <= i < |items| ==> Times(r)[i] >= Times(items)[i]
  {
    var ts := Times(items);
    BumpUpOrders(ts, 0);
    var r := Repaired(items, dateOk);
    assert Times(r) == BumpUp(ts, 0);
  }

  /** Never-increasing, not constant dates: the repaired timestamps strictly decrease,
      none moved forwards, and the first item keeps its timestamp. */
  lemma RepairDecreasing(items: seq<FeedItem>, dateOk: bool)
    requires Direction(items, dateOk) == -1
    ensures var r := Repaired(items, dateOk);
      |r| > 0 && AllTimed(r) && StrictlyDecreasing(Times(r)) && r[0] == items[0] &&
      forall i :: 0 <= i < |items| ==> Times(r)[i] <= Times(items)[i]
  {
    var ts := Times(items);
    assert !NonDecreasing(Days(ts));
    BumpDownOrders(ts, ts[0] + 1);
    BumpDownAt(ts, ts[0] + 1, 0);
    var r := Repaired(items, dateOk);
    assert Times(r) == BumpDown(ts, ts[0] + 1);
  }

  /** With date repair turned off, an item without timestamp, dates all on one day, or
      dates going both ways, nothing changes. */
  lemma RepairUntouched(items: seq<FeedItem>, dateOk: bool)
    requires dateOk || !AllTimed(items) ||
             NonDecreasing(Days(Times(items))) == NonIncreasing(Days(Times(items)))
    ensures Repaired(items, dateOk) == items
  {
  }

  /** Repairing what the never-decreasing walk produced changes nothing more. */
  lemma RepairIncreasingIdempotent(items: seq<FeedItem>, dateOk: bool)
    requires Direction(items, dateOk) == 1
    ensures var r := Repaired(items, dateOk); Direction(r, dateOk) != -1 && Repaired(r, dateOk) == r
  {
    var ts := Times(items);
    BumpUpOrders(ts, 0);
    var r := Repaired(items, dateOk);
    var rs := Times(r);
    assert rs == BumpUp(ts, 0);
    if Direction(r, dateOk) == 1 {
      BumpUpKeepsOrdered(rs, 0);
      assert Retimed(r, rs) == r;
    }
    DaysFollowTimes(rs);
  }

  /** Non-decreasing timestamps fall on non-decreasing days. */
  lemma DaysFollowTimes(ts: seq<int>)
    requires NonDecreasing(ts)
    ensures NonDecreasing(Days(ts))
  {
    forall i | 0 <= i < |ts| - 1 ensures Days(ts)[i] <= Days(ts)[i + 1] {
      DateOfMonotone(ts[i], ts[i + 1]);
    }
  }

  lemma DateOfMonotone(a: int, b: int)
    requires a <= b
    ensures DateOf(a) <= DateOf(b)
  {
  }

  // ---------------------------------------------------------------------------

  /** The forward loop of single.py:192-196, from the epoch `dt.fromtimestamp(0)`. */
  method BumpForward(items: array<FeedItem>)
    requires AllTimed(items[..])
    modifies items
    ensures items[..] == Retimed(old(items[..]), BumpUp(Times(old(items[..])), 0))
  {
    ghost var ts := Times(items[..]);
    ghost var want := BumpUp(ts, 0);
    var last := 0;
    var i := 0;
    while i < items.Length
      invariant 0 <= i <= items.Length
      invariant forall k :: 0 <= k < i ==> items[k] == old(items[k]).(update := Some(want[k]))
      invariant forall k :: i <= k < items.Length ==> items[k] == old(items[k])
      invariant last == if i == 0 then 0 else want[i - 1]
    {
      BumpUpAt(ts, 0, i);
      if items[i].update.value <= last {
        items[i] := items[i].(update := Some(last + 1));
      }
      last := items[i].update.value;
      i := i + 1;
    }
    assert items[..] == Retimed(old(items[..]), want);
  }

  /** The loop of single.py:199-203, starting one second after the first item. */
  method PullDownForward(items: array<FeedItem>)
    requires AllTimed(items[..]) && items.Length > 0
    modifies items
    ensures var ts := Times(old(items[..])); items[..] == Retimed(old(items[..]), BumpDown(ts, ts[0] + 1))
  {
    ghost var ts := Times(items[..]);
    ghost var first := ts[0] + 1;
    ghost var want := BumpDown(ts, first);
    var last := items[0].update.value + 1;
    var i := 0;
    while i < items.Length
      invariant 0 <= i <= items.Length
      invariant forall k :: 0 <= k < i ==> items[k] == old(items[k]).(update := Some(want[k]))
      invariant forall k :: i <= k < items.Length ==> items[k] == old(items[k])
      invariant last == if i == 0 then first else want[i - 1]
    {
      BumpDownAt(ts, first, i);
      if items[i].update.value >= last {
        items[i] := items[i].(update := Some(last - 1));
      }
      last := items[i].update.value;
      i := i + 1;
    }
    assert items[..] == Retimed(old(items[..]), want);
  }

  /** The repair block of single.py:185-203 on the feed's items, changed in place. */
  method RepairDates(items: array<FeedItem>, dateOk: bool)
    modifies items
    ensures items[..] == Repaired(old(items[..]), dateOk)
  {
    if dateOk || !AllTimed(items[..]) {
      return;
    }
    var dates := Days(Times(items[..]));
    var increasing := NonDecreasing(dates);
    var decreasing := NonIncreasing(dates);
    if increasing && !decreasing {
      BumpForward(items);
    } else if decreasing && !increasing {
      PullDownForward(items);
    }
  }
}
