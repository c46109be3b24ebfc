/**
 * The dashboard's activity charts: one bucket per month counting the liked
 * videos, playlists and subscriptions published in it, and the three-slice
 * breakdown of the totals.  Each record enters as the calendar month of its
 * `publishedAt`.
 */
module AnalyticsUtils {
  import opened Calendar
  import opened Sorting
  import opened Ranking

  /** `CHART_COLORS`. */
  const LikesColor := "#FF5252"
  const PlaylistsColor := "#4CAF50"
  const SubscriptionsColor := "#2196F3"

  /** The three kinds of activity. */
  datatype Activity = Likes | Playlists | Subscriptions

  /** One month of the activity chart, `{ name, likes, playlists, subscriptions, total }`; `name` is `Label(key)`. */
  datatype ActivityMonth = ActivityMonth(key: CalendarMonth, likes: nat, playlists: nat, subscriptions: nat, total: nat)

  function Counter(a: ActivityMonth, kind: Activity): nat {
    match kind
    case Likes => a.likes
    case Playlists => a.playlists
    case Subscriptions => a.subscriptions
  }

  /** A month seen for the first time: all counters at zero. */
  function EmptyMonth(k: CalendarMonth): (r: ActivityMonth)
    ensures r.key == k && r.total == 0 && forall kind :: Counter(r, kind) == 0
  {
    ActivityMonth(k, 0, 0, 0, 0)
  }

  /** `monthData.<kind> += 1; monthData.total += 1`. */
  function Bump(a: ActivityMonth, kind: Activity): (r: ActivityMonth)
    ensures r.key == a.key && r.total == a.total + 1
    ensures Counter(r, kind) == Counter(a, kind) + 1
    ensures forall other :: other != kind ==> Counter(r, other) == Counter(a, other)
  {
    match kind
    case Likes => a.(likes := a.likes + 1, total := a.total + 1)
    case Playlists => a.(playlists := a.playlists + 1, total := a.total + 1)
    case Subscriptions => a.(subscriptions := a.subscriptions + 1, total := a.total + 1)
  }

  /** The bucket month `k` should hold: the number of records of each kind in it, and their sum. */
  ghost function Expected(k: CalendarMonth, likes: seq<CalendarMonth>, playlists: seq<CalendarMonth>,
                          subscriptions: seq<CalendarMonth>): ActivityMonth {
    var l, p, s := multiset(likes)[k], multiset(playlists)[k], multiset(subscriptions)[k];
    ActivityMonth(k, l, p, s, l + p + s)
  }

  /**
   * `order` and `monthMap` are the state of the month map after the records
   * `likes`, `playlists` and `subscriptions`: one bucket per month any of them
   * falls in, in order of first sight, each holding `Expected`.
   */
  ghost predicate ActivityTally(order: seq<CalendarMonth>, monthMap: map<CalendarMonth, ActivityMonth>,
                                likes: seq<CalendarMonth>, playlists: seq<CalendarMonth>,
                                subscriptions: seq<CalendarMonth>) {
    && Distinct(order)
    && (forall k :: k in order <==> k in monthMap)
    && (forall k :: k in monthMap <==> k in likes || k in playlists || k in subscriptions)
    && (forall k :: k in monthMap ==> monthMap[k] == Expected(k, likes, playlists, subscriptions))
  }

  /** `s`, with `k` appended when `kind` is `of`. */
  function Extend(s: seq<CalendarMonth>, kind: Activity, of: Activity, k: CalendarMonth): seq<CalendarMonth> {
    if kind == of then s + [k] else s
  }

  lemma ExtendCount(s: seq<CalendarMonth>, kind: Activity, of: Activity, k: CalendarMonth, k': CalendarMonth)
    ensures multiset(Extend(s, kind, of, k))[k'] == multiset(s)[k'] + (if kind == of && k' == k then 1 else 0)
    ensures k' in Extend(s, kind, of, k) <==> k' in s || (kind == of && k' == k)
  {
    if kind == of {
      assert multiset(s + [k]) == multiset(s) + multiset{k};
    }
  }

  /** `s`, with all of `months` appended when `kind` is `of`. */
  function ExtendAll(s: seq<CalendarMonth>, kind: Activity, of: Activity, months: seq<CalendarMonth>): seq<CalendarMonth> {
    if kind == of then s + months else s
  }

  lemma ExtendAllStep(s: seq<CalendarMonth>, kind: Activity, of: Activity, months: seq<CalendarMonth>, i: nat)
    requires i < |months|
    ensures Extend(ExtendAll(s, kind, of, months[..i]), kind, of, months[i]) == ExtendAll(s, kind, of, months[..i + 1])
  {
    assert months[..i + 1] == months[..i] + [months[i]];
    assert s + months[..i] + [months[i]] == s + months[..i + 1];
  }

  lemma ActivityStepOrder(order: seq<CalendarMonth>, monthMap: map<CalendarMonth, ActivityMonth>, k: CalendarMonth)
    requires Distinct(order) && forall k' :: k' in order <==> k' in monthMap
    ensures var order' := if k in monthMap then order else order + [k];
            Distinct(order')
  {
    var order' := if k in monthMap then order else order + [k];
    if k !in monthMap {
      forall i, j | 0 <= i < j < |order'| ensures order'[i] != order'[j] {
        if j == |order| { assert order'[i] in order; }
      }
    }
  }

  lemma ActivityStepKeys(monthMap: map<CalendarMonth, ActivityMonth>, m': map<CalendarMonth, ActivityMonth>,
                         likes: seq<CalendarMonth>, playlists: seq<CalendarMonth>, subscriptions: seq<CalendarMonth>,
                         k: CalendarMonth, kind: Activity)
    requires forall k' :: k' in monthMap <==> k' in likes || k' in playlists || k' in subscriptions
    requires m'.Keys == monthMap.Keys + {k}
    ensures forall k' :: k' in m' <==> k' in Extend(likes, kind, Likes, k) || k' in Extend(playlists, kind, Playlists, k)
                                       || k' in Extend(subscriptions, kind, Subscriptions, k)
  {
    forall k'
      ensures k' in m' <==> k' in Extend(likes, kind, Likes, k) || k' in Extend(playlists, kind, Playlists, k)
                            || k' in Extend(subscriptions, kind, Subscriptions, k)
    {
      ExtendCount(likes, kind, Likes, k, k');
      ExtendCount(playlists, kind, Playlists, k, k');
      ExtendCount(subscriptions, kind, Subscriptions, k, k');
    }
  }

  lemma ActivityStepValue(old_: ActivityMonth, k: CalendarMonth, kind: Activity,
                          likes: seq<CalendarMonth>, playlists: seq<CalendarMonth>, subscriptions: seq<CalendarMonth>)
    requires old_ == Expected(k, likes, playlists, subscriptions)
    ensures Bump(old_, kind) == Expected(k, Extend(likes, kind, Likes, k), Extend(playlists, kind, Playlists, k),
                                         Extend(subscriptions, kind, Subscriptions, k))
  {
    ExtendCount(likes, kind, Likes, k, k);
    ExtendCount(playlists, kind, Playlists, k, k);
    ExtendCount(subscriptions, kind, Subscriptions, k, k);
  }

  lemma ActivityStepOthers(k: CalendarMonth, k': CalendarMonth, kind: Activity,
                           likes: seq<CalendarMonth>, playlists: seq<CalendarMonth>, subscriptions: seq<CalendarMonth>)
    requires k' != k
    ensures Expected(k', likes, playlists, subscriptions) ==
            Expected(k', Extend(likes, kind, Likes, k), Extend(playlists, kind, Playlists, k),
                     Extend(subscriptions, kind, Subscriptions, k))
  {
    ExtendCount(likes, kind, Likes, k, k');
    ExtendCount(playlists, kind, Playlists, k, k');
    ExtendCount(subscriptions, kind, Subscriptions, k, k');
  }

  /** One step of the counting loop keeps `ActivityTally`. */
  lemma ActivityStep(order: seq<CalendarMonth>, monthMap: map<CalendarMonth, ActivityMonth>,
                     likes: seq<CalendarMonth>, playlists: seq<CalendarMonth>, subscriptions: seq<CalendarMonth>,
                     k: CalendarMonth, kind: Activity)
    requires ActivityTally(order, monthMap, likes, playlists, subscriptions)
    ensures var order' := if k in monthMap then order else order + [k];
            var seeded := if k in monthMap then monthMap else monthMap[k := EmptyMonth(k)];
            ActivityTally(order', seeded[k := Bump(seeded[k], kind)],
                          Extend(likes, kind, Likes, k), Extend(playlists, kind, Playlists, k),
                          Extend(subscriptions, kind, Subscriptions, k))
  {
    var order' := if k in monthMap then order else order + [k];
    var seeded := if k in monthMap then monthMap else monthMap[k := EmptyMonth(k)];
    var m' := seeded[k := Bump(seeded[k], kind)];
    ActivityStepOrder(order, monthMap, k);
    ActivityStepKeys(monthMap, m', likes, playlists, subscriptions, k, kind);
    if k !in monthMap {
      assert k !in multiset(likes) && k !in multiset(playlists) && k !in multiset(subscriptions);
    }
    ActivityStepValue(seeded[k], k, kind, likes, playlists, subscriptions);
    forall k' | k' in m' && k' != k
      ensures m'[k'] == Expected(k', Extend(likes, kind, Likes, k), Extend(playlists, kind, Playlists, k),
                                 Extend(subscriptions, kind, Subscriptions, k))
    {
      ActivityStepOthers(k, k', kind, likes, playlists, subscriptions);
    }
  }

  /**
   * One of the three loops of `generateMonthlyActivityData`: each record of
   * kind `kind` creates its month's bucket on first sight, then bumps the
   * kind's counter and the total.
   */
  method AddActivity(order: seq<CalendarMonth>, monthMap: map<CalendarMonth, ActivityMonth>,
                     months: seq<CalendarMonth>, kind: Activity,
                     ghost likes: seq<CalendarMonth>, ghost playlists: seq<CalendarMonth>,
                     ghost subscriptions: seq<CalendarMonth>)
    returns (order': seq<CalendarMonth>, monthMap': map<CalendarMonth, ActivityMonth>)
    requires ActivityTally(order, monthMap, likes, playlists, subscriptions)
    ensures ActivityTally(order', monthMap', ExtendAll(likes, kind, Likes, months),
                          ExtendAll(playlists, kind, Playlists, months),
                          ExtendAll(subscriptions, kind, Subscriptions, months))
  {
    order', monthMap' := order, monthMap;
    ghost var l, p, sub := likes, playlists, subscriptions;
    assert months[..0] == [];
    assert likes + [] == likes && playlists + [] == playlists && subscriptions + [] == subscriptions;
    for i := 0 to |months|
      invariant l == ExtendAll(likes, kind, Likes, months[..i])
      invariant p == ExtendAll(playlists, kind, Playlists, months[..i])
      invariant sub == ExtendAll(subscriptions, kind, Subscriptions, months[..i])
      invariant ActivityTally(order', monthMap', l, p, sub)
    {
      var monthYear := months[i];
      ActivityStep(order', monthMap', l, p, sub, monthYear, kind);
      ExtendAllStep(likes, kind, Likes, months, i);
      ExtendAllStep(playlists, kind, Playlists, months, i);
      ExtendAllStep(subscriptions, kind, Subscriptions, months, i);
      if monthYear !in monthMap' {
        monthMap' := monthMap'[monthYear := EmptyMonth(monthYear)];
        order' := order' + [monthYear];
      }
      monthMap' := monthMap'[monthYear := Bump(monthMap'[monthYear], kind)];
      l, p, sub := Extend(l, kind, Likes, monthYear), Extend(p, kind, Playlists, monthYear),
                   Extend(sub, kind, Subscriptions, monthYear);
    }
    assert months[..|months|] == months;
  }

  /** The buckets of the month map in insertion order, `Array.from(monthMap.values())`. */
  function Values(order: seq<CalendarMonth>, monthMap: map<CalendarMonth, ActivityMonth>): (r: seq<ActivityMonth>)
    requires forall k :: k in order ==> k in monthMap
    ensures |r| == |order|
    ensures forall i :: 0 <= i < |r| ==> r[i] == monthMap[order[i]]
  {
    seq(|order|, i requires 0 <= i < |order| => monthMap[order[i]])
  }

  function MonthKeys(s: seq<ActivityMonth>): (r: seq<CalendarMonth>)
    ensures |r| == |s| && forall i :: 0 <= i < |s| ==> r[i] == s[i].key
  {
    seq(|s|, i requires 0 <= i < |s| => s[i].key)
  }

  /** The sort key of the chronological comparator. */
  function ByActivityMonth(a: ActivityMonth): int {
    Chronological(a.key)
  }

  /** Sum of one counter over the buckets. */
  ghost function SumOf(s: seq<ActivityMonth>, kind: Activity): nat {
    if s == [] then 0 else Counter(s[0], kind) + SumOf(s[1..], kind)
  }

  /** Sum of the totals over the buckets. */
  ghost function SumTotals(s: seq<ActivityMonth>): nat {
    if s == [] then 0 else s[0].total + SumTotals(s[1..])
  }

  lemma {:induction false} SumOfIsSumOccurrences(s: seq<ActivityMonth>, kind: Activity, keys: seq<CalendarMonth>)
    requires forall e :: e in s ==> Counter(e, kind) == multiset(keys)[e.key]
    ensures SumOf(s, kind) == SumOccurrences(MonthKeys(s), keys)
  {
    if s != [] {
      SumOfIsSumOccurrences(s[1..], kind, keys);
      assert MonthKeys(s)[1..] == MonthKeys(s[1..]);
    }
  }

  lemma {:induction false} SumTotalsIsSumOfCounters(s: seq<ActivityMonth>)
    requires forall e :: e in s ==> e.total == e.likes + e.playlists + e.subscriptions
    ensures SumTotals(s) == SumOf(s, Likes) + SumOf(s, Playlists) + SumOf(s, Subscriptions)
  {
    if s != [] {
      SumTotalsIsSumOfCounters(s[1..]);
    }
  }

  /**
   * Buckets over distinct months that cover every record and hold `Expected`
   * add up, counter by counter, to the number of records of that kind: no
   * record is lost or counted twice.
   */
  lemma MonthlyTotals(r: seq<ActivityMonth>, likes: seq<CalendarMonth>, playlists: seq<CalendarMonth>,
                      subscriptions: seq<CalendarMonth>)
    requires Distinct(MonthKeys(r))
    requires forall k :: k in likes || k in playlists || k in subscriptions ==> k in MonthKeys(r)
    requires forall e :: e in r ==> e == Expected(e.key, likes, playlists, subscriptions)
    ensures SumOf(r, Likes) == |likes|
    ensures SumOf(r, Playlists) == |playlists|
    ensures SumOf(r, Subscriptions) == |subscriptions|
    ensures SumTotals(r) == |likes| + |playlists| + |subscriptions|
  {
    SumOfIsSumOccurrences(r, Likes, likes);
    SumOccurrencesIsLength(MonthKeys(r), likes);
    SumOfIsSumOccurrences(r, Playlists, playlists);
    SumOccurrencesIsLength(MonthKeys(r), playlists);
    SumOfIsSumOccurrences(r, Subscriptions, subscriptions);
    SumOccurrencesIsLength(MonthKeys(r), subscriptions);
    SumTotalsIsSumOfCounters(r);
  }

  /** A permutation of buckets that hold `Expected` for distinct months still has distinct months. */
  lemma PermutedBucketsDistinct(values: seq<ActivityMonth>, r: seq<ActivityMonth>,
                                likes: seq<CalendarMonth>, playlists: seq<CalendarMonth>, subscriptions: seq<CalendarMonth>)
    requires multiset(r) == multiset(values)
    requires Distinct(MonthKeys(values))
    requires forall e :: e in values ==> e == Expected(e.key, likes, playlists, subscriptions)
    ensures Distinct(MonthKeys(r))
  {
    forall i, j | 0 <= i < j < |r| ensures MonthKeys(r)[i] != MonthKeys(r)[j] {
      if r[i].key == r[j].key {
        assert r[i] in multiset(values) && r[j] in multiset(values);
        assert r[i] == r[j];
        MultiplicityOfRepeated(r, i, j);
        forall a, b | 0 <= a < b < |values| ensures values[a] != values[b] {
          assert MonthKeys(values)[a] != MonthKeys(values)[b];
        }
        MultiplicityOfDistinct(values, r[i]);
        assert false;
      }
    }
  }

  /** Sorted by `ByActivityMonth`, buckets over distinct months are strictly chronological. */
  lemma SortedDistinctIsStrict(r: seq<ActivityMonth>)
    requires SortedBy(r, ByActivityMonth)
    requires Distinct(MonthKeys(r))
    ensures forall i, j :: 0 <= i < j < |r| ==> Chronological(r[i].key) < Chronological(r[j].key)
  {
    forall i, j | 0 <= i < j < |r| ensures Chronological(r[i].key) < Chronological(r[j].key) {
      assert ByActivityMonth(r[i]) <= ByActivityMonth(r[j]);
      assert MonthKeys(r)[i] != MonthKeys(r)[j];
      if Chronological(r[i].key) == Chronological(r[j].key) {
        assert false;
      }
    }
  }

  /**
   * `generateMonthlyActivityData`: one bucket per month in which any liked
   * video, playlist or subscription was published, holding how many of each
   * and their total, sorted from the earliest month to the latest as the name
   * comparator orders them.  Counter by counter, the buckets add up to the
   * number of records of that kind.
   */
  method GenerateMonthlyActivityData(likedVideos: seq<CalendarMonth>, playlists: seq<CalendarMonth>,
                                     subscriptions: seq<CalendarMonth>) returns (r: seq<ActivityMonth>)
    ensures forall i, j :: 0 <= i < j < |r| ==> Chronological(r[i].key) < Chronological(r[j].key)
    ensures forall i, j :: 0 <= i < j < |r| ==> CompareMonthNames(Label(r[i].key), Label(r[j].key)) < 0
    ensures forall k :: k in MonthKeys(r) <==> k in likedVideos || k in playlists || k in subscriptions
    ensures forall e :: e in r ==> e == Expected(e.key, likedVideos, playlists, subscriptions)
    ensures forall e :: e in r ==> e.total == e.likes + e.playlists + e.subscriptions
    ensures SumOf(r, Likes) == |likedVideos| && SumOf(r, Playlists) == |playlists|
    ensures SumOf(r, Subscriptions) == |subscriptions|
    ensures SumTotals(r) == |likedVideos| + |playlists| + |subscriptions|
  {
    var order: seq<CalendarMonth> := [];
    var monthMap: map<CalendarMonth, ActivityMonth> := map[];
    order, monthMap := AddActivity(order, monthMap, likedVideos, Likes, [], [], []);
    assert [] + likedVideos == likedVideos;
    order, monthMap := AddActivity(order, monthMap, playlists, Playlists, likedVideos, [], []);
    assert [] + playlists == playlists;
    order, monthMap := AddActivity(order, monthMap, subscriptions, Subscriptions, likedVideos, playlists, []);
    assert [] + subscriptions == subscriptions;
    var values := Values(order, monthMap);
    r := SortBy(values, ByActivityMonth);
    SortedBuckets(order, monthMap, values, r, likedVideos, playlists, subscriptions);
  }

  /** The buckets of the month map cover the months of all records and hold `Expected`. */
  lemma ValuesOfTally(order: seq<CalendarMonth>, monthMap: map<CalendarMonth, ActivityMonth>,
                      likes: seq<CalendarMonth>, playlists: seq<CalendarMonth>, subscriptions: seq<CalendarMonth>)
    requires ActivityTally(order, monthMap, likes, playlists, subscriptions)
    ensures MonthKeys(Values(order, monthMap)) == order
    ensures forall e :: e in Values(order, monthMap) ==> e == Expected(e.key, likes, playlists, subscriptions)
  {
    var values := Values(order, monthMap);
    forall e | e in values ensures e == Expected(e.key, likes, playlists, subscriptions) {
      var i :| 0 <= i < |values| && values[i] == e;
      assert order[i] in order;
    }
  }

  /** A permutation of the buckets has the same months. */
  lemma PermutedKeys(values: seq<ActivityMonth>, r: seq<ActivityMonth>)
    requires multiset(r) == multiset(values)
    ensures forall k :: k in MonthKeys(r) <==> k in MonthKeys(values)
  {
    forall k ensures k in MonthKeys(r) <==> k in MonthKeys(values) {
      if k in MonthKeys(r) {
        var i :| 0 <= i < |r| && MonthKeys(r)[i] == k;
        assert r[i] in multiset(values);
        var j :| 0 <= j < |values| && values[j] == r[i];
        assert MonthKeys(values)[j] == k;
      }
      if k in MonthKeys(values) {
        var j :| 0 <= j < |values| && MonthKeys(values)[j] == k;
        assert values[j] in multiset(r);
        var i :| 0 <= i < |r| && r[i] == values[j];
        assert MonthKeys(r)[i] == k;
      }
    }
  }

  /** The properties of the sorted buckets, from the state the three loops leave. */
  lemma SortedBuckets(order: seq<CalendarMonth>, monthMap: map<CalendarMonth, ActivityMonth>,
                      values: seq<ActivityMonth>, r: seq<ActivityMonth>,
                      likes: seq<CalendarMonth>, playlists: seq<CalendarMonth>, subscriptions: seq<CalendarMonth>)
    requires ActivityTally(order, monthMap, likes, playlists, subscriptions)
    requires values == Values(order, monthMap)
    requires r == SortBy(values, ByActivityMonth)
    ensures forall i, j :: 0 <= i < j < |r| ==> Chronological(r[i].key) < Chronological(r[j].key)
    ensures forall i, j :: 0 <= i < j < |r| ==> CompareMonthNames(Label(r[i].key), Label(r[j].key)) < 0
    ensures forall k :: k in MonthKeys(r) <==> k in likes || k in playlists || k in subscriptions
    ensures forall e :: e in r ==> e == Expected(e.key, likes, playlists, subscriptions)
    ensures forall e :: e in r ==> e.total == e.likes + e.playlists + e.subscriptions
    ensures SumOf(r, Likes) == |likes| && SumOf(r, Playlists) == |playlists|
    ensures SumOf(r, Subscriptions) == |subscriptions|
    ensures SumTotals(r) == |likes| + |playlists| + |subscriptions|
  {
    ValuesOfTally(order, monthMap, likes, playlists, subscriptions);
    PermutedBucketsDistinct(values, r, likes, playlists, subscriptions);
    SortedDistinctIsStrict(r);
    PermutedKeys(values, r);
    forall e | e in r ensures e == Expected(e.key, likes, playlists, subscriptions) {
      assert e in multiset(values);
    }
    forall i, j | 0 <= i < j < |r| ensures CompareMonthNames(Label(r[i].key), Label(r[j].key)) < 0 {
      CompareLabels(r[i].key, r[j].key);
    }
    MonthlyTotals(r, likes, playlists, subscriptions);
  }

  /** One slice of the activity pie, `{ name, value, color }`. */
  datatype BreakdownSlice = BreakdownSlice(name: string, value: nat, color: string)

  /**
   * `generateActivityBreakdownData`: the Likes, Playlists and Subscriptions
   * slices, in that order, each the number of records of its kind in its chart
   * color.
   */
  function GenerateActivityBreakdownData(likedVideos: seq<CalendarMonth>, playlists: seq<CalendarMonth>,
                                         subscriptions: seq<CalendarMonth>): (r: seq<BreakdownSlice>)
    ensures |r| == 3
    ensures r[0].name == "Likes" && r[1].name == "Playlists" && r[2].name == "Subscriptions"
    ensures r[0].color != r[1].color && r[1].color != r[2].color && r[0].color != r[2].color
    ensures r[0].value == |likedVideos| && r[1].value == |playlists| && r[2].value == |subscriptions|
  {
    [ BreakdownSlice("Likes", |likedVideos|, LikesColor),
      BreakdownSlice("Playlists", |playlists|, PlaylistsColor),
      BreakdownSlice("Subscriptions", |subscriptions|, SubscriptionsColor) ]
  }

  /**
   * The pie and the monthly chart agree: each slice equals its counter summed
   * over the monthly buckets, and the slices together equal the totals.
   */
  lemma BreakdownMatchesMonthly(likedVideos: seq<CalendarMonth>, playlists: seq<CalendarMonth>,
                                subscriptions: seq<CalendarMonth>, monthly: seq<ActivityMonth>)
    requires Distinct(MonthKeys(monthly))
    requires forall k :: k in likedVideos || k in playlists || k in subscriptions ==> k in MonthKeys(monthly)
    requires forall e :: e in monthly ==> e == Expected(e.key, likedVideos, playlists, subscriptions)
    ensures var pie := GenerateActivityBreakdownData(likedVideos, playlists, subscriptions);
      && pie[0].value == SumOf(monthly, Likes)
      && pie[1].value == SumOf(monthly, Playlists)
      && pie[2].value == SumOf(monthly, Subscriptions)
      && pie[0].value + pie[1].value + pie[2].value == SumTotals(monthly)
  {
    MonthlyTotals(monthly, likedVideos, playlists, subscriptions);
  }
}
