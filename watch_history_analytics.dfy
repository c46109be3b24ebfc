/**
 * The watch-history analytics of the dashboard: an uploaded Takeout export is
 * filtered to the entries with a title, and four aggregations are computed
 * over it: keyword frequencies of the titles, watches per calendar month,
 * watches per hour of the day, and the most-watched channels.
 */
module WatchHistoryAnalytics {
  import opened Wrappers
  import opened Text
  import opened Calendar
  import opened Sorting
  import opened Ranking

  /** One `subtitles` element of an export entry: the channel. */
  datatype Subtitle = Subtitle(name: string, url: string)

  /**
   * One entry of the export.  A missing or empty `time` is `None`; a present
   * one is already parsed.
   */
  datatype WatchHistoryItem = WatchHistoryItem(
    title: Option<string>,
    time: Option<Timestamp>,
    subtitles: Option<seq<Subtitle>>)

  /** `entry.title` is truthy: present and not empty. */
  predicate HasTitle(item: WatchHistoryItem) {
    item.title.Some? && item.title.value != ""
  }

  // ---------------------------------------------------------------- upload

  /** The value `JSON.parse` returned for the uploaded file. */
  datatype UploadedJson = JsonArray(entries: seq<WatchHistoryItem>) | NotAnArray

  /** `jsonData.filter(entry => entry.title)`. */
  function ValidEntries(data: seq<WatchHistoryItem>): (r: seq<WatchHistoryItem>)
    ensures forall x :: x in r <==> x in data && HasTitle(x)
    ensures |r| <= |data|
  {
    if data == [] then []
    else
      assert forall x :: x in data <==> x == data[0] || x in data[1..];
      (if HasTitle(data[0]) then [data[0]] else []) + ValidEntries(data[1..])
  }

  /** The title filter keeps the order of the entries: it distributes over concatenation. */
  lemma {:induction false} ValidEntriesAppend(a: seq<WatchHistoryItem>, b: seq<WatchHistoryItem>)
    ensures ValidEntries(a + b) == ValidEntries(a) + ValidEntries(b)
  {
    if a == [] {
      assert a + b == b;
    } else {
      assert (a + b)[0] == a[0] && (a + b)[1..] == a[1..] + b;
      ValidEntriesAppend(a[1..], b);
    }
  }

  /**
   * The upload handlers: an array is filtered to the entries with a title and
   * analysed; any other value is rejected.
   */
  function LoadWatchHistory(json: UploadedJson): (r: Option<seq<WatchHistoryItem>>)
    ensures r.None? <==> json.NotAnArray?
    ensures r.Some? ==> forall x :: x in r.value <==> x in json.entries && HasTitle(x)
  {
    match json
    case JsonArray(entries) => Some(ValidEntries(entries))
    case NotAnArray => None
  }

  // ---------------------------------------------------------------- keywords

  /** The stop words of the keyword counter ("the" appears twice in the source's list). */
  const StopWords: set<string> := {
    "a", "about", "an", "and", "are", "as", "at", "be", "by", "com", "for",
    "from", "how", "in", "is", "it", "of", "on", "or", "that", "the", "this",
    "to", "was", "what", "when", "where", "who", "will", "with", "www",
    "https", "youtube", "video", "watch", "new", "vs"
  }

  /** `title.toLowerCase().replace(/[^\w\s]/g, '').split(/\s+/)`. */
  function Words(title: string): seq<string> {
    SplitSpaces(StripNonWord(ToLower(title)))
  }

  /** `word.length > 2 && !stopWords.has(word)`; purely numeric words are kept. */
  predicate IsKeyword(w: string) {
    |w| > 2 && w !in StopWords
  }

  /** The words of `ws` that are counted, in order. */
  function KeepKeywords(ws: seq<string>): (r: seq<string>)
    ensures forall w :: w in r ==> IsKeyword(w)
  {
    if ws == [] then []
    else KeepKeywords(ws[..|ws| - 1]) + (if IsKeyword(ws[|ws| - 1]) then [ws[|ws| - 1]] else [])
  }

  /** All counted words of all titled entries, in order. */
  function KeywordTokens(data: seq<WatchHistoryItem>): (r: seq<string>)
    ensures forall w :: w in r ==> IsKeyword(w)
  {
    if data == [] then []
    else
      var last := data[|data| - 1];
      KeywordTokens(data[..|data| - 1]) + (if HasTitle(last) then KeepKeywords(Words(last.title.value)) else [])
  }

  lemma KeywordTokensSnoc(data: seq<WatchHistoryItem>, i: nat)
    requires i < |data|
    ensures HasTitle(data[i]) ==>
      KeywordTokens(data[..i + 1]) == KeywordTokens(data[..i]) + KeepKeywords(Words(data[i].title.value))
    ensures !HasTitle(data[i]) ==> KeywordTokens(data[..i + 1]) == KeywordTokens(data[..i])
  {
    assert data[..i + 1][..i] == data[..i];
    if !HasTitle(data[i]) {
      assert KeywordTokens(data[..i]) + [] == KeywordTokens(data[..i]);
    }
  }

  /** The stop-word and length filter changes no word's count other than by removing it. */
  lemma {:induction false} KeepKeywordsCounts(ws: seq<string>, w: string)
    ensures multiset(KeepKeywords(ws))[w] == if IsKeyword(w) then multiset(ws)[w] else 0
  {
    if ws != [] {
      var init := ws[..|ws| - 1];
      KeepKeywordsCounts(init, w);
      assert ws == init + [ws[|ws| - 1]];
    }
  }

  /**
   * Every word of a title is a run of lower-case ASCII letters, digits and
   * underscores.
   */
  lemma WordsAreLowerWordCharacters(title: string)
    ensures forall w, c :: w in Words(title) && c in w ==> IsWordChar(c) && !('A' <= c <= 'Z')
  {
    var lowered := ToLower(title);
    var stripped := StripNonWord(lowered);
    forall w, c | w in Words(title) && c in w ensures IsWordChar(c) && !('A' <= c <= 'Z') {
      assert c in stripped;
      assert c in lowered;
      var i :| 0 <= i < |lowered| && lowered[i] == c;
    }
  }

  /** A keyword as the word cloud receives it. */
  datatype Keyword = Keyword(text: string, value: nat)

  function KeywordTexts(r: seq<Keyword>): (t: seq<string>)
    ensures |t| == |r| && forall i :: 0 <= i < |r| ==> t[i] == r[i].text
  {
    seq(|r|, i requires 0 <= i < |r| => r[i].text)
  }

  /**
   * `generateWordCloudData`: counts the keywords of all titles, keeps those
   * seen more than three times, most frequent first, at most 100.  Every
   * keyword that is seen more than three times and is left out is outnumbered
   * by all 100 kept ones.  Ties are in no particular order.
   */
  method GenerateWordCloudData(data: seq<WatchHistoryItem>) returns (r: seq<Keyword>)
    ensures |r| <= 100
    ensures forall i :: 0 <= i < |r| ==>
      && IsKeyword(r[i].text)
      && r[i].value > 3
      && r[i].value == multiset(KeywordTokens(data))[r[i].text]
    ensures forall i, j :: 0 <= i < j < |r| ==> r[i].value >= r[j].value && r[i].text != r[j].text
    ensures forall w :: multiset(KeywordTokens(data))[w] > 3 && w !in KeywordTexts(r) ==>
      |r| == 100 && forall i :: 0 <= i < |r| ==> r[i].value >= multiset(KeywordTokens(data))[w]
  {
    var order, wordFrequency := CountKeywords(data);
    var tokens := KeywordTokens(data);
    EntriesAreTally(order, wordFrequency, tokens);
    var entries := Entries(order, wordFrequency);
    var frequent := MoreThan(entries, 3);
    var ranked := TopByCount(frequent, 100);
    r := ToKeywords(ranked);
    FrequentEntries(tokens, 3);
    RankedTallySpec(frequent, tokens, 3, 100);
    WordCloudSpec(tokens, ranked);
  }

  /** The `wordFrequency` loop over all titles: every keyword with its count, in order of first sight. */
  method CountKeywords(data: seq<WatchHistoryItem>) returns (order: seq<string>, wordFrequency: map<string, nat>)
    ensures Tallies(order, wordFrequency, KeywordTokens(data))
  {
    order, wordFrequency := [], map[];
    for i := 0 to |data|
      invariant Tallies(order, wordFrequency, KeywordTokens(data[..i]))
    {
      var item := data[i];
      KeywordTokensSnoc(data, i);
      if item.title.Some? && item.title.value != "" {
        order, wordFrequency := CountWords(order, wordFrequency, Words(item.title.value), KeywordTokens(data[..i]));
      }
    }
    assert data[..|data|] == data;
  }

  /**
   * The inner loop of `generateWordCloudData`: each word of one title that is
   * a keyword adds one to its count, `(wordFrequency[word] || 0) + 1`.
   */
  method CountWords(order: seq<string>, wordFrequency: map<string, nat>, words: seq<string>, ghost seen: seq<string>)
    returns (order': seq<string>, wordFrequency': map<string, nat>)
    requires Tallies(order, wordFrequency, seen)
    ensures Tallies(order', wordFrequency', seen + KeepKeywords(words))
  {
    order', wordFrequency' := order, wordFrequency;
    assert seen + KeepKeywords(words[..0]) == seen;
    for j := 0 to |words|
      invariant Tallies(order', wordFrequency', seen + KeepKeywords(words[..j]))
    {
      var word := words[j];
      CountWordStep(order', wordFrequency', seen, words, j);
      if IsKeyword(word) {
        // A new key goes to the end of the object's key order.
        order' := if word in wordFrequency' then order' else order' + [word];
        wordFrequency' := wordFrequency'[word := (if word in wordFrequency' then wordFrequency'[word] else 0) + 1];
      }
    }
    assert words[..|words|] == words;
  }

  lemma CountWordStep(order: seq<string>, counts: map<string, nat>, seen: seq<string>, words: seq<string>, j: nat)
    requires j < |words|
    requires Tallies(order, counts, seen + KeepKeywords(words[..j]))
    ensures var w := words[j];
      if IsKeyword(w) then
        Tallies(if w in counts then order else order + [w],
                counts[w := (if w in counts then counts[w] else 0) + 1],
                seen + KeepKeywords(words[..j + 1]))
      else
        Tallies(order, counts, seen + KeepKeywords(words[..j + 1]))
  {
    var counted := seen + KeepKeywords(words[..j]);
    var next := seen + KeepKeywords(words[..j + 1]);
    var w := words[j];
    KeepKeywordsSnoc(words, j);
    if IsKeyword(w) {
      calc {
        next;
        seen + (KeepKeywords(words[..j]) + [w]);
        { assert seen + (KeepKeywords(words[..j]) + [w]) == (seen + KeepKeywords(words[..j])) + [w]; }
        counted + [w];
      }
      TallyIncrement(order, counts, counted, w);
    } else {
      assert next == counted;
    }
  }

  lemma KeepKeywordsSnoc(words: seq<string>, j: nat)
    requires j < |words|
    ensures KeepKeywords(words[..j + 1]) == KeepKeywords(words[..j]) + (if IsKeyword(words[j]) then [words[j]] else [])
  {
    assert words[..j + 1][..j] == words[..j];
  }

  /** `.map(([text, value]) => ({ text, value }))`. */
  function ToKeywords(ranked: seq<Counted<string>>): (r: seq<Keyword>)
    ensures |r| == |ranked|
    ensures forall k :: 0 <= k < |r| ==> r[k] == Keyword(ranked[k].key, ranked[k].count)
    ensures KeywordTexts(r) == KeySeq(ranked)
  {
    seq(|ranked|, k requires 0 <= k < |ranked| => Keyword(ranked[k].key, ranked[k].count))
  }

  lemma WordCloudSpec(tokens: seq<string>, ranked: seq<Counted<string>>)
    requires forall w :: w in tokens ==> IsKeyword(w)
    requires |ranked| <= 100
    requires forall e :: e in ranked ==> e.key in tokens && e.count == multiset(tokens)[e.key] && e.count > 3
    requires forall i, j :: 0 <= i < j < |ranked| ==> ranked[i].count >= ranked[j].count && ranked[i].key != ranked[j].key
    requires forall k :: multiset(tokens)[k] > 3 && k !in KeySeq(ranked) ==>
      |ranked| == 100 && forall e :: e in ranked ==> e.count >= multiset(tokens)[k]
    ensures var r := ToKeywords(ranked);
      && (forall i :: 0 <= i < |r| ==>
            && IsKeyword(r[i].text)
            && r[i].value > 3
            && r[i].value == multiset(tokens)[r[i].text])
      && (forall i, j :: 0 <= i < j < |r| ==> r[i].value >= r[j].value && r[i].text != r[j].text)
      && (forall w :: multiset(tokens)[w] > 3 && w !in KeywordTexts(r) ==>
            |r| == 100 && forall i :: 0 <= i < |r| ==> r[i].value >= multiset(tokens)[w])
  {
    var r := ToKeywords(ranked);
    forall i | 0 <= i < |r| ensures IsKeyword(r[i].text) && r[i].value > 3 && r[i].value == multiset(tokens)[r[i].text] {
      assert ranked[i] in ranked;
    }
    forall w | multiset(tokens)[w] > 3 && w !in KeywordTexts(r)
      ensures |r| == 100 && forall i :: 0 <= i < |r| ==> r[i].value >= multiset(tokens)[w]
    {
      forall i | 0 <= i < |r| ensures r[i].value >= multiset(tokens)[w] {
        assert ranked[i] in ranked;
      }
    }
  }

  // ---------------------------------------------------------------- months

  /** The entries with a `time`, in order. */
  function Timed(data: seq<WatchHistoryItem>): (r: seq<WatchHistoryItem>)
    ensures forall x :: x in r ==> x.time.Some?
  {
    if data == [] then []
    else
      var last := data[|data| - 1];
      Timed(data[..|data| - 1]) + (if last.time.Some? then [last] else [])
  }

  /** The month of every entry with a `time`, in order. */
  function TimedMonths(data: seq<WatchHistoryItem>): (r: seq<CalendarMonth>)
    ensures |r| == |Timed(data)|
  {
    if data == [] then []
    else
      var last := data[|data| - 1];
      TimedMonths(data[..|data| - 1]) + (if last.time.Some? then [MonthOf(last.time.value)] else [])
  }

  /** The sort key of the chronological comparator. */
  function ByMonth(e: Counted<CalendarMonth>): int {
    Chronological(e.key)
  }

  /**
   * `generateMonthlyWatchData`: one bucket per month in which something was
   * watched, holding the number of entries of that month; entries without a
   * `time` are skipped.  The buckets run from the earliest month to the latest,
   * as the name comparator orders them, and their counts add up to the number
   * of entries with a `time`.  A bucket's name is `Label` of its key.
   */
  method GenerateMonthlyWatchData(data: seq<WatchHistoryItem>) returns (r: seq<Counted<CalendarMonth>>)
    ensures forall i, j :: 0 <= i < j < |r| ==> Chronological(r[i].key) < Chronological(r[j].key)
    ensures forall i, j :: 0 <= i < j < |r| ==> CompareMonthNames(Label(r[i].key), Label(r[j].key)) < 0
    ensures forall m :: m in KeySeq(r) <==> m in TimedMonths(data)
    ensures forall e :: e in r ==> e.count == multiset(TimedMonths(data))[e.key]
    ensures SumCounts(r) == |Timed(data)|
  {
    var order, monthMap := CountMonths(data);
    EntriesAreTally(order, monthMap, TimedMonths(data));
    var entries := Entries(order, monthMap);
    r := SortBy(entries, ByMonth);
    TallySpec(TimedMonths(data));
    ChronologicalSpec(entries, r, TimedMonths(data));
  }

  /** The `monthlyData` loop: the map holds every month of an entry with a `time`, with its count, in order of first sight. */
  method CountMonths(data: seq<WatchHistoryItem>) returns (order: seq<CalendarMonth>, monthMap: map<CalendarMonth, nat>)
    ensures Tallies(order, monthMap, TimedMonths(data))
  {
    order, monthMap := [], map[];
    ghost var months: seq<CalendarMonth> := [];
    for i := 0 to |data|
      invariant months == TimedMonths(data[..i])
      invariant Tallies(order, monthMap, months)
    {
      var item := data[i];
      TimedMonthsSnoc(data, i);
      if item.time.Some? {
        var monthYear := MonthOf(item.time.value);
        TallyStep(order, monthMap, months, monthYear);
        if monthYear !in monthMap {
          monthMap := monthMap[monthYear := 0];
          order := order + [monthYear];
        }
        monthMap := monthMap[monthYear := monthMap[monthYear] + 1];
        months := months + [monthYear];
      }
    }
    assert data[..|data|] == data;
  }

  lemma TimedMonthsSnoc(data: seq<WatchHistoryItem>, i: nat)
    requires i < |data|
    ensures data[i].time.Some? ==>
      TimedMonths(data[..i + 1]) == TimedMonths(data[..i]) + [MonthOf(data[i].time.value)]
    ensures data[i].time.None? ==> TimedMonths(data[..i + 1]) == TimedMonths(data[..i])
  {
    assert data[..i + 1][..i] == data[..i];
    if data[i].time.None? {
      assert TimedMonths(data[..i]) + [] == TimedMonths(data[..i]);
    }
  }

  /** Sorting the month entries by `ByMonth` gives the properties of the monthly output. */
  lemma ChronologicalSpec(entries: seq<Counted<CalendarMonth>>, r: seq<Counted<CalendarMonth>>, keys: seq<CalendarMonth>)
    requires r == SortBy(entries, ByMonth)
    requires DistinctKeys(entries)
    requires forall e :: e in entries ==> e.key in keys && e.count == multiset(keys)[e.key]
    requires forall k :: k in keys ==> Counted(k, multiset(keys)[k]) in entries
    ensures forall i, j :: 0 <= i < j < |r| ==> Chronological(r[i].key) < Chronological(r[j].key)
    ensures forall i, j :: 0 <= i < j < |r| ==> CompareMonthNames(Label(r[i].key), Label(r[j].key)) < 0
    ensures forall m :: m in KeySeq(r) <==> m in keys
    ensures forall e :: e in r ==> e.count == multiset(keys)[e.key]
    ensures SumCounts(r) == |keys|
  {
    PermutationKeepsDistinctKeys(entries, r, |r|);
    assert r[..|r|] == r;
    SortedMonthsStrict(r);
    forall i, j | 0 <= i < j < |r| ensures CompareMonthNames(Label(r[i].key), Label(r[j].key)) < 0 {
      CompareLabels(r[i].key, r[j].key);
    }
    PermutedMonthEntries(entries, r, keys);
    SumCountsOfTally(r, keys);
  }

  /** Sorted by the month key with distinct months: strictly chronological. */
  lemma SortedMonthsStrict(r: seq<Counted<CalendarMonth>>)
    requires SortedBy(r, ByMonth)
    requires DistinctKeys(r)
    ensures forall i, j :: 0 <= i < j < |r| ==> Chronological(r[i].key) < Chronological(r[j].key)
  {
    forall i, j | 0 <= i < j < |r| ensures Chronological(r[i].key) < Chronological(r[j].key) {
      assert ByMonth(r[i]) <= ByMonth(r[j]);
      if Chronological(r[i].key) == Chronological(r[j].key) {
        assert false;
      }
    }
  }

  /** A permutation of the complete month entries is still complete and correctly counted. */
  lemma PermutedMonthEntries(entries: seq<Counted<CalendarMonth>>, r: seq<Counted<CalendarMonth>>, keys: seq<CalendarMonth>)
    requires multiset(r) == multiset(entries)
    requires forall e :: e in entries ==> e.key in keys && e.count == multiset(keys)[e.key]
    requires forall k :: k in keys ==> Counted(k, multiset(keys)[k]) in entries
    ensures forall m :: m in KeySeq(r) <==> m in keys
    ensures forall e :: e in r ==> e.count == multiset(keys)[e.key] && e.key in keys
  {
    forall e | e in r ensures e in entries {
      assert e in multiset(r);
    }
    forall m ensures m in KeySeq(r) <==> m in keys {
      if m in KeySeq(r) {
        var p :| 0 <= p < |r| && KeySeq(r)[p] == m;
        assert r[p] in r;
      }
      if m in keys {
        var e := Counted(m, multiset(keys)[m]);
        assert e in multiset(entries);
        var p :| 0 <= p < |r| && r[p] == e;
        assert KeySeq(r)[p] == m;
      }
    }
  }

  // ----------------------------------------------------------------- hours

  /** One bar of the hourly chart. */
  datatype HourBucket = HourBucket(hour: nat, count: nat, name: string)

  /** The label of hour `h`, `${index}:00`. */
  function HourName(h: nat): (r: string)
    ensures |r| > 3 && r[|r| - 3..] == ":00"
  {
    NatToString(h) + ":00"
  }

  /** The hour of every entry with a `time`, in order. */
  function TimedHours(data: seq<WatchHistoryItem>): (r: seq<Hour>)
    ensures |r| == |Timed(data)|
  {
    if data == [] then []
    else
      var last := data[|data| - 1];
      TimedHours(data[..|data| - 1]) + (if last.time.Some? then [last.time.value.hour] else [])
  }

  /** The sum of the counts of some buckets, the `reduce` of the day/night chart. */
  function SumHours(s: seq<HourBucket>): nat {
    if s == [] then 0 else SumHours(s[..|s| - 1]) + s[|s| - 1].count
  }

  lemma {:induction false} SumHoursAppend(a: seq<HourBucket>, b: seq<HourBucket>)
    ensures SumHours(a + b) == SumHours(a) + SumHours(b)
    decreases |b|
  {
    if b == [] {
      assert a + b == a;
    } else {
      assert (a + b)[..|a + b| - 1] == a + b[..|b| - 1];
      SumHoursAppend(a, b[..|b| - 1]);
    }
  }

  lemma {:induction false} SumHoursUpdate(s: seq<HourBucket>, i: nat, b: HourBucket)
    requires i < |s|
    ensures SumHours(s[i := b]) == SumHours(s) - s[i].count + b.count
  {
    assert s == s[..i] + [s[i]] + s[i + 1..];
    assert s[i := b] == s[..i] + [b] + s[i + 1..];
    SumHoursAppend(s[..i] + [s[i]], s[i + 1..]);
    SumHoursAppend(s[..i] + [b], s[i + 1..]);
    SumHoursAppend(s[..i], [s[i]]);
    SumHoursAppend(s[..i], [b]);
    assert SumHours([s[i]]) == s[i].count by { assert [s[i]][..0] == []; }
    assert SumHours([b]) == b.count by { assert [b][..0] == []; }
  }

  lemma {:induction false} SumHoursOfEmptyBuckets(s: seq<HourBucket>)
    requires forall i :: 0 <= i < |s| ==> s[i].count == 0
    ensures SumHours(s) == 0
  {
    if s != [] {
      SumHoursOfEmptyBuckets(s[..|s| - 1]);
    }
  }

  lemma HourStep(data: seq<WatchHistoryItem>, i: nat)
    requires i < |data|
    ensures TimedHours(data[..i + 1]) ==
      TimedHours(data[..i]) + (if data[i].time.Some? then [data[i].time.value.hour] else [])
  {
    assert data[..i + 1][..i] == data[..i];
  }

  /** `buckets` are the 24 hourly buckets counting `hours`. */
  ghost predicate HourTally(buckets: seq<HourBucket>, hours: seq<Hour>) {
    && |buckets| == 24
    && (forall h :: 0 <= h < 24 ==> buckets[h] == HourBucket(h, multiset(hours)[h], HourName(h)))
    && SumHours(buckets) == |hours|
  }

  lemma EmptyHourTally(buckets: seq<HourBucket>)
    requires |buckets| == 24
    requires forall h :: 0 <= h < 24 ==> buckets[h] == HourBucket(h, 0, HourName(h))
    ensures HourTally(buckets, [])
  {
    SumHoursOfEmptyBuckets(buckets);
  }

  lemma HourTallyStep(buckets: seq<HourBucket>, hours: seq<Hour>, hour: Hour)
    requires HourTally(buckets, hours)
    ensures HourTally(buckets[hour := buckets[hour].(count := buckets[hour].count + 1)], hours + [hour])
  {
    var bumped := buckets[hour].(count := buckets[hour].count + 1);
    SumHoursUpdate(buckets, hour, bumped);
  }

  /**
   * `generateHourlyWatchData`: 24 buckets, bucket `h` for hour `h` of the day
   * named `HourName(h)`, counting the entries with a `time` in that hour; the
   * counts add up to the number of entries with a `time`.
   */
  method GenerateHourlyWatchData(data: seq<WatchHistoryItem>) returns (r: seq<HourBucket>)
    ensures |r| == 24
    ensures forall h :: 0 <= h < 24 ==>
      r[h].hour == h && r[h].name == HourName(h) && r[h].count == multiset(TimedHours(data))[h]
    ensures SumHours(r) == |Timed(data)|
  {
    var hourCounts := NewHourCounts();
    ghost var hours: seq<Hour> := [];
    for i := 0 to |data|
      invariant hours == TimedHours(data[..i])
      invariant HourTally(hourCounts[..], hours)
    {
      HourStep(data, i);
      if data[i].time.Some? {
        var hour := data[i].time.value.hour;
        BumpHour(hourCounts, hour, hours);
        hours := hours + [hour];
      }
    }
    assert data[..|data|] == data;
    r := hourCounts[..];
  }

  /** `new Array(24).fill(0).map(...)`: 24 empty buckets, bucket `h` for hour `h`. */
  method NewHourCounts() returns (hourCounts: array<HourBucket>)
    ensures fresh(hourCounts)
    ensures HourTally(hourCounts[..], [])
  {
    hourCounts := new HourBucket[24]((index: nat) => HourBucket(index, 0, HourName(index)));
    EmptyHourTally(hourCounts[..]);
  }

  /** `hourCounts[hour].count += 1`. */
  method BumpHour(hourCounts: array<HourBucket>, hour: Hour, ghost hours: seq<Hour>)
    requires HourTally(hourCounts[..], hours)
    modifies hourCounts
    ensures HourTally(hourCounts[..], hours + [hour])
  {
    ghost var before := hourCounts[..];
    HourTallyStep(before, hours, hour);
    hourCounts[hour] := hourCounts[hour].(count := hourCounts[hour].count + 1);
    assert hourCounts[..] == before[hour := before[hour].(count := before[hour].count + 1)];
  }

  /** `Array.prototype.slice(start, end)` with non-negative bounds: both are clamped to the length. */
  function Slice<T>(s: seq<T>, start: nat, end: nat): (r: seq<T>)
    ensures |r| <= |s|
    ensures start <= end <= |s| ==> r == s[start..end]
  {
    var e := if end <= |s| then end else |s|;
    var b := if start <= e then start else e;
    s[b..e]
  }

  /** The "Daytime (7AM-7PM)" slice of the day/night chart: hours 7 to 19. */
  function DaytimeTotal(hourly: seq<HourBucket>): nat {
    SumHours(Slice(hourly, 7, 20))
  }

  /** The "Nighttime (7PM-7AM)" slice: hours 0 to 6 and 20 to the end. */
  function NighttimeTotal(hourly: seq<HourBucket>): nat {
    SumHours(Slice(hourly, 0, 7) + Slice(hourly, 20, |hourly|))
  }

  /** The two slices of the day/night chart share out every bucket's count once. */
  lemma DayNightSplit(hourly: seq<HourBucket>)
    ensures DaytimeTotal(hourly) + NighttimeTotal(hourly) == SumHours(hourly)
  {
    var n := |hourly|;
    var b7 := if 7 <= n then 7 else n;
    var b20 := if 20 <= n then 20 else n;
    assert Slice(hourly, 0, 7) == hourly[..b7];
    assert Slice(hourly, 7, 20) == hourly[b7..b20];
    assert Slice(hourly, 20, n) == hourly[b20..];
    assert hourly == hourly[..b7] + hourly[b7..b20] + hourly[b20..];
    SumHoursAppend(hourly[..b7], hourly[b20..]);
    SumHoursAppend(hourly[..b7], hourly[b7..b20]);
    SumHoursAppend(hourly[..b7] + hourly[b7..b20], hourly[b20..]);
  }

  /** For the hourly chart's output, day and night together are all entries with a `time`. */
  lemma DayNightCoversTimed(data: seq<WatchHistoryItem>, hourly: seq<HourBucket>)
    requires SumHours(hourly) == |Timed(data)|
    ensures DaytimeTotal(hourly) + NighttimeTotal(hourly) == |Timed(data)|
  {
    DayNightSplit(hourly);
  }

  // -------------------------------------------------------------- channels

  /** An entry names a channel when its `subtitles` is present and non-empty. */
  predicate HasChannel(x: WatchHistoryItem) {
    x.subtitles.Some? && |x.subtitles.value| > 0
  }

  /** The channel of every entry that names one: its first subtitle's name. */
  function ChannelKeys(data: seq<WatchHistoryItem>): (r: seq<string>)
    ensures |r| <= |data|
  {
    if data == [] then []
    else
      var last := data[|data| - 1];
      ChannelKeys(data[..|data| - 1]) + (if HasChannel(last) then [last.subtitles.value[0].name] else [])
  }

  /** Every channel counted is the first subtitle's name of some entry. */
  lemma {:induction false} ChannelKeysFromEntries(data: seq<WatchHistoryItem>)
    ensures forall c :: c in ChannelKeys(data) ==>
      exists x :: x in data && HasChannel(x) && x.subtitles.value[0].name == c
  {
    if data != [] {
      var init := data[..|data| - 1];
      ChannelKeysFromEntries(init);
      forall c | c in ChannelKeys(data)
        ensures exists x :: x in data && HasChannel(x) && x.subtitles.value[0].name == c
      {
        if c in ChannelKeys(init) {
          var x :| x in init && HasChannel(x) && x.subtitles.value[0].name == c;
          assert x in data;
        } else {
          assert data[|data| - 1] in data;
        }
      }
    }
  }

  lemma ChannelKeysSnoc(data: seq<WatchHistoryItem>, i: nat)
    requires i < |data|
    ensures HasChannel(data[i]) ==>
      ChannelKeys(data[..i + 1]) == ChannelKeys(data[..i]) + [data[i].subtitles.value[0].name]
    ensures !HasChannel(data[i]) ==> ChannelKeys(data[..i + 1]) == ChannelKeys(data[..i])
  {
    assert data[..i + 1][..i] == data[..i];
    if !HasChannel(data[i]) {
      assert ChannelKeys(data[..i]) + [] == ChannelKeys(data[..i]);
    }
  }

  /**
   * `generateTopChannelsData`: the 15 channels watched most often, most
   * watched first, each with the number of entries from it.  Every channel
   * left out is out-counted by each of 15 channels shown, and among channels
   * with equal counts those seen first in the history are shown, in that order.
   */
  method GenerateTopChannelsData(data: seq<WatchHistoryItem>) returns (r: seq<Counted<string>>)
    ensures r == TopByCount(Tally(ChannelKeys(data)), 15)
    ensures |r| <= 15
    ensures forall e :: e in r ==>
      e.key in ChannelKeys(data) && e.count == multiset(ChannelKeys(data))[e.key] && e.count > 0
    ensures forall i, j :: 0 <= i < j < |r| ==> r[i].count >= r[j].count && r[i].key != r[j].key
    ensures forall c :: c in ChannelKeys(data) && c !in KeySeq(r) ==>
      |r| == 15 && forall e :: e in r ==> e.count >= multiset(ChannelKeys(data))[c]
    ensures forall v :: WithKey(r, ByCountDescending, v) <= WithKey(Tally(ChannelKeys(data)), ByCountDescending, v)
  {
    var order, channelMap := CountChannels(data);
    EntriesAreTally(order, channelMap, ChannelKeys(data));
    r := TopByCount(Entries(order, channelMap), 15);
    TopChannelsSpec(ChannelKeys(data));
  }

  /** The `channelCounts` loop: the map holds every channel with its count, in order of first sight. */
  method CountChannels(data: seq<WatchHistoryItem>) returns (order: seq<string>, channelMap: map<string, nat>)
    ensures Tallies(order, channelMap, ChannelKeys(data))
  {
    order, channelMap := [], map[];
    ghost var channels: seq<string> := [];
    for i := 0 to |data|
      invariant channels == ChannelKeys(data[..i])
      invariant Tallies(order, channelMap, channels)
    {
      var item := data[i];
      ChannelKeysSnoc(data, i);
      if HasChannel(item) {
        var channelName := item.subtitles.value[0].name;
        TallyStep(order, channelMap, channels, channelName);
        if channelName !in channelMap {
          channelMap := channelMap[channelName := 0];
          order := order + [channelName];
        }
        channelMap := channelMap[channelName := channelMap[channelName] + 1];
        channels := channels + [channelName];
      }
    }
    assert data[..|data|] == data;
  }

  /**
   * Ranking the tally of the channels gives the properties of the top-channels
   * output, ties going to the channels seen first.
   */
  lemma TopChannelsSpec(channels: seq<string>)
    ensures var r := TopByCount(Tally(channels), 15);
      && |r| <= 15
      && (forall e :: e in r ==> e.key in channels && e.count == multiset(channels)[e.key] && e.count > 0)
      && (forall i, j :: 0 <= i < j < |r| ==> r[i].count >= r[j].count && r[i].key != r[j].key)
      && (forall c :: c in channels && c !in KeySeq(r) ==>
            |r| == 15 && forall e :: e in r ==> e.count >= multiset(channels)[c])
      && (forall v :: WithKey(r, ByCountDescending, v) <= WithKey(Tally(channels), ByCountDescending, v))
  {
    TallySpec(channels);
    forall e | e in Tally(channels) ensures e.count > 0 {
      assert e.key in multiset(channels);
    }
    RankedTallySpec(Tally(channels), channels, 0, 15);
    TopByCountStable(Tally(channels), 15);
  }

  // ------------------------------------------- the word counter as written

  /**
   * The values `wordFrequency[word]` can hold or read on the plain object
   * `{}` that `generateWordCloudData` counts in: a number, a string made by
   * `+ 1` on a non-number, the inherited `Object.prototype.constructor`
   * function, the inherited prototype object itself, or nothing.
   */
  datatype JsValue = Undefined | Num(n: nat) | Str(s: string) | ObjectFunction | ObjectPrototype

  /** `String(Object)`, the text a function becomes when `+` meets a string. */
  const ObjectFunctionText := "function Object() { [native code] }"

  /**
   * Reading `obj[key]`: an own property, else what `Object.prototype` lends.
   * Only "constructor" and "__proto__" are modelled as inherited: the keys
   * read here are lower-cased title words, and every other property of
   * `Object.prototype` (`toString`, `valueOf`, `hasOwnProperty`,
   * `isPrototypeOf`, `propertyIsEnumerable`, `toLocaleString`,
   * `__defineGetter__` and its siblings) has an upper-case letter in its
   * name, so no such word can spell it.
   */
  function Read(obj: map<string, JsValue>, key: string): (r: JsValue)
    ensures key in obj ==> r == obj[key]
    ensures key !in obj && key != "constructor" && key != "__proto__" ==> r == Undefined
  {
    if key in obj then obj[key]
    else if key == "constructor" then ObjectFunction
    else if key == "__proto__" then ObjectPrototype
    else Undefined
  }

  /** `(v || 0) + 1`: numbers add, every other truthy value is turned into text and gets "1" appended. */
  function PlusOne(v: JsValue): (r: JsValue)
    ensures v.Num? || v.Undefined? <==> r.Num?
  {
    match v
    case Undefined => Num(1)
    case Num(n) => Num(n + 1)
    case Str(t) => Str(t + "1")
    case ObjectFunction => Str(ObjectFunctionText + "1")
    case ObjectPrototype => Str("[object Object]1")
  }

  /** `obj[key] = v`: assigning a non-object to `__proto__` is ignored. */
  function Write(obj: map<string, JsValue>, key: string, v: JsValue): (r: map<string, JsValue>)
    ensures key != "__proto__" ==> r == obj[key := v]
    ensures key == "__proto__" ==> r == obj
  {
    if key == "__proto__" then obj else obj[key := v]
  }

  /** The object after `wordFrequency[word] = (wordFrequency[word] || 0) + 1` for every token, in order. */
  function WordFrequencyAsWritten(tokens: seq<string>): map<string, JsValue> {
    if tokens == [] then map[]
    else
      var obj := WordFrequencyAsWritten(tokens[..|tokens| - 1]);
      var word := tokens[|tokens| - 1];
      Write(obj, word, PlusOne(Read(obj, word)))
  }

  /**
   * `count > 3` on a stored value: a string here starts with "function" or
   * "[object", which converts to NaN, and NaN is not greater than 3.
   */
  predicate MoreThanThree(v: JsValue) {
    v.Num? && v.n > 3
  }

  /** The words that survive the `count > 3` filter on the object as written. */
  ghost function FrequentAsWritten(obj: map<string, JsValue>): set<string> {
    set k | k in obj && MoreThanThree(obj[k])
  }

  /** Away from the two inherited names, the object counts exactly as a map does. */
  lemma {:induction false} WordFrequencyAsWrittenCounts(tokens: seq<string>, k: string)
    requires k != "constructor" && k != "__proto__"
    ensures k in WordFrequencyAsWritten(tokens) <==> k in tokens
    ensures k in WordFrequencyAsWritten(tokens) ==> WordFrequencyAsWritten(tokens)[k] == Num(multiset(tokens)[k])
  {
    if tokens != [] {
      var init := tokens[..|tokens| - 1];
      WordFrequencyAsWrittenCounts(init, k);
      assert tokens == init + [tokens[|tokens| - 1]];
    }
  }

  /** `__proto__` is never stored, and `constructor` never holds a number, so neither passes the filter. */
  lemma {:induction false} InheritedNamesNeverCounted(tokens: seq<string>)
    ensures "__proto__" !in WordFrequencyAsWritten(tokens)
    ensures "constructor" in WordFrequencyAsWritten(tokens) ==> WordFrequencyAsWritten(tokens)["constructor"].Str?
    ensures "constructor" !in FrequentAsWritten(WordFrequencyAsWritten(tokens))
  {
    if tokens != [] {
      InheritedNamesNeverCounted(tokens[..|tokens| - 1]);
    }
  }

  /**
   * Four videos titled "constructor": the keyword occurs four times, so the
   * word cloud should show it, but the object as written drops it.
   */
  lemma ConstructorDropped()
    ensures var tokens := ["constructor", "constructor", "constructor", "constructor"];
      && (forall w :: w in tokens ==> IsKeyword(w))
      && multiset(tokens)["constructor"] == 4
      && "constructor" !in FrequentAsWritten(WordFrequencyAsWritten(tokens))
  {
    var tokens := ["constructor", "constructor", "constructor", "constructor"];
    assert IsKeyword("constructor");
    InheritedNamesNeverCounted(tokens);
  }
}
