/** `render`'s derivation of the displayed list: the date filter, the text
    search, the sort by match time and the truncation to the display limit. */
module View {
  import opened Wrappers
  import opened Text
  import opened Calendar
  import opened Records
  import opened Sequences
  import opened Sorting

  /** The branches of `render`'s date filter. */
  datatype DateFilter = All | Today | Tomorrow | Weekend

  /** The branch a filter name selects: `render` compares the name with
      `today`, `tomorrow` and `weekend` in turn, and any other name, `all`
      included, filters nothing. */
  function DateFilterOf(name: string): (f: DateFilter)
    ensures f == All <==> name != "today" && name != "tomorrow" && name != "weekend"
  {
    if name == "today" then Today
    else if name == "tomorrow" then Tomorrow
    else if name == "weekend" then Weekend
    else All
  }

  /** The records that start on the local calendar day of instant `day`. */
  function OnDayOf(day: Timestamp, zoneOffset: int): Prediction -> bool {
    (p: Prediction) => IsSameDay(p.matchDate, day, zoneOffset)
  }

  /** The records that start on a Saturday (6) or a Sunday (0). */
  function OnWeekend(zoneOffset: int): Prediction -> bool {
    (p: Prediction) => var day := Weekday(p.matchDate, zoneOffset); day == 6 || day == 0
  }

  /** Whether the date filter `f` keeps `p`. */
  predicate KeptByDate(f: DateFilter, clock: Clock, p: Prediction) {
    match f
    case All => true
    case Today => OnDayOf(clock.now, clock.zoneOffset)(p)
    case Tomorrow => OnDayOf(NextDay(clock.now), clock.zoneOffset)(p)
    case Weekend => OnWeekend(clock.zoneOffset)(p)
  }

  /** `items.sort(...)` on the array `items` holds: the records are put in an
      array, sorted there in place, and read back. */
  method SortItems(items: seq<Prediction>) returns (sorted: seq<Prediction>)
    ensures sorted == SortByDate(items)
  {
    var a := new Prediction[|items|](i requires 0 <= i < |items| => items[i]);
    assert a[..] == items;
    SortInPlace(a);
    sorted := a[..];
  }

  /** The date-filter step of `render`. */
  function ApplyDateFilter(items: seq<Prediction>, f: DateFilter, clock: Clock): (r: seq<Prediction>)
    ensures |r| <= |items|
    ensures forall i :: 0 <= i < |r| ==> KeptByDate(f, clock, r[i])
    ensures f == All ==> r == items
  {
    match f
    case All => items
    case Today => Filter(items, OnDayOf(clock.now, clock.zoneOffset))
    case Tomorrow => Filter(items, OnDayOf(NextDay(clock.now), clock.zoneOffset))
    case Weekend => Filter(items, OnWeekend(clock.zoneOffset))
  }

  /** `(field || '')`: a missing or empty field reads as the empty string. */
  function OrEmpty(field: Option<string>): string {
    field.GetOr("")
  }

  /** Whether the lower-cased query occurs in the lower-cased league, home
      team or away team of `p`. */
  predicate MatchesQuery(p: Prediction, q: string)
    ensures q == "" ==> MatchesQuery(p, q)
  {
    || Includes(ToLower(OrEmpty(p.league)), q)
    || Includes(ToLower(OrEmpty(p.teamHome)), q)
    || Includes(ToLower(OrEmpty(p.teamAway)), q)
  }

  function Matching(q: string): Prediction -> bool {
    (p: Prediction) => MatchesQuery(p, q)
  }

  /** The search step of `render`: skipped for an empty query. */
  function ApplySearch(items: seq<Prediction>, q: string): (r: seq<Prediction>)
    ensures |r| <= |items|
    ensures q == "" ==> r == items
    ensures forall i :: 0 <= i < |r| ==> MatchesQuery(r[i], q)
  {
    if q == "" then items else Filter(items, Matching(q))
  }

  /** The query `render` searches for: the search box's text, trimmed and
      lower-cased. */
  function QueryOf(searchValue: string): (q: string)
    ensures |q| <= |searchValue|
    ensures forall k :: 0 <= k < |q| ==> !('A' <= q[k] <= 'Z')
    ensures q == "" <==> forall k :: 0 <= k < |searchValue| ==> IsWhitespace(searchValue[k])
  {
    ToLower(Trim(searchValue))
  }

  /** The display limit: `parseInt` of the limit selector's value, or of
      `'20'` when the value is empty; `None` is `NaN`. */
  function LimitOf(limitValue: string): (r: Option<int>)
    ensures limitValue == "" ==> r == Some(20)
    ensures limitValue != "" ==> r == ParseInt(limitValue)
  {
    ParseTwenty();
    ParseInt(if limitValue == "" then "20" else limitValue)
  }

  /** `parseInt('20', 10)` is 20. */
  lemma ParseTwenty()
    ensures ParseInt("20") == Some(20)
  {
    var digits := [DigitChar(2), DigitChar(0)];
    assert digits == "20" by { assert DigitChar(2) == '2' && DigitChar(0) == '0'; }
    ParseTwoDigits(2, 0);
  }

  /** The records left after filtering and searching, before sorting. */
  function Found(records: seq<Prediction>, filterName: string, searchValue: string, clock: Clock): (r: seq<Prediction>)
    ensures |r| <= |records|
    ensures forall i :: 0 <= i < |r| ==> MatchesQuery(r[i], QueryOf(searchValue))
    ensures DateFilterOf(filterName) == All && QueryOf(searchValue) == "" ==> r == records
  {
    ApplySearch(ApplyDateFilter(records, DateFilterOf(filterName), clock), QueryOf(searchValue))
  }

  /** The list `render` displays, one card per record, in order. */
  function DerivedView(records: seq<Prediction>, filterName: string, searchValue: string,
                       limitValue: string, clock: Clock): (r: seq<Prediction>)
    ensures r <= SortByDate(Found(records, filterName, searchValue, clock))
  {
    Truncate(SortByDate(Found(records, filterName, searchValue, clock)), LimitOf(limitValue))
  }

  /** The derivation as `render` performs it: `items` is reassigned step by
      step and sorted in place as an array. */
  method DeriveView(records: seq<Prediction>, filterName: string, searchValue: string,
                    limitValue: string, clock: Clock) returns (items: seq<Prediction>)
    ensures items == DerivedView(records, filterName, searchValue, limitValue, clock)
  {
    var q := ToLower(Trim(searchValue));
    var limit := ParseInt(if limitValue == "" then "20" else limitValue);
    items := records;

    var f := DateFilterOf(filterName);
    if f == Today {
      items := Filter(items, OnDayOf(clock.now, clock.zoneOffset));
    } else if f == Tomorrow {
      var t := NextDay(clock.now);
      items := Filter(items, OnDayOf(t, clock.zoneOffset));
    } else if f == Weekend {
      items := Filter(items, OnWeekend(clock.zoneOffset));
    }
    assert items == ApplyDateFilter(records, f, clock);

    if q != "" {
      items := Filter(items, Matching(q));
    }
    ghost var found := items;
    assert found == Found(records, filterName, searchValue, clock);

    items := SortItems(items);

    items := Truncate(items, limit);
  }

  /** The date filter keeps exactly the records the selected branch accepts,
      each as often as it occurs, in their original relative order; `all`
      leaves the list unchanged. */
  lemma DateFilterKeeps(items: seq<Prediction>, f: DateFilter, clock: Clock)
    ensures var r := ApplyDateFilter(items, f, clock);
            && (forall p :: p in r <==> p in items && KeptByDate(f, clock, p))
            && (forall p :: multiset(r)[p] == if KeptByDate(f, clock, p) then multiset(items)[p] else 0)
            && IsSubsequence(r, items)
            && (f == All ==> r == items)
  {
    var r := ApplyDateFilter(items, f, clock);
    match f
    case All =>
      IsSubsequenceReflexive(items);
    case Today =>
      FilterMembers(items, OnDayOf(clock.now, clock.zoneOffset));
      FilterCounts(items, OnDayOf(clock.now, clock.zoneOffset));
      FilterIsSubsequence(items, OnDayOf(clock.now, clock.zoneOffset));
    case Tomorrow =>
      FilterMembers(items, OnDayOf(NextDay(clock.now), clock.zoneOffset));
      FilterCounts(items, OnDayOf(NextDay(clock.now), clock.zoneOffset));
      FilterIsSubsequence(items, OnDayOf(NextDay(clock.now), clock.zoneOffset));
    case Weekend =>
      FilterMembers(items, OnWeekend(clock.zoneOffset));
      FilterCounts(items, OnWeekend(clock.zoneOffset));
      FilterIsSubsequence(items, OnWeekend(clock.zoneOffset));
  }

  /** What each branch accepts, in terms of local day numbers: `today` the
      day of `now`, `tomorrow` the day after it, `weekend` the days whose
      weekday is 6 or 0. */
  lemma KeptByDateMeaning(f: DateFilter, clock: Clock, p: Prediction)
    ensures f == Today ==> (KeptByDate(f, clock, p) <==>
              LocalDay(p.matchDate, clock.zoneOffset) == LocalDay(clock.now, clock.zoneOffset))
    ensures f == Tomorrow ==> (KeptByDate(f, clock, p) <==>
              LocalDay(p.matchDate, clock.zoneOffset) == LocalDay(clock.now, clock.zoneOffset) + 1)
    ensures f == Weekend ==> (KeptByDate(f, clock, p) <==>
              Weekday(p.matchDate, clock.zoneOffset) in {0, 6})
  {
  }

  /** The search keeps every record for an empty query; otherwise exactly the
      records whose league or team names contain the query, each as often as
      it occurs, in their original relative order. */
  lemma SearchKeeps(items: seq<Prediction>, q: string)
    ensures var r := ApplySearch(items, q);
            && (q == "" ==> r == items)
            && (q != "" ==> forall p :: p in r <==> p in items && MatchesQuery(p, q))
            && (q != "" ==> forall p :: multiset(r)[p] == if MatchesQuery(p, q) then multiset(items)[p] else 0)
            && IsSubsequence(r, items)
  {
    if q == "" {
      IsSubsequenceReflexive(items);
    } else {
      FilterMembers(items, Matching(q));
      FilterCounts(items, Matching(q));
      FilterIsSubsequence(items, Matching(q));
    }
  }

  /** A query made only of whitespace searches for nothing and keeps every
      record. */
  lemma BlankQueryKeepsAll(items: seq<Prediction>, searchValue: string)
    requires forall k :: 0 <= k < |searchValue| ==> IsWhitespace(searchValue[k])
    ensures ApplySearch(items, QueryOf(searchValue)) == items
  {
  }

  /** The search ignores case: upper-casing the text in the search box does
      not change the query. */
  lemma QueryIgnoresCase(searchValue: string)
    ensures QueryOf(ToUpper(searchValue)) == QueryOf(searchValue)
  {
    TrimUpper(searchValue);
    LowerOfUpper(Trim(searchValue));
  }

  /** `s` holds no `l` before index `m` and no `i` from there on, in either
      case, so `liga` cannot occur in it. */
  predicate NoLigaSplit(s: string, m: nat) {
    m <= |s| && 'l' !in s[..m] && 'L' !in s[..m] && 'i' !in s[m..] && 'I' !in s[m..]
  }

  lemma NoLigaAt(s: string, m: nat)
    requires NoLigaSplit(s, m)
    ensures !Includes(ToLower(s), "liga")
  {
    var a, b := s[..m], s[m..];
    assert a + b == s;
    LowerAppend(a, b);
    LowerAvoids(a, 'l');
    LowerAvoids(b, 'i');
    NotIncludesSplit(ToLower(a), ToLower(b), "liga");
  }

  /** A record whose league holds no `liga` and whose team names hold no
      `l` does not match `liga`. */
  lemma NoLigaRecord(p: Prediction, league: string, m: nat)
    requires p.league == Some(league) && NoLigaSplit(league, m)
    requires p.teamHome.Some? && 'l' !in p.teamHome.value && 'L' !in p.teamHome.value
    requires p.teamAway.Some? && 'l' !in p.teamAway.value && 'L' !in p.teamAway.value
    ensures !MatchesQuery(p, "liga")
  {
    NoLigaAt(league, m);
    NoLigaAt(p.teamHome.value, |p.teamHome.value|);
    NoLigaAt(p.teamAway.value, |p.teamAway.value|);
  }

  // The four sample records that do not mention `liga`, one lemma each.
  lemma ChampionsLeagueNoLiga(p: Prediction)
    requires p.league == Some("UEFA Champions League")
    requires p.teamHome == Some("Team A") && p.teamAway == Some("Team B")
    ensures !MatchesQuery(p, "liga")
  {
    NoLigaRecord(p, "UEFA Champions League", 15);
  }

  lemma PremierLeagueNoLiga(p: Prediction)
    requires p.league == Some("Premier League")
    requires p.teamHome == Some("Team C") && p.teamAway == Some("Team D")
    ensures !MatchesQuery(p, "liga")
  {
    NoLigaRecord(p, "Premier League", 8);
  }

  lemma SerieANoLiga(p: Prediction)
    requires p.league == Some("Serie A")
    requires p.teamHome == Some("Team G") && p.teamAway == Some("Team H")
    ensures !MatchesQuery(p, "liga")
  {
    NoLigaRecord(p, "Serie A", 7);
  }

  lemma FriendlyNoLiga(p: Prediction)
    requires p.league == Some("Friendly")
    requires p.teamHome == Some("Team I") && p.teamAway == Some("Team J")
    ensures !MatchesQuery(p, "liga")
  {
    NoLigaRecord(p, "Friendly", 6);
  }

  /** A record whose league is `x + "Liga"` matches `liga`. */
  lemma LigaLeagueMatches(p: Prediction, x: string)
    requires p.league == Some(x + "Liga")
    ensures MatchesQuery(p, "liga")
  {
    var y := ToLower(x);
    LowerAppend(x, "Liga");
    LowerLiga();
    assert OccursAt(y + "liga", "liga", |y|);
    IncludesIffOccurs(y + "liga", "liga");
  }

  /** Typing `Liga` in the search box searches for `liga`. */
  lemma QueryOfLiga()
    ensures QueryOf("Liga") == "liga"
  {
    TrimOfUntrimmed("Liga");
    LowerLiga();
  }

  /** Lower-casing `Liga` gives `liga`. */
  lemma LowerLiga()
    ensures ToLower("Liga") == "liga"
  {
    LowerAppend("L", "iga");
    LowerOfLowerCase("iga");
    assert ToLower("L") == "l";
  }

  /** Which of the sample records match `liga`: the La Liga record, and none
      of the others. */
  lemma SampleMatchesLiga(d1: Timestamp, d2: Timestamp, d3: Timestamp, d4: Timestamp, d5: Timestamp, i: int)
    requires 0 <= i < 5
    ensures MatchesQuery(SampleData(d1, d2, d3, d4, d5)[i], "liga") <==> i == 2
  {
    var p := SampleData(d1, d2, d3, d4, d5)[i];
    if i == 0 {
      ChampionsLeagueNoLiga(p);
    } else if i == 1 {
      PremierLeagueNoLiga(p);
    } else if i == 2 {
      assert "La Liga" == "La " + "Liga";
      LigaLeagueMatches(p, "La ");
    } else if i == 3 {
      SerieANoLiga(p);
    } else {
      FriendlyNoLiga(p);
    }
  }

  /** The sample records that mention `liga`: the La Liga record alone. */
  lemma SamplesMatchingLiga(d1: Timestamp, d2: Timestamp, d3: Timestamp, d4: Timestamp, d5: Timestamp)
    ensures var samples := SampleData(d1, d2, d3, d4, d5);
            ApplySearch(samples, "liga") == [samples[2]]
  {
    var samples := SampleData(d1, d2, d3, d4, d5);
    var m := Matching("liga");
    forall i | 0 <= i < 5 ensures m(samples[i]) <==> i == 2 {
      SampleMatchesLiga(d1, d2, d3, d4, d5, i);
    }
    FilterKeepsThird(samples, m);
  }

  /** Searching the sample records for `Liga` finds the La Liga record and no
      other. */
  lemma SearchLigaInSamples(d1: Timestamp, d2: Timestamp, d3: Timestamp, d4: Timestamp, d5: Timestamp)
    ensures var samples := SampleData(d1, d2, d3, d4, d5);
            ApplySearch(samples, QueryOf("Liga")) == [samples[2]]
  {
    QueryOfLiga();
    SamplesMatchingLiga(d1, d2, d3, d4, d5);
  }

  /** Every displayed record comes from the record collection, passes the
      date filter and matches the query; the list is sorted by match time. */
  lemma DerivedViewSound(records: seq<Prediction>, filterName: string, searchValue: string,
                         limitValue: string, clock: Clock)
    ensures var r := DerivedView(records, filterName, searchValue, limitValue, clock);
            && SortedByDate(r)
            && forall p :: p in r ==>
                 && p in records
                 && KeptByDate(DateFilterOf(filterName), clock, p)
                 && (QueryOf(searchValue) == "" || MatchesQuery(p, QueryOf(searchValue)))
  {
    var f, q := DateFilterOf(filterName), QueryOf(searchValue);
    var dated := ApplyDateFilter(records, f, clock);
    var found := ApplySearch(dated, q);
    var sorted := SortByDate(found);
    var r := DerivedView(records, filterName, searchValue, limitValue, clock);
    DateFilterKeeps(records, f, clock);
    SearchKeeps(dated, q);
    SortByDateSorted(found);
    SortByDatePermutes(found);
    var n := SliceEnd(|sorted|, LimitOf(limitValue));
    assert r == sorted[..n];
    SortedSlice(sorted, 0, n);
    assert sorted[0..n] == r;
    forall p | p in r
      ensures p in records && KeptByDate(f, clock, p) && (q == "" || MatchesQuery(p, q))
    {
      assert p in multiset(sorted);
      assert p in found;
    }
  }

  /** Before truncation the sorted list is a permutation of the filtered one;
      the display is its first `min(limit, n)` records, so it never exceeds a
      non-negative limit and shows every match when there are fewer. */
  lemma DerivedViewLength(records: seq<Prediction>, filterName: string, searchValue: string,
                          limitValue: string, clock: Clock)
    ensures var found := Found(records, filterName, searchValue, clock);
            var r := DerivedView(records, filterName, searchValue, limitValue, clock);
            && multiset(SortByDate(found)) == multiset(found)
            && r <= SortByDate(found)
            && (LimitOf(limitValue).Some? && LimitOf(limitValue).value >= 0 ==>
                  var limit := LimitOf(limitValue).value;
                  && |r| == (if limit < |found| then limit else |found|)
                  && (|found| <= limit ==> r == SortByDate(found)))
            && (LimitOf(limitValue) == None ==> r == [])
  {
    var found := Found(records, filterName, searchValue, clock);
    SortByDatePermutes(found);
  }

  /** The empty state shows exactly when no record passes the filter and the
      search, when the limit is not a number, when it is 0, or when a
      negative limit drops every match from the back. */
  lemma EmptyViewMeaning(records: seq<Prediction>, filterName: string, searchValue: string,
                         limitValue: string, clock: Clock)
    ensures var n := |Found(records, filterName, searchValue, clock)|;
            var limit := LimitOf(limitValue);
            DerivedView(records, filterName, searchValue, limitValue, clock) == [] <==>
              || n == 0
              || limit == None
              || limit == Some(0)
              || (limit.Some? && limit.value < 0 && n + limit.value <= 0)
  {
    var found := Found(records, filterName, searchValue, clock);
    SortByDatePermutes(found);
    assert |SortByDate(found)| == |multiset(SortByDate(found))| == |found|;
  }
}
