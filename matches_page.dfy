/** The list logic of the fixtures page (frontend/src/pages/Matches.tsx): the
    search, league and date filters, the newest-first sort and the grouping
    of the sorted list by day. Date parsing is the parameter `instant`, the
    millisecond timestamp `new Date(text).getTime()` gives. */
module MatchesPage {
  import opened Wrappers
  import opened Text
  import opened Lists
  import opened ClientTypes

  /** The key of the group of matches without a usable date. */
  const NoDate: string := "Sin fecha"

  /** The league selector: every league, or one by name. */
  datatype LeagueChoice = AllLeagues | OneLeague(name: string)

  /** `field` holds `term` somewhere, ignoring case. */
  ghost predicate Mentions(field: string, term: string) {
    exists i :: OccursAt(ToLower(field), ToLower(term), i)
  }

  /** The search box test: home team, away team or venue, ignoring case. */
  predicate MatchesSearch(m: ClientMatch, term: string) {
    || Contains(ToLower(m.homeTeam), ToLower(term))
    || Contains(ToLower(m.awayTeam), ToLower(term))
    || (m.venue.Some? && Contains(ToLower(m.venue.value), ToLower(term)))
  }

  /** The search holds exactly when the term occurs, ignoring case, in the
      home team, the away team or a venue the match has. */
  lemma SearchIff(m: ClientMatch, term: string)
    ensures MatchesSearch(m, term) <==>
      Mentions(m.homeTeam, term) || Mentions(m.awayTeam, term) || (m.venue.Some? && Mentions(m.venue.value, term))
  {
    ContainsIff(ToLower(m.homeTeam), ToLower(term));
    ContainsIff(ToLower(m.awayTeam), ToLower(term));
    if m.venue.Some? {
      ContainsIff(ToLower(m.venue.value), ToLower(term));
    }
  }

  /** An empty search lets every match through. */
  lemma EmptySearchKeepsAll(m: ClientMatch)
    ensures MatchesSearch(m, "")
  {
    ContainsEmpty(ToLower(m.homeTeam));
  }

  predicate MatchesLeague(m: ClientMatch, choice: LeagueChoice) {
    choice.AllLeagues? || m.league == choice.name
  }

  predicate MatchesDate(m: ClientMatch, dateFilter: string) {
    dateFilter == "" || Contains(m.dateEvent, dateFilter)
  }

  /** `filteredMatches`: the matches passing all three tests, in list order. */
  function FilteredMatches(ms: seq<ClientMatch>, term: string, choice: LeagueChoice, dateFilter: string)
    : (r: seq<ClientMatch>)
    ensures forall m :: m in r <==>
      m in ms && MatchesSearch(m, term) && MatchesLeague(m, choice) && MatchesDate(m, dateFilter)
  {
    Filter(ms, (m: ClientMatch) => MatchesSearch(m, term) && MatchesLeague(m, choice) && MatchesDate(m, dateFilter))
  }

  /** `sortedMatches`: a copy sorted by date, newest first; matches on the
      same instant keep their order. */
  function SortedMatches(ms: seq<ClientMatch>, instant: string -> int): (r: seq<ClientMatch>)
    ensures multiset(r) == multiset(ms)
    ensures forall i, j :: 0 <= i < j < |r| ==> instant(r[i].dateEvent) >= instant(r[j].dateEvent)
  {
    var r := SortBy(ms, (m: ClientMatch) => -instant(m.dateEvent));
    assert SortedBy(r, (m: ClientMatch) => -instant(m.dateEvent));
    r
  }

  /** The day a match is grouped under: its date text up to the first `T`,
      or "Sin fecha" when that part is empty. */
  function GroupKey(m: ClientMatch): (k: string)
    ensures m.dateEvent == [] || m.dateEvent[0] == 'T' ==> k == NoDate
    ensures !(m.dateEvent == [] || m.dateEvent[0] == 'T') ==>
      && k != [] && k <= m.dateEvent && 'T' !in k
      && (|k| < |m.dateEvent| ==> m.dateEvent[|k|] == 'T')
  {
    var day := BeforeFirst(m.dateEvent, 'T');
    if day == "" then NoDate else day
  }

  /** One entry of the grouping object. */
  datatype Group<T> = Group(key: string, items: seq<T>)

  /** Where the group with this key is, if there is one. */
  function KeyIndex<T>(gs: seq<Group<T>>, key: string): (k: Option<nat>)
    ensures k.Some? ==> k.value < |gs| && gs[k.value].key == key
    ensures k.None? <==> forall j :: 0 <= j < |gs| ==> gs[j].key != key
  {
    if gs == [] then None
    else if gs[0].key == key then Some(0)
    else match KeyIndex(gs[1..], key)
      case None => None
      case Some(k) => Some(k + 1)
  }

  /** One step of the `reduce`: push onto the group of the key, opening it
      at the end when there is none. */
  function AddToGroup<T>(gs: seq<Group<T>>, key: string, x: T): seq<Group<T>> {
    match KeyIndex(gs, key)
    case Some(i) => gs[i := gs[i].(items := gs[i].items + [x])]
    case None => gs + [Group(key, [x])]
  }

  /** The `reduce` over a list, with the groups in the order their keys
      first appear. */
  function GroupBy<T>(s: seq<T>, key: T -> string): seq<Group<T>>
    decreases |s|
  {
    if s == [] then []
    else AddToGroup(GroupBy(s[..|s| - 1], key), key(s[|s| - 1]), s[|s| - 1])
  }

  function HasKey<T>(key: T -> string, k: string): T -> bool {
    (x: T) => key(x) == k
  }

  ghost predicate DistinctKeys<T>(gs: seq<Group<T>>) {
    forall i, j :: 0 <= i < j < |gs| ==> gs[i].key != gs[j].key
  }

  ghost predicate NonEmptyGroups<T>(gs: seq<Group<T>>) {
    forall i :: 0 <= i < |gs| ==> gs[i].items != []
  }

  /** Each group holds exactly the elements of its key, in list order. */
  ghost predicate GroupsAreFilters<T>(gs: seq<Group<T>>, s: seq<T>, key: T -> string) {
    forall i :: 0 <= i < |gs| ==> gs[i].items == Filter(s, HasKey(key, gs[i].key))
  }

  ghost predicate CoversAll<T>(gs: seq<Group<T>>, s: seq<T>, key: T -> string) {
    forall x :: x in s ==> KeyIndex(gs, key(x)).Some?
  }

  lemma AddToGroupShape<T>(gs: seq<Group<T>>, k: string, x: T)
    requires DistinctKeys(gs)
    ensures var gs2 := AddToGroup(gs, k, x);
      && DistinctKeys(gs2)
      && KeyIndex(gs2, k).Some?
      && (KeyIndex(gs, k).Some? ==> |gs2| == |gs|)
      && (KeyIndex(gs, k).None? ==> gs2 == gs + [Group(k, [x])])
      && (forall j :: 0 <= j < |gs| ==> gs2[j].key == gs[j].key)
  {
    var gs2 := AddToGroup(gs, k, x);
    if KeyIndex(gs, k).None? {
      assert gs2[|gs|].key == k;
    } else {
      assert gs2[KeyIndex(gs, k).value].key == k;
    }
  }

  lemma NoneOfKey<T>(s: seq<T>, key: T -> string, k: string)
    requires forall x :: x in s ==> key(x) != k
    ensures Filter(s, HasKey(key, k)) == []
  {
  }

  lemma AddToGroupFilters<T>(gs: seq<Group<T>>, s: seq<T>, key: T -> string, x: T)
    requires DistinctKeys(gs) && GroupsAreFilters(gs, s, key) && CoversAll(gs, s, key)
    ensures GroupsAreFilters(AddToGroup(gs, key(x), x), s + [x], key)
  {
    var gs2 := AddToGroup(gs, key(x), x);
    AddToGroupShape(gs, key(x), x);
    forall i | 0 <= i < |gs2| ensures gs2[i].items == Filter(s + [x], HasKey(key, gs2[i].key)) {
      FilterSnoc(s, x, HasKey(key, gs2[i].key));
      if i == |gs| {
        NoneOfKey(s, key, key(x));
      }
    }
  }

  lemma AddToGroupCovers<T>(gs: seq<Group<T>>, s: seq<T>, key: T -> string, x: T)
    requires DistinctKeys(gs) && CoversAll(gs, s, key) && NonEmptyGroups(gs)
    ensures CoversAll(AddToGroup(gs, key(x), x), s + [x], key)
    ensures NonEmptyGroups(AddToGroup(gs, key(x), x))
  {
    var gs2 := AddToGroup(gs, key(x), x);
    AddToGroupShape(gs, key(x), x);
    forall y | y in s + [x] ensures KeyIndex(gs2, key(y)).Some? {
      if y in s {
        assert gs2[KeyIndex(gs, key(y)).value].key == key(y);
      }
    }
  }

  lemma {:induction false} GroupByShape<T>(s: seq<T>, key: T -> string)
    ensures DistinctKeys(GroupBy(s, key)) && NonEmptyGroups(GroupBy(s, key)) && CoversAll(GroupBy(s, key), s, key)
    decreases |s|
  {
    if s != [] {
      var init := s[..|s| - 1];
      var x := s[|s| - 1];
      GroupByShape(init, key);
      AddToGroupShape(GroupBy(init, key), key(x), x);
      AddToGroupCovers(GroupBy(init, key), init, key, x);
      assert init + [x] == s;
    }
  }

  lemma {:induction false} GroupByFilters<T>(s: seq<T>, key: T -> string)
    ensures GroupsAreFilters(GroupBy(s, key), s, key)
    decreases |s|
  {
    if s != [] {
      var init := s[..|s| - 1];
      var x := s[|s| - 1];
      GroupByFilters(init, key);
      GroupByShape(init, key);
      AddToGroupFilters(GroupBy(init, key), init, key, x);
      assert init + [x] == s;
    }
  }

  /** The grouping fold gives distinct, non-empty groups, each exactly the
      elements of its key in list order, and a group for every element. */
  lemma GroupByGroups<T>(s: seq<T>, key: T -> string)
    ensures var gs := GroupBy(s, key);
      DistinctKeys(gs) && NonEmptyGroups(gs) && GroupsAreFilters(gs, s, key) && CoversAll(gs, s, key)
  {
    GroupByShape(s, key);
    GroupByFilters(s, key);
  }

  /** Every element lands in exactly one group, the one of its own key. */
  lemma ExactlyOneGroup<T>(s: seq<T>, key: T -> string, x: T)
    requires x in s
    ensures var gs := GroupBy(s, key);
      && (exists i :: 0 <= i < |gs| && gs[i].key == key(x) && x in gs[i].items)
      && (forall i :: 0 <= i < |gs| && x in gs[i].items ==> gs[i].key == key(x))
  {
    var gs := GroupBy(s, key);
    GroupByGroups(s, key);
    var k := KeyIndex(gs, key(x)).value;
    assert HasKey(key, gs[k].key)(x);
    forall i | 0 <= i < |gs| && x in gs[i].items ensures gs[i].key == key(x) {
      var items := Filter(s, HasKey(key, gs[i].key));
      var j :| 0 <= j < |items| && items[j] == x;
      assert HasKey(key, gs[i].key)(items[j]);
    }
  }

  /** `groupedMatches`. */
  function GroupByDay(ms: seq<ClientMatch>): seq<Group<ClientMatch>> {
    GroupBy(ms, GroupKey)
  }

  /** What the page shows: the filtered list, newest first, grouped by day. */
  function GroupedMatches(ms: seq<ClientMatch>, term: string, choice: LeagueChoice, dateFilter: string,
                          instant: string -> int): seq<Group<ClientMatch>> {
    GroupByDay(SortedMatches(FilteredMatches(ms, term, choice, dateFilter), instant))
  }

  /** A match is shown, under its own day, exactly when it passes the three
      filters; within a day the matches are newest first. */
  lemma GroupedMatchesShow(ms: seq<ClientMatch>, term: string, choice: LeagueChoice, dateFilter: string,
                           instant: string -> int, m: ClientMatch)
    ensures var gs := GroupedMatches(ms, term, choice, dateFilter, instant);
      && ((exists i :: 0 <= i < |gs| && m in gs[i].items) <==>
            m in ms && MatchesSearch(m, term) && MatchesLeague(m, choice) && MatchesDate(m, dateFilter))
      && (forall i :: 0 <= i < |gs| && m in gs[i].items ==> gs[i].key == GroupKey(m))
      && (forall i, a, b :: 0 <= i < |gs| && 0 <= a < b < |gs[i].items| ==>
            instant(gs[i].items[a].dateEvent) >= instant(gs[i].items[b].dateEvent))
  {
    var filtered := FilteredMatches(ms, term, choice, dateFilter);
    var sorted := SortedMatches(filtered, instant);
    var gs := GroupByDay(sorted);
    GroupByGroups(sorted, GroupKey);
    InSortedMatches(filtered, instant, m);
    if m in sorted {
      ExactlyOneGroup(sorted, GroupKey, m);
    } else {
      NotGrouped(sorted, GroupKey, m);
    }
    forall i | 0 <= i < |gs|
      ensures forall a, b :: 0 <= a < b < |gs[i].items| ==>
        instant(gs[i].items[a].dateEvent) >= instant(gs[i].items[b].dateEvent)
    {
      NewestFirstFiltered(sorted, HasKey(GroupKey, gs[i].key), instant);
    }
  }

  lemma InSortedMatches(ms: seq<ClientMatch>, instant: string -> int, m: ClientMatch)
    ensures m in SortedMatches(ms, instant) <==> m in ms
  {
    assert m in SortedMatches(ms, instant) <==> m in multiset(SortedMatches(ms, instant));
  }

  lemma NotGrouped<T>(s: seq<T>, key: T -> string, x: T)
    requires x !in s
    requires GroupsAreFilters(GroupBy(s, key), s, key)
    ensures forall i :: 0 <= i < |GroupBy(s, key)| ==> x !in GroupBy(s, key)[i].items
  {
  }

  /** Filtering a newest-first list keeps it newest first. */
  lemma NewestFirstFiltered(s: seq<ClientMatch>, p: ClientMatch -> bool, instant: string -> int)
    requires forall i, j :: 0 <= i < j < |s| ==> instant(s[i].dateEvent) >= instant(s[j].dateEvent)
    ensures forall a, b :: 0 <= a < b < |Filter(s, p)| ==>
      instant(Filter(s, p)[a].dateEvent) >= instant(Filter(s, p)[b].dateEvent)
  {
    var key := (m: ClientMatch) => -instant(m.dateEvent);
    assert SortedBy(s, key);
    FilterSorted(s, p, key);
    assert SortedBy(Filter(s, p), key);
  }
}
