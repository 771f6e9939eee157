/**
 * The software list page: the three-part filter behind the table and the
 * statistics cards (total, distinct owners, published in the last 7 days,
 * number shown).
 */
module SoftwareList {
  import opened Seqs
  import opened Strings
  import opened SoftwareTypes
  import opened Filters

  /**
   * The UTC calendar day of a release, `toISOString().split('T')[0]`; the
   * timestamp is taken to be in ISO form already, so the day is the text
   * before its 'T'.
   */
  function PublishDay(sw: Software): (day: string)
    ensures day <= sw.publishedAt && 'T' !in day
    ensures day == sw.publishedAt || sw.publishedAt[|day|] == 'T'
  {
    PrefixBefore(sw.publishedAt, 'T')
  }

  /** Case-insensitive match of the search term against the name or the id. */
  predicate MatchesSearch(sw: Software, term: string)
    ensures term == "" ==> MatchesSearch(sw, term)
    ensures MatchesSearch(sw, term) ==> |term| <= |sw.name| || |term| <= |sw.softwareId|
  {
    assert ToLower("") == "";
    assert Contains(ToLower(sw.name), ToLower(term)) ==> |term| <= |sw.name| by {
      if Contains(ToLower(sw.name), ToLower(term)) {
        ContainsIsShorter(ToLower(sw.name), ToLower(term));
      }
    }
    assert Contains(ToLower(sw.softwareId), ToLower(term)) ==> |term| <= |sw.softwareId| by {
      if Contains(ToLower(sw.softwareId), ToLower(term)) {
        ContainsIsShorter(ToLower(sw.softwareId), ToLower(term));
      }
    }
    Contains(ToLower(sw.name), ToLower(term)) || Contains(ToLower(sw.softwareId), ToLower(term))
  }

  /** Case-sensitive owner match; an empty owner filter matches everything. */
  predicate MatchesOwner(sw: Software, owner: string)
    ensures owner == "" ==> MatchesOwner(sw, owner)
    ensures MatchesOwner(sw, owner) ==> |owner| <= |sw.owner|
  {
    assert Contains(sw.owner, owner) ==> |owner| <= |sw.owner| by {
      if Contains(sw.owner, owner) {
        ContainsIsShorter(sw.owner, owner);
      }
    }
    owner == "" || Contains(sw.owner, owner)
  }

  /** Exact publish-day match; an empty day filter matches everything. */
  predicate MatchesDate(sw: Software, day: string)
    ensures day == "" ==> MatchesDate(sw, day)
    ensures MatchesDate(sw, day) && day != "" ==> day <= sw.publishedAt && 'T' !in day
  {
    day == "" || PublishDay(sw) == day
  }

  /** The predicate handed to `softwares.filter`. */
  predicate Passes(sw: Software, filters: FilterState)
    ensures filters == EmptyFilters ==> Passes(sw, filters)
    ensures Passes(sw, filters) ==> |filters.owner| <= |sw.owner|
    ensures Passes(sw, filters) && filters.dateRange != "" ==> PublishDay(sw) == filters.dateRange
  {
    MatchesSearch(sw, filters.searchTerm) && MatchesOwner(sw, filters.owner) && MatchesDate(sw, filters.dateRange)
  }

  /** `software => matchesSearch && matchesOwner && matchesDate`, as a function value. */
  function PassesFn(filters: FilterState): Software -> bool {
    sw => Passes(sw, filters)
  }

  /**
   * `filteredSoftwares`: the records passing all three tests, in their
   * original order, each as often as in the input; a record is dropped
   * exactly when one of the tests fails.
   */
  function FilteredSoftwares(softwares: seq<Software>, filters: FilterState): (r: seq<Software>)
    ensures IsSubsequence(r, softwares) && |r| <= |softwares|
    ensures forall sw :: sw in r <==> sw in softwares && Passes(sw, filters)
    ensures forall sw :: multiset(r)[sw] == if Passes(sw, filters) then multiset(softwares)[sw] else 0
  {
    var r := Filter(softwares, PassesFn(filters));
    FilterSelects(softwares, PassesFn(filters));
    assert forall sw :: sw in r <==> sw in multiset(r);
    r
  }

  /**
   * The filter, spelled out positionally: a record passes exactly when the
   * lower-cased term occurs at some position of the lower-cased name or id,
   * the owner filter is empty or occurs at some position of the owner, and
   * the day filter is empty or equals the text before the first 'T'.
   */
  lemma PassesIff(sw: Software, filters: FilterState)
    ensures Passes(sw, filters) <==>
      && ((exists i: nat :: OccursAt(ToLower(sw.name), ToLower(filters.searchTerm), i))
          || (exists i: nat :: OccursAt(ToLower(sw.softwareId), ToLower(filters.searchTerm), i)))
      && (filters.owner == "" || exists i: nat :: OccursAt(sw.owner, filters.owner, i))
      && (filters.dateRange == "" || PrefixBefore(sw.publishedAt, 'T') == filters.dateRange)
  {
    ContainsIffOccurs(ToLower(sw.name), ToLower(filters.searchTerm));
    ContainsIffOccurs(ToLower(sw.softwareId), ToLower(filters.searchTerm));
    ContainsIffOccurs(sw.owner, filters.owner);
  }

  /** The search ignores the case of the term. */
  lemma SearchIgnoresTermCase(sw: Software, term: string)
    ensures MatchesSearch(sw, term) == MatchesSearch(sw, ToLower(term))
  {
    ToLowerIdempotent(term);
  }

  /** With all three filters empty the list is shown whole, in its original order. */
  lemma EmptyFiltersKeepAll(softwares: seq<Software>)
    ensures FilteredSoftwares(softwares, EmptyFilters) == softwares
  {
    forall i | 0 <= i < |softwares| ensures Passes(softwares[i], EmptyFilters) {
      assert ToLower("") == "";
    }
    FilterKeepsAll(softwares, PassesFn(EmptyFilters));
  }

  /** The owner filter, unlike the search, does not ignore case. */
  lemma OwnerMatchIsCaseSensitive()
    ensures var sw := Software("sw-001", "1.0.0", "AwesomeApp", "user_12345", "2025-06-01T10:00:00Z");
      MatchesOwner(sw, "user") && !MatchesOwner(sw, "USER")
  {
    assert "user" <= "user_12345";
    if Contains("user_12345", "USER") {
      ContainsFirstChar("user_12345", "USER");
    }
  }

  /** `softwares.map(s => s.owner)`. */
  function OwnerNames(softwares: seq<Software>): (owners: seq<string>)
    ensures |owners| == |softwares|
    ensures forall i :: 0 <= i < |softwares| ==> owners[i] == softwares[i].owner
  {
    seq(|softwares|, i requires 0 <= i < |softwares| => softwares[i].owner)
  }

  /**
   * `uniqueOwners`: the number of distinct owners, never more than the
   * number of records and at least one when there is a record.
   */
  function UniqueOwners(softwares: seq<Software>): (n: nat)
    ensures n == |set o | o in OwnerNames(softwares)|
    ensures n <= |softwares|
    ensures softwares != [] ==> n >= 1
  {
    DistinctElementsBound(OwnerNames(softwares));
    |set o | o in OwnerNames(softwares)|
  }

  /** Seven days in milliseconds: the distance from `now` back to `weekAgo`. */
  const WeekMillis: int := 7 * 24 * 60 * 60 * 1000

  /**
   * `new Date(s.publishedAt) > weekAgo`; parse gives the timestamp in
   * milliseconds, or None for an Invalid Date, which compares false.
   */
  predicate IsRecent(sw: Software, now: int, parse: string -> Option<int>)
    ensures IsRecent(sw, now, parse) ==> parse(sw.publishedAt).Some?
    ensures parse(sw.publishedAt).Some? ==>
      (IsRecent(sw, now, parse) <==> now - parse(sw.publishedAt).value < WeekMillis)
  {
    var t := parse(sw.publishedAt);
    t.Some? && t.value > now - WeekMillis
  }

  /**
   * `recentSoftwares`: how many records were published strictly after one
   * week before now; all of them exactly when every record is that recent,
   * none exactly when no record is.
   */
  function RecentSoftwares(softwares: seq<Software>, now: int, parse: string -> Option<int>): (n: nat)
    ensures n <= |softwares|
    ensures n == |softwares| <==> forall i :: 0 <= i < |softwares| ==> IsRecent(softwares[i], now, parse)
    ensures n == 0 <==> forall i :: 0 <= i < |softwares| ==> !IsRecent(softwares[i], now, parse)
  {
    FilterSelects(softwares, sw => IsRecent(sw, now, parse));
    FilterKeepsLength(softwares, sw => IsRecent(sw, now, parse));
    FilterEmpty(softwares, sw => IsRecent(sw, now, parse));
    |Filter(softwares, sw => IsRecent(sw, now, parse))|
  }

  /** The four statistics cards. */
  datatype ListStats = ListStats(total: nat, uniqueOwners: nat, recent: nat, shown: nat)

  /**
   * The cards: total, owners and recent are computed over the whole list,
   * whatever the filters; only the last card counts the filtered records.
   */
  function Statistics(softwares: seq<Software>, filters: FilterState, now: int, parse: string -> Option<int>): (st: ListStats)
    ensures st.total == |softwares|
    ensures st.uniqueOwners <= st.total && st.recent <= st.total && st.shown <= st.total
    ensures softwares != [] ==> st.uniqueOwners >= 1
    ensures filters == EmptyFilters ==> st.shown == st.total
    ensures st.uniqueOwners == UniqueOwners(softwares) && st.recent == RecentSoftwares(softwares, now, parse)
    ensures st.shown == |FilteredSoftwares(softwares, filters)|
  {
    assert filters == EmptyFilters ==> |FilteredSoftwares(softwares, filters)| == |softwares| by {
      if filters == EmptyFilters { EmptyFiltersKeepAll(softwares); }
    }
    ListStats(|softwares|, UniqueOwners(softwares), RecentSoftwares(softwares, now, parse),
              |FilteredSoftwares(softwares, filters)|)
  }

  /** With the search and day filters empty, only the owner test decides. */
  lemma OwnerOnlyFilter(sw: Software, owner: string)
    ensures Passes(sw, FilterState("", owner, "")) == MatchesOwner(sw, owner)
  {
    assert ToLower("") == "";
  }

  /** A string of the same length as t that differs from it does not contain t. */
  lemma SameLengthNotContains(s: string, t: string, i: nat)
    requires |s| == |t| && i < |s| && s[i] != t[i]
    ensures !Contains(s, t)
  {
    if Contains(s, t) {
      ContainsIsShorter(s[1..], t);
    }
  }

  /** Which of the four example owners the owner filter "user_12345" lets through. */
  lemma OwnerScenarioTests(a: Software, b: Software, c: Software, d: Software)
    requires a.owner == c.owner == "user_12345"
    requires b.owner == "user_67890" && d.owner == "user_99999"
    ensures var f := FilterState("", "user_12345", "");
      Passes(a, f) && !Passes(b, f) && Passes(c, f) && !Passes(d, f)
  {
    var owner := "user_12345";
    OwnerOnlyFilter(a, owner);
    OwnerOnlyFilter(b, owner);
    OwnerOnlyFilter(c, owner);
    OwnerOnlyFilter(d, owner);
    assert owner <= a.owner && owner <= c.owner;
    SameLengthNotContains(b.owner, owner, 5);
    SameLengthNotContains(d.owner, owner, 5);
  }

  /** Filtering four elements of which only the first and the third pass keeps those two. */
  lemma KeepFirstAndThird<T(!new)>(a: T, b: T, c: T, d: T, p: T -> bool)
    requires p(a) && !p(b) && p(c) && !p(d)
    ensures Filter([a, b, c, d], p) == [a, c]
  {
    assert [d][1..] == [];
    FilterCons([d], p);
    assert Filter([d], p) == [];
    assert [c, d][1..] == [d];
    FilterCons([c, d], p);
    assert Filter([c, d], p) == [c];
    assert [b, c, d][1..] == [c, d];
    FilterCons([b, c, d], p);
    assert Filter([b, c, d], p) == [c];
    assert [a, b, c, d][1..] == [b, c, d];
    FilterCons([a, b, c, d], p);
  }

  /**
   * Four releases owned by user_12345, user_67890, user_12345 and user_99999:
   * the owner filter "user_12345" keeps exactly the first and the third, in
   * that order.
   */
  lemma OwnerFilterScenario(a: Software, b: Software, c: Software, d: Software)
    requires a.owner == c.owner == "user_12345"
    requires b.owner == "user_67890" && d.owner == "user_99999"
    ensures FilteredSoftwares([a, b, c, d], FilterState("", "user_12345", "")) == [a, c]
  {
    var p := PassesFn(FilterState("", "user_12345", ""));
    OwnerScenarioTests(a, b, c, d);
    assert p(a) && !p(b) && p(c) && !p(d);
    KeepFirstAndThird(a, b, c, d, p);
  }
}
