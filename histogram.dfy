/**
 * The dictionary every chart builds with
 *   `items.reduce((acc, x) => { acc[key(x)] = (acc[key(x)] || 0) + 1; return acc; }, {})`
 * and then reads back with `Object.entries`. For the string keys the charts
 * use, `Object.entries` lists the keys in the order they were first inserted,
 * so the dictionary is modelled as a sequence of (key, count) entries in that
 * order.
 */
module Histogram {
  import opened Seqs
  import opened Strings

  /** A count-per-key dictionary in insertion order. */
  type Histogram<K> = seq<(K, nat)>

  /** `Object.keys(acc)`. */
  function Keys<K>(h: Histogram<K>): (ks: seq<K>)
    ensures |ks| == |h|
  {
    seq(|h|, i requires 0 <= i < |h| => h[i].0)
  }

  /** No key is listed twice, as in a JavaScript object. */
  predicate DistinctKeys<K(==)>(h: Histogram<K>) {
    forall i, j :: 0 <= i < j < |h| ==> h[i].0 != h[j].0
  }

  /** `acc[k] || 0`: the count stored under k, or 0 when k is absent. */
  function CountOf<K(==)>(h: Histogram<K>, k: K): nat {
    if h == [] then 0
    else if h[0].0 == k then h[0].1
    else CountOf(h[1..], k)
  }

  /** The sum of all counts. */
  function Sum<K>(h: Histogram<K>): nat {
    if h == [] then 0 else h[0].1 + Sum(h[1..])
  }

  /** The sum of the counts a chart series shows, count reading one item's count. */
  function Total<T>(d: seq<T>, count: T -> nat): nat {
    if d == [] then 0 else count(d[0]) + Total(d[1..], count)
  }

  /** A series showing a histogram's counts entry by entry adds up to the histogram's total. */
  lemma {:induction false} TotalIsSum<T, K>(d: seq<T>, count: T -> nat, h: Histogram<K>)
    requires |d| == |h| && forall i :: 0 <= i < |d| ==> count(d[i]) == h[i].1
    ensures Total(d, count) == Sum(h)
  {
    if d != [] {
      TotalIsSum(d[1..], count, h[1..]);
    }
  }

  /** `acc[k] = (acc[k] || 0) + 1`, on the entry sequence. */
  function Bump<K(==)>(h: Histogram<K>, k: K): (r: Histogram<K>)
    ensures Sum(r) == Sum(h) + 1
    ensures |h| <= |r| <= |h| + 1
  {
    if h == [] then [(k, 1)]
    else if h[0].0 == k then [(k, h[0].1 + 1)] + h[1..]
    else [h[0]] + Bump(h[1..], k)
  }

  /** A key not yet in the dictionary is appended with count one. */
  lemma {:induction false} BumpAppends<K>(h: Histogram<K>, k: K)
    requires k !in Keys(h)
    ensures Bump(h, k) == h + [(k, 1)]
  {
    if h != [] {
      assert Keys(h)[0] == h[0].0 && Keys(h)[1..] == Keys(h[1..]);
      BumpAppends(h[1..], k);
      assert h + [(k, 1)] == [h[0]] + (h[1..] + [(k, 1)]);
    }
  }

  /** A key already in the dictionary has its entry's count raised in place. */
  lemma {:induction false} BumpInPlace<K>(h: Histogram<K>, k: K, i: nat)
    requires i < |h| && h[i].0 == k && k !in Keys(h)[..i]
    ensures Bump(h, k) == h[i := (k, h[i].1 + 1)]
  {
    if i > 0 {
      assert Keys(h)[..i] == [h[0].0] + Keys(h[1..])[..i - 1];
      BumpInPlace(h[1..], k, i - 1);
    }
  }

  /**
   * Counting k once more: the count under k goes up by one, every other
   * count stays, and the total goes up by one.
   */
  lemma {:induction false} BumpCounts<K>(h: Histogram<K>, k: K)
    ensures CountOf(Bump(h, k), k) == CountOf(h, k) + 1
    ensures forall j :: j != k ==> CountOf(Bump(h, k), j) == CountOf(h, j)
    ensures Sum(Bump(h, k)) == Sum(h) + 1
  {
    if h != [] && h[0].0 != k {
      BumpCounts(h[1..], k);
    }
  }

  /**
   * The keys after counting k: unchanged when k is already there, k appended
   * otherwise; so no key is ever listed twice.
   */
  lemma {:induction false} BumpKeys<K>(h: Histogram<K>, k: K)
    ensures Keys(Bump(h, k)) == if k in Keys(h) then Keys(h) else Keys(h) + [k]
    ensures DistinctKeys(h) ==> DistinctKeys(Bump(h, k))
  {
    if k in Keys(h) {
      var i := FirstIndex(Keys(h), k);
      BumpInPlace(h, k, i);
      assert Keys(Bump(h, k)) == Keys(h);
      if DistinctKeys(h) {
        assert forall m :: 0 <= m < |h| ==> Bump(h, k)[m].0 == h[m].0;
      }
    } else {
      BumpAppends(h, k);
      assert Keys(Bump(h, k)) == Keys(h) + [k];
      assert forall m :: 0 <= m < |h| ==> h[m].0 == Keys(h)[m];
    }
  }

  /** The dictionary after the reduce has seen every key of ks, in order. */
  function TallyOf<K(==,!new)>(ks: seq<K>): (h: Histogram<K>)
    ensures Sum(h) == |ks|
    ensures |h| <= |ks|
  {
    if ks == [] then [] else Bump(TallyOf(ks[..|ks| - 1]), ks[|ks| - 1])
  }

  /**
   * The reduce loop itself: one in-place update of the accumulator per item,
   * front to back.
   */
  method Tally<K(==,!new)>(ks: seq<K>) returns (acc: Histogram<K>)
    ensures acc == TallyOf(ks)
  {
    acc := [];
    var i := 0;
    while i < |ks|
      invariant 0 <= i <= |ks|
      invariant acc == TallyOf(ks[..i])
    {
      assert ks[..i + 1][..i] == ks[..i];
      acc := Bump(acc, ks[i]);
      i := i + 1;
    }
    assert ks[..|ks|] == ks;
  }

  /** The index of the first occurrence of k in ks. */
  function FirstIndex<K(==)>(ks: seq<K>, k: K): (i: nat)
    requires k in ks
    ensures i < |ks| && ks[i] == k && k !in ks[..i]
  {
    if ks[0] == k then 0
    else
      var i := 1 + FirstIndex(ks[1..], k);
      assert ks[..i] == [ks[0]] + ks[1..][..i - 1];
      i
  }

  /** Every key occurs in ks, and the keys are listed by their first occurrence in ks. */
  predicate InFirstOccurrenceOrder<K(==)>(keys: seq<K>, ks: seq<K>) {
    && (forall i :: 0 <= i < |keys| ==> keys[i] in ks)
    && (forall i, j :: 0 <= i < j < |keys| ==> FirstIndex(ks, keys[i]) < FirstIndex(ks, keys[j]))
  }

  /** Appending to ks does not move the first occurrence of a key already in ks. */
  lemma FirstIndexAppend<K>(ks: seq<K>, x: K, k: K)
    requires k in ks
    ensures FirstIndex(ks + [x], k) == FirstIndex(ks, k)
  {
    var s, i := ks + [x], FirstIndex(ks, k);
    assert s[..i] == ks[..i] && s[i] == k;
    assert forall j :: i < j <= |s| ==> s[..j][i] == k;
  }

  /** A key that first appears in the last position of ks + [x] has that position. */
  lemma FirstIndexNew<K>(ks: seq<K>, x: K)
    requires x !in ks
    ensures FirstIndex(ks + [x], x) == |ks|
  {
  }

  /** The reduce's result has no repeated key, and its keys are exactly the keys of ks. */
  lemma {:induction false} TallyKeySet<K(!new)>(ks: seq<K>)
    ensures DistinctKeys(TallyOf(ks))
    ensures forall k :: k in Keys(TallyOf(ks)) <==> k in ks
  {
    if ks != [] {
      var init, x := ks[..|ks| - 1], ks[|ks| - 1];
      assert ks == init + [x];
      TallyKeySet(init);
      BumpKeys(TallyOf(init), x);
    }
  }

  /**
   * Appending x to ks keeps an ordering of ks's keys, and a key seen for the
   * first time comes after all of them.
   */
  lemma OrderAppend<K>(keys: seq<K>, ks: seq<K>, x: K)
    requires InFirstOccurrenceOrder(keys, ks)
    ensures InFirstOccurrenceOrder(keys, ks + [x])
    ensures x !in ks ==> InFirstOccurrenceOrder(keys + [x], ks + [x])
  {
    forall i | 0 <= i < |keys| ensures FirstIndex(ks + [x], keys[i]) == FirstIndex(ks, keys[i]) {
      FirstIndexAppend(ks, x, keys[i]);
    }
    if x !in ks {
      FirstIndexNew(ks, x);
      var keys' := keys + [x];
      forall i, j | 0 <= i < j < |keys'|
        ensures FirstIndex(ks + [x], keys'[i]) < FirstIndex(ks + [x], keys'[j])
      {
        if j < |keys| {
          assert keys'[i] == keys[i] && keys'[j] == keys[j];
        }
      }
    }
  }

  /** The keys of the reduce's result are listed in the order they first occur in ks. */
  lemma {:induction false} TallyKeyOrder<K(!new)>(ks: seq<K>)
    ensures InFirstOccurrenceOrder(Keys(TallyOf(ks)), ks)
  {
    if ks != [] {
      var init, x := ks[..|ks| - 1], ks[|ks| - 1];
      assert ks == init + [x];
      TallyKeyOrder(init);
      TallyKeySet(init);
      BumpKeys(TallyOf(init), x);
      OrderAppend(Keys(TallyOf(init)), init, x);
    }
  }

  /**
   * The keys of the reduce's result: every key occurs once, exactly the keys
   * of ks appear, and they are listed in first-occurrence order.
   */
  lemma TallyKeys<K(!new)>(ks: seq<K>)
    ensures DistinctKeys(TallyOf(ks))
    ensures forall k :: k in Keys(TallyOf(ks)) <==> k in ks
    ensures InFirstOccurrenceOrder(Keys(TallyOf(ks)), ks)
  {
    TallyKeySet(ks);
    TallyKeyOrder(ks);
  }

  /**
   * The counts of the reduce's result: the count under each key is the number
   * of times it occurs in ks, and the counts add up to |ks|.
   */
  lemma {:induction false} TallyCounts<K(!new)>(ks: seq<K>)
    ensures forall k :: CountOf(TallyOf(ks), k) == multiset(ks)[k]
    ensures Sum(TallyOf(ks)) == |ks|
  {
    if ks != [] {
      var init, x := ks[..|ks| - 1], ks[|ks| - 1];
      assert ks == init + [x];
      TallyCounts(init);
      BumpCounts(TallyOf(init), x);
    }
  }

  /** In a dictionary without repeated keys, an entry's count is the count under its key. */
  lemma {:induction false} CountOfEntry<K>(h: Histogram<K>, i: nat)
    requires DistinctKeys(h) && i < |h|
    ensures CountOf(h, h[i].0) == h[i].1
  {
    if i > 0 {
      assert DistinctKeys(h[1..]);
      CountOfEntry(h[1..], i - 1);
    }
  }

  /**
   * Entry by entry: each count is the number of occurrences of its key in
   * ks, so no bucket is empty, and there is one entry per distinct key.
   */
  lemma TallyEntries<K(!new)>(ks: seq<K>)
    ensures forall i :: 0 <= i < |TallyOf(ks)| ==>
      TallyOf(ks)[i].1 == multiset(ks)[TallyOf(ks)[i].0] && TallyOf(ks)[i].1 >= 1
    ensures |TallyOf(ks)| == |set k | k in ks|
    ensures TallyOf(ks) == [] <==> ks == []
  {
    TallyKeySet(ks);
    TallyCounts(ks);
    var h := TallyOf(ks);
    forall i | 0 <= i < |h| ensures h[i].1 == multiset(ks)[h[i].0] && h[i].1 >= 1 {
      CountOfEntry(h, i);
      assert Keys(h)[i] in ks;
    }
    DistinctLength(Keys(h));
    assert (set k | k in Keys(h)) == (set k | k in ks);
    if ks != [] {
      assert ks[0] in Keys(h);
    }
  }

  /** Entries in ascending key order (`sort(([a], [b]) => a.localeCompare(b))`). */
  predicate Ascending(h: Histogram<string>) {
    forall i, j :: 0 <= i < j < |h| ==> LexLe(h[i].0, h[j].0)
  }

  lemma KeysCons<K>(e: (K, nat), h: Histogram<K>)
    ensures Keys([e] + h) == [e.0] + Keys(h)
  {
  }

  lemma DistinctKeysCons<K>(e: (K, nat), h: Histogram<K>)
    ensures DistinctKeys([e] + h) <==> e.0 !in Keys(h) && DistinctKeys(h)
  {
    var r := [e] + h;
    if e.0 in Keys(h) {
      var m :| 0 <= m < |h| && Keys(h)[m] == e.0;
      assert r[0].0 == r[m + 1].0;
    }
    if DistinctKeys(r) {
      forall i, j | 0 <= i < j < |h| ensures h[i].0 != h[j].0 {
        assert h[i] == r[i + 1] && h[j] == r[j + 1];
      }
    }
    if e.0 !in Keys(h) && DistinctKeys(h) {
      forall i, j | 0 <= i < j < |r| ensures r[i].0 != r[j].0 {
        if i == 0 {
          assert r[j].0 == Keys(h)[j - 1];
        }
      }
    }
  }

  /**
   * r is h with e inserted: ascending, the same entries plus e, the total
   * grown by e's count, the keys of h plus e's key, and no repeated key when
   * e's key is new.
   */
  ghost predicate IsInsertion(e: (string, nat), h: Histogram<string>, r: Histogram<string>) {
    && Ascending(r)
    && multiset(r) == multiset(h) + multiset{e}
    && Sum(r) == Sum(h) + e.1
    && (forall k :: k in Keys(r) <==> k == e.0 || k in Keys(h))
    && (DistinctKeys(h) && e.0 !in Keys(h) ==> DistinctKeys(r))
  }

  /** An entry whose key comes first is inserted in front. */
  lemma InsertFront(e: (string, nat), h: Histogram<string>)
    requires Ascending(h) && h != [] && LexLe(e.0, h[0].0)
    ensures IsInsertion(e, h, [e] + h)
  {
    var r := [e] + h;
    forall j | 0 < j < |r| ensures LexLe(e.0, r[j].0) {
      if j > 1 {
        LexLeTransitive(e.0, h[0].0, r[j].0);
      }
    }
    KeysCons(e, h);
    DistinctKeysCons(e, h);
  }

  /** An entry whose key comes after the first key is inserted into the rest. */
  lemma InsertLater(e: (string, nat), h: Histogram<string>, rest: Histogram<string>)
    requires Ascending(h) && h != [] && !LexLe(e.0, h[0].0)
    requires IsInsertion(e, h[1..], rest)
    ensures IsInsertion(e, h, [h[0]] + rest)
  {
    var r := [h[0]] + rest;
    assert h == [h[0]] + h[1..];
    LexLeTotal(e.0, h[0].0);
    forall j | 0 < j < |r| ensures LexLe(h[0].0, r[j].0) {
      assert r[j] in multiset(rest);
      if r[j] != e {
        assert r[j] in h[1..];
      }
    }
    KeysCons(h[0], h[1..]);
    KeysCons(h[0], rest);
    DistinctKeysCons(h[0], h[1..]);
    DistinctKeysCons(h[0], rest);
  }

  /**
   * Insertion of one entry into an ascending sequence, before any entry with
   * an equal key; the other entries keep their relative order.
   */
  function InsertByKey(e: (string, nat), h: Histogram<string>): (r: Histogram<string>)
    requires Ascending(h)
    ensures Ascending(r)
    ensures multiset(r) == multiset(h) + multiset{e}
    ensures Sum(r) == Sum(h) + e.1
    ensures forall k :: k in Keys(r) <==> k == e.0 || k in Keys(h)
    ensures DistinctKeys(h) && e.0 !in Keys(h) ==> DistinctKeys(r)
  {
    if h == [] then
      assert Keys([e]) == [e.0];
      [e]
    else if LexLe(e.0, h[0].0) then
      InsertFront(e, h);
      [e] + h
    else
      var rest := InsertByKey(e, h[1..]);
      InsertLater(e, h, rest);
      [h[0]] + rest
  }

  /**
   * The histogram's entries sorted by key (`sort` with `localeCompare` on the
   * keys): ascending, the same entries, the same keys and the same total.
   */
  function SortByKey(h: Histogram<string>): (r: Histogram<string>)
    ensures Ascending(r)
    ensures multiset(r) == multiset(h)
    ensures Sum(r) == Sum(h)
    ensures forall k :: k in Keys(r) <==> k in Keys(h)
    ensures DistinctKeys(h) ==> DistinctKeys(r)
  {
    if h == [] then []
    else
      var rest := SortByKey(h[1..]);
      var r := InsertByKey(h[0], rest);
      SortCons(h, rest, r);
      r
  }

  /** Inserting the first entry into the sorted rest sorts the whole histogram. */
  lemma SortCons(h: Histogram<string>, rest: Histogram<string>, r: Histogram<string>)
    requires h != []
    requires multiset(rest) == multiset(h[1..]) && Sum(rest) == Sum(h[1..])
    requires forall k :: k in Keys(rest) <==> k in Keys(h[1..])
    requires DistinctKeys(h[1..]) ==> DistinctKeys(rest)
    requires multiset(r) == multiset(rest) + multiset{h[0]} && Sum(r) == Sum(rest) + h[0].1
    requires forall k :: k in Keys(r) <==> k == h[0].0 || k in Keys(rest)
    requires DistinctKeys(rest) && h[0].0 !in Keys(rest) ==> DistinctKeys(r)
    ensures multiset(r) == multiset(h) && Sum(r) == Sum(h)
    ensures forall k :: k in Keys(r) <==> k in Keys(h)
    ensures DistinctKeys(h) ==> DistinctKeys(r)
  {
    assert h == [h[0]] + h[1..];
    KeysCons(h[0], h[1..]);
    DistinctKeysCons(h[0], h[1..]);
  }

  /** One entry of the sorted reduce result counts the occurrences of its key. */
  lemma SortedTallyEntry(ks: seq<string>, i: nat)
    requires i < |SortByKey(TallyOf(ks))|
    ensures var e := SortByKey(TallyOf(ks))[i];
      e.0 in ks && e.1 == multiset(ks)[e.0] && e.1 >= 1
  {
    var h := TallyOf(ks);
    var s := SortByKey(h);
    TallyEntries(ks);
    assert s[i] in multiset(h);
    var j :| 0 <= j < |h| && h[j] == s[i];
  }

  /**
   * The reduce's result sorted by key: one entry per distinct key of ks, in
   * strictly ascending key order, each counting the occurrences of its key,
   * the counts adding up to |ks|.
   */
  lemma SortedTally(ks: seq<string>)
    ensures Ascending(SortByKey(TallyOf(ks))) && DistinctKeys(SortByKey(TallyOf(ks)))
    ensures forall i :: 0 <= i < |SortByKey(TallyOf(ks))| ==>
      var e := SortByKey(TallyOf(ks))[i];
      e.0 in ks && e.1 == multiset(ks)[e.0] && e.1 >= 1
    ensures forall k :: k in ks ==> k in Keys(SortByKey(TallyOf(ks)))
    ensures |SortByKey(TallyOf(ks))| == |set k | k in ks|
    ensures Sum(SortByKey(TallyOf(ks))) == |ks|
  {
    var h := TallyOf(ks);
    var s := SortByKey(h);
    TallyKeySet(ks);
    TallyCounts(ks);
    assert |s| == |multiset(s)| == |multiset(h)| == |h|;
    forall i | 0 <= i < |s|
      ensures s[i].0 in ks && s[i].1 == multiset(ks)[s[i].0] && s[i].1 >= 1
    {
      SortedTallyEntry(ks, i);
    }
    TallyEntries(ks);
  }

  /** A tail of an ascending series is ascending. */
  lemma AscendingTail(h: Histogram<string>, k: nat)
    requires Ascending(h) && k <= |h|
    ensures Ascending(h[k..])
  {
    forall i, j | 0 <= i < j < |h[k..]| ensures LexLe(h[k..][i].0, h[k..][j].0) {
      assert h[k..][i] == h[k + i] && h[k..][j] == h[k + j];
    }
  }

  /** `s.slice(-n)` for n > 0: the last n elements, or all of s when it is shorter. */
  function LastN<T>(s: seq<T>, n: nat): (r: seq<T>)
    requires n > 0
    ensures |r| == if |s| <= n then |s| else n
    ensures r == s[|s| - |r|..]
  {
    if |s| <= n then s else s[|s| - n..]
  }

  /**
   * One point of a day series (`{ date, count }`); the ISO day stands for
   * its display label.
   */
  datatype DayPoint = DayPoint(date: string, count: nat)

  /** The (day, count) entry each point of a day series shows. */
  function DayEntries(d: seq<DayPoint>): (h: Histogram<string>)
    ensures |h| == |d|
    ensures forall i :: 0 <= i < |d| ==> h[i] == (d[i].date, d[i].count)
  {
    seq(|d|, i requires 0 <= i < |d| => (d[i].date, d[i].count))
  }

  /** The `.map(([date, count]) => ...)` step of a day series: one point per entry, showing it. */
  function DayPoints(h: Histogram<string>): (d: seq<DayPoint>)
    ensures DayEntries(d) == h
  {
    var d := seq(|h|, i requires 0 <= i < |h| => DayPoint(h[i].0, h[i].1));
    assert DayEntries(d) == h;
    d
  }
}
