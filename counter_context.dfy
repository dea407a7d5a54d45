/** The counter store of `src/contexts/CounterContext.tsx`: a list of named
    tap counters, each keeping a history of its taps, with keyed add,
    delete, increment, reset and rename, and `getCounterHistory`, which
    keeps the taps of a recent period and sums them per display date.

    Instants are milliseconds. The two texts a tap can be grouped under, its
    local month/day and its local month/year, are the parameters `dayKey`
    and `monthKey`; the instant one year before now (`setFullYear`) is the
    parameter `yearAgo`. Both texts contain a '/', so the record of groups
    keeps its keys in insertion order. The `Counter` record is imported by
    the source from `src/types/task.ts`, which does not declare it; its
    fields here are the ones the store reads and writes. */
module CounterContext {
  import opened Common
  import opened TaskTypes

  const DayMs := 86400000

  /** One history record: `{ date, count }`, the date parsed to an instant. */
  datatype Entry = Entry(date: Instant, count: int)

  /** `history` is optional in the stored record; the store reads a missing
      one as the empty history. */
  datatype Counter = Counter(id: string, name: string, count: int, createdAt: Instant, history: Option<seq<Entry>>)

  datatype Period = Weekly | Monthly | Yearly

  /** One row of the chart data: `{ date, count }`. */
  datatype Bucket = Bucket(date: string, count: int)

  function HistoryOf(c: Counter): seq<Entry> {
    c.history.GetOr([])
  }

  function SumEntries(es: seq<Entry>): int {
    if es == [] then 0 else SumEntries(es[..|es| - 1]) + es[|es| - 1].count
  }

  predicate IdFresh(cs: seq<Counter>, id: string) {
    forall c :: c in cs ==> c.id != id
  }

  // ---------------------------------------------------------------------
  // The new counter lists the operations compute

  /** The counter `addCounter` creates. */
  function NewCounter(name: string, id: string, now: Instant): (c: Counter)
    ensures c.id == id && c.name == name && c.count == 0 && HistoryOf(c) == []
  {
    Counter(id, name, 0, now, Some([]))
  }

  /** One tap: the count goes up by one and the history gains one entry of
      count 1 stamped `now`; nothing else about the counter changes. */
  function Tapped(c: Counter, now: Instant): (r: Counter)
    ensures r.count == c.count + 1
    ensures HistoryOf(r) == HistoryOf(c) + [Entry(now, 1)]
    ensures r.id == c.id && r.name == c.name && r.createdAt == c.createdAt
  {
    c.(count := c.count + 1, history := Some(HistoryOf(c) + [Entry(now, 1)]))
  }

  /** The list `incrementCount` produces. */
  function Incremented(cs: seq<Counter>, id: string, now: Instant): (r: seq<Counter>)
    ensures |r| == |cs|
    ensures forall i :: 0 <= i < |cs| && cs[i].id != id ==> r[i] == cs[i]
    ensures forall i :: 0 <= i < |cs| && cs[i].id == id ==> r[i] == Tapped(cs[i], now)
  {
    MapWhere(cs, (c: Counter) => c.id == id, (c: Counter) => Tapped(c, now))
  }

  /** The list `resetCount` produces: the count of the chosen counter is 0
      and every history is kept. */
  function Reset(cs: seq<Counter>, id: string): (r: seq<Counter>)
    ensures |r| == |cs|
    ensures forall i :: 0 <= i < |cs| && cs[i].id != id ==> r[i] == cs[i]
    ensures forall i :: 0 <= i < |cs| && cs[i].id == id ==> r[i] == cs[i].(count := 0)
    ensures forall i :: 0 <= i < |cs| ==> r[i].history == cs[i].history
  {
    MapWhere(cs, (c: Counter) => c.id == id, (c: Counter) => c.(count := 0))
  }

  /** The list `updateCounterName` produces. */
  function Renamed(cs: seq<Counter>, id: string, name: string): (r: seq<Counter>)
    ensures |r| == |cs|
    ensures forall i :: 0 <= i < |cs| && cs[i].id != id ==> r[i] == cs[i]
    ensures forall i :: 0 <= i < |cs| && cs[i].id == id ==> r[i] == cs[i].(name := name)
  {
    MapWhere(cs, (c: Counter) => c.id == id, (c: Counter) => c.(name := name))
  }

  /** The list `deleteCounter` produces once it has found the counter. */
  function Removed(cs: seq<Counter>, id: string): (r: seq<Counter>)
    ensures IsSubseq(r, cs)
    ensures forall c :: c in r <==> c in cs && c.id != id
    ensures forall c {:trigger multiset(r)[c]} :: multiset(r)[c] == if c.id != id then multiset(cs)[c] else 0
  {
    Filter(cs, (c: Counter) => c.id != id)
  }

  lemma RemoveUnknown(cs: seq<Counter>, id: string)
    requires IdFresh(cs, id)
    ensures Removed(cs, id) == cs
  {
    FilterKeepsAll(cs, (c: Counter) => c.id != id);
  }

  /** Deleting a counter just added with a fresh id gives back the earlier list. */
  lemma AddThenRemove(cs: seq<Counter>, name: string, id: string, now: Instant)
    requires IdFresh(cs, id)
    ensures Removed(cs + [NewCounter(name, id, now)], id) == cs
  {
    FilterConcat(cs, [NewCounter(name, id, now)], (c: Counter) => c.id != id);
    FilterKeepsAll(cs, (c: Counter) => c.id != id);
    FilterDropsAll([NewCounter(name, id, now)], (c: Counter) => c.id != id);
  }

  /** A counter never shows more than its history has recorded: a new
      counter starts at 0 with no history, a tap adds one to both, a reset
      lowers the count and keeps the history, a rename touches neither. */
  predicate CountWithinHistory(c: Counter) {
    0 <= c.count <= SumEntries(HistoryOf(c))
  }

  lemma OperationsKeepCountWithinHistory(cs: seq<Counter>, id: string, now: Instant, name: string)
    requires forall c :: c in cs ==> CountWithinHistory(c)
    ensures CountWithinHistory(NewCounter(name, id, now))
    ensures forall c :: c in Incremented(cs, id, now) ==> CountWithinHistory(c)
    ensures forall c :: c in Reset(cs, id) ==> CountWithinHistory(c)
    ensures forall c :: c in Renamed(cs, id, name) ==> CountWithinHistory(c)
    ensures forall c :: c in Removed(cs, id) ==> CountWithinHistory(c)
  {
    forall c | c in Incremented(cs, id, now) ensures CountWithinHistory(c) {
      var i :| 0 <= i < |cs| && Incremented(cs, id, now)[i] == c;
      assert cs[i] in cs;
      if cs[i].id == id {
        var h := HistoryOf(cs[i]);
        assert (h + [Entry(now, 1)])[..|h|] == h;
      }
    }
    forall c | c in Reset(cs, id) ensures CountWithinHistory(c) {
      var i :| 0 <= i < |cs| && Reset(cs, id)[i] == c;
      assert cs[i] in cs;
    }
    forall c | c in Renamed(cs, id, name) ensures CountWithinHistory(c) {
      var i :| 0 <= i < |cs| && Renamed(cs, id, name)[i] == c;
      assert cs[i] in cs;
    }
  }

  // ---------------------------------------------------------------------
  // getCounterHistory

  /** The earliest instant a period keeps: 7 or 30 days back, or one year back. */
  function Cutoff(period: Period, now: Instant, yearAgo: Instant): Instant {
    match period
    case Weekly => now - 7 * DayMs
    case Monthly => now - 30 * DayMs
    case Yearly => yearAgo
  }

  /** The `dateFormat` a period groups by. */
  function KeyFor(period: Period, dayKey: Instant -> string, monthKey: Instant -> string): Instant -> string {
    if period == Yearly then monthKey else dayKey
  }

  /** `history.filter(entry => new Date(entry.date) >= cutoff)`. */
  function InPeriod(h: seq<Entry>, cutoff: Instant): (r: seq<Entry>)
    ensures IsSubseq(r, h)
    ensures forall e :: e in r <==> e in h && e.date >= cutoff
    ensures forall e {:trigger multiset(r)[e]} :: multiset(r)[e] == if e.date >= cutoff then multiset(h)[e] else 0
  {
    Filter(h, (e: Entry) => e.date >= cutoff)
  }

  /** `acc[date] = (acc[date] || 0) + n` on an insertion-ordered record: the
      bucket for `date` grows, or a new bucket is appended at the end. */
  function AddToBucket(acc: seq<Bucket>, date: string, n: int): seq<Bucket> {
    if acc == [] then [Bucket(date, n)]
    else if acc[0].date == date then [acc[0].(count := acc[0].count + n)] + acc[1..]
    else [acc[0]] + AddToBucket(acc[1..], date, n)
  }

  /** The record the `reduce` builds, as rows in insertion order. */
  function Grouped(es: seq<Entry>, key: Instant -> string): seq<Bucket> {
    if es == [] then []
    else AddToBucket(Grouped(es[..|es| - 1], key), key(es[|es| - 1].date), es[|es| - 1].count)
  }

  function DatesOf(acc: seq<Bucket>): set<string> {
    set b | b in acc :: b.date
  }

  function SumBuckets(acc: seq<Bucket>): int {
    if acc == [] then 0 else acc[0].count + SumBuckets(acc[1..])
  }

  /** The count stored under `date`, 0 when there is none. */
  function CountOf(acc: seq<Bucket>, date: string): int {
    if acc == [] then 0 else if acc[0].date == date then acc[0].count else CountOf(acc[1..], date)
  }

  /** The summed counts of the entries whose display date is `date`. */
  function SumForDate(es: seq<Entry>, key: Instant -> string, date: string): int {
    if es == [] then 0
    else SumForDate(es[..|es| - 1], key, date) + if key(es[|es| - 1].date) == date then es[|es| - 1].count else 0
  }

  function DatesOfEntries(es: seq<Entry>, key: Instant -> string): set<string> {
    set e | e in es :: key(e.date)
  }

  lemma {:induction false} AddToBucketDates(acc: seq<Bucket>, date: string, n: int)
    ensures DatesOf(AddToBucket(acc, date, n)) == DatesOf(acc) + {date}
  {
    if acc != [] {
      assert acc == [acc[0]] + acc[1..];
      assert DatesOf(acc) == {acc[0].date} + DatesOf(acc[1..]);
      if acc[0].date != date {
        AddToBucketDates(acc[1..], date, n);
        var rest := AddToBucket(acc[1..], date, n);
        assert DatesOf([acc[0]] + rest) == {acc[0].date} + DatesOf(rest);
      } else {
        var r := AddToBucket(acc, date, n);
        assert DatesOf(r) == {date} + DatesOf(acc[1..]);
      }
    }
  }

  lemma {:induction false} AddToBucketSum(acc: seq<Bucket>, date: string, n: int)
    ensures SumBuckets(AddToBucket(acc, date, n)) == SumBuckets(acc) + n
  {
    if acc != [] && acc[0].date != date {
      AddToBucketSum(acc[1..], date, n);
      var rest := AddToBucket(acc[1..], date, n);
      assert ([acc[0]] + rest)[1..] == rest;
    } else if acc != [] {
      assert ([acc[0].(count := acc[0].count + n)] + acc[1..])[1..] == acc[1..];
    }
  }

  lemma {:induction false} AddToBucketCount(acc: seq<Bucket>, date: string, n: int, d: string)
    ensures CountOf(AddToBucket(acc, date, n), d) == CountOf(acc, d) + if d == date then n else 0
  {
    if acc != [] && acc[0].date != date {
      AddToBucketCount(acc[1..], date, n, d);
      var rest := AddToBucket(acc[1..], date, n);
      assert ([acc[0]] + rest)[1..] == rest;
    } else if acc != [] {
      assert ([acc[0].(count := acc[0].count + n)] + acc[1..])[1..] == acc[1..];
    }
  }

  lemma {:induction false} AddToBucketDistinct(acc: seq<Bucket>, date: string, n: int)
    requires DistinctKeys(acc, (b: Bucket) => b.date)
    ensures DistinctKeys(AddToBucket(acc, date, n), (b: Bucket) => b.date)
  {
    var r := AddToBucket(acc, date, n);
    if acc == [] {
    } else if acc[0].date == date {
      forall i, j | 0 <= i < j < |r| ensures r[i].date != r[j].date {
        assert r[j] == acc[j];
        if i > 0 {
          assert r[i] == acc[i];
        }
      }
    } else {
      assert DistinctKeys(acc[1..], (b: Bucket) => b.date) by {
        forall i, j | 0 <= i < j < |acc[1..]| ensures acc[1..][i].date != acc[1..][j].date {
          assert acc[1..][i] == acc[i + 1] && acc[1..][j] == acc[j + 1];
        }
      }
      AddToBucketDistinct(acc[1..], date, n);
      AddToBucketDates(acc[1..], date, n);
      var rest := AddToBucket(acc[1..], date, n);
      assert r == [acc[0]] + rest;
      forall y | y in rest ensures acc[0].date != y.date {
        assert y.date in DatesOf(rest);
        if y.date != date {
          var k :| 0 <= k < |acc[1..]| && acc[1..][k].date == y.date;
          assert acc[k + 1].date == y.date;
        }
      }
      ConcatKeepsDistinct([acc[0]], rest, (b: Bucket) => b.date);
    }
  }

  /** What `getCounterHistory` builds from the taps it keeps: one row per
      display date, the dates being exactly those of the taps, each row
      holding the summed counts of its date, and all rows together holding
      the total of the taps. */
  lemma {:induction false} GroupedSpec(es: seq<Entry>, key: Instant -> string)
    ensures DistinctKeys(Grouped(es, key), (b: Bucket) => b.date)
    ensures DatesOf(Grouped(es, key)) == DatesOfEntries(es, key)
    ensures forall d :: CountOf(Grouped(es, key), d) == SumForDate(es, key, d)
    ensures SumBuckets(Grouped(es, key)) == SumEntries(es)
  {
    if es != [] {
      var init := es[..|es| - 1];
      var last := es[|es| - 1];
      var acc := Grouped(init, key);
      GroupedSpec(init, key);
      AddToBucketDates(acc, key(last.date), last.count);
      AddToBucketSum(acc, key(last.date), last.count);
      AddToBucketDistinct(acc, key(last.date), last.count);
      forall d ensures CountOf(Grouped(es, key), d) == SumForDate(es, key, d) {
        AddToBucketCount(acc, key(last.date), last.count, d);
      }
      DatesOfEntriesSnoc(es, key);
    }
  }

  lemma DatesOfEntriesSnoc(es: seq<Entry>, key: Instant -> string)
    requires es != []
    ensures DatesOfEntries(es, key) == DatesOfEntries(es[..|es| - 1], key) + {key(es[|es| - 1].date)}
  {
    assert es == es[..|es| - 1] + [es[|es| - 1]];
  }

  // ---------------------------------------------------------------------
  // The store

  class CounterStore {
    var counters: seq<Counter>

    /** The provider's initial state: the saved counters in their order,
        a missing history replaced by an empty one and every other field
        kept. */
    constructor (saved: seq<Counter>)
      ensures |counters| == |saved|
      ensures forall i :: 0 <= i < |saved| ==>
        counters[i] == saved[i].(history := Some(HistoryOf(saved[i])))
    {
      counters := seq(|saved|, i requires 0 <= i < |saved| => saved[i].(history := Some(HistoryOf(saved[i]))));
    }

    /** `addCounter`, with the fresh id and the creation instant as inputs. */
    method AddCounter(name: string, freshId: string, now: Instant)
      requires IdFresh(counters, freshId)
      modifies this
      ensures counters == old(counters) + [NewCounter(name, freshId, now)]
    {
      counters := counters + [NewCounter(name, freshId, now)];
    }

    /** `deleteCounter`: nothing happens when no counter has the id. */
    method DeleteCounter(id: string)
      modifies this
      ensures IdFresh(old(counters), id) ==> counters == old(counters)
      ensures counters == Removed(old(counters), id)
    {
      var toDelete := FindFirst(counters, (c: Counter) => c.id == id);
      if toDelete.None? {
        RemoveUnknown(counters, id);
        return;
      }
      counters := Removed(counters, id);
    }

    /** `incrementCount`, stamping the tap with `now`. */
    method IncrementCount(id: string, now: Instant)
      modifies this
      ensures counters == Incremented(old(counters), id, now)
    {
      counters := Incremented(counters, id, now);
    }

    /** `resetCount`. */
    method ResetCount(id: string)
      modifies this
      ensures counters == Reset(old(counters), id)
    {
      counters := Reset(counters, id);
    }

    /** `updateCounterName`. */
    method UpdateCounterName(id: string, name: string)
      modifies this
      ensures counters == Renamed(old(counters), id, name)
    {
      counters := Renamed(counters, id, name);
    }

    /** `getCounterHistory`: nothing for an unknown counter or one without a
        history; otherwise the taps at or after the period's cutoff, summed
        per display date in order of first appearance. */
    method GetCounterHistory(id: string, period: Period, now: Instant, yearAgo: Instant,
                             dayKey: Instant -> string, monthKey: Instant -> string)
      returns (rows: seq<Bucket>)
      ensures var c := FindFirst(counters, (c: Counter) => c.id == id);
        rows == if c.None? || c.value.history.None? then []
                else Grouped(InPeriod(c.value.history.value, Cutoff(period, now, yearAgo)), KeyFor(period, dayKey, monthKey))
    {
      var counter := FindFirst(counters, (c: Counter) => c.id == id);
      if counter.None? || counter.value.history.None? {
        return [];
      }
      var filteredHistory := InPeriod(counter.value.history.value, Cutoff(period, now, yearAgo));
      var dateFormat := KeyFor(period, dayKey, monthKey);
      var acc: seq<Bucket> := [];
      for i := 0 to |filteredHistory|
        invariant acc == Grouped(filteredHistory[..i], dateFormat)
      {
        var entry := filteredHistory[i];
        assert filteredHistory[..i + 1][..i] == filteredHistory[..i];
        acc := AddToBucket(acc, dateFormat(entry.date), entry.count);
      }
      assert filteredHistory[..|filteredHistory|] == filteredHistory;
      rows := acc;
    }
  }
}
