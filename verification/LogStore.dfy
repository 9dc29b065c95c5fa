/**
 The Raft log store: a `BTreeMap` cache over durable tables whose log keys are
 decimal strings. Stored entries stand for their serialised text.
 */
module LogStore {
  import opened Prelude
  import opened Text
  import opened OrderedKeys

  datatype LogId = LogId(leader: nat, index: nat)

  datatype Entry = Entry(id: LogId, payload: string)

  datatype Vote = Vote(term: nat, node: nat)

  /** The durable tables. */
  datatype Disk = Disk(log: map<string, Entry>, vote: Option<Vote>, purged: Option<LogId>, committed: Option<LogId>)

  // ------------------------------------------------------------------
  // The reference: one contiguous log with an offset
  // ------------------------------------------------------------------

  datatype OffsetLog = OffsetLog(purged: Option<LogId>, entries: seq<Entry>)

  /** The index after the purge mark, where the log starts. */
  function First(purged: Option<LogId>): nat {
    if purged.Some? then purged.value.index + 1 else 0
  }

  function End(m: OffsetLog): nat {
    First(m.purged) + |m.entries|
  }

  /** The position of an index in the log, clamped to its ends. */
  function Position(m: OffsetLog, index: nat): (p: nat)
    ensures p <= |m.entries|
  {
    if index <= First(m.purged) then 0
    else if index <= End(m) then index - First(m.purged)
    else |m.entries|
  }

  function LogMap(first: nat, entries: seq<Entry>): (log: map<nat, Entry>)
    ensures forall i :: i in log <==> first <= i < first + |entries|
    ensures forall i :: i in log ==> log[i] == entries[i - first]
    decreases |entries|
  {
    if entries == [] then map[]
    else LogMap(first + 1, entries[1..])[first := entries[0]]
  }

  /** Each entry is at its own index, and every index is a `u64`. */
  ghost predicate Indexed(m: OffsetLog) {
    && End(m) <= TWO_64
    && forall i :: 0 <= i < |m.entries| ==> m.entries[i].id.index == First(m.purged) + i
  }

  /** The caller appends at the end, with consecutive indices. */
  ghost predicate Follows(m: OffsetLog, es: seq<Entry>) {
    && End(m) + |es| <= TWO_64
    && forall i :: 0 <= i < |es| ==> es[i].id.index == End(m) + i
  }

  function Purged(m: OffsetLog, id: LogId): OffsetLog {
    OffsetLog(Some(id), m.entries[Position(m, id.index + 1)..])
  }

  function Truncated(m: OffsetLog, start: nat): OffsetLog {
    m.(entries := m.entries[..Position(m, start)])
  }

  /** A position splits the log by index: reads, truncation and purging cut exactly where the indices say. */
  lemma PositionSplits(m: OffsetLog, lo: nat, hi: nat, e: Entry)
    requires Indexed(m) && lo <= hi
    ensures Position(m, lo) <= Position(m, hi)
    ensures e in m.entries[Position(m, lo)..Position(m, hi)] <==> e in m.entries && lo <= e.id.index < hi
    ensures e in Truncated(m, hi).entries <==> e in m.entries && e.id.index < hi
    ensures forall id: LogId :: e in Purged(m, id).entries <==> e in m.entries && e.id.index > id.index
  {
  }

  // ------------------------------------------------------------------
  // The durable log table
  // ------------------------------------------------------------------

  ghost predicate Named(key: string, log: map<nat, Entry>) {
    exists i :: i in log && key == Decimal(i)
  }

  /** The table holds the log, each entry under its index in decimal, and nothing else. */
  ghost predicate Mirrors(table: map<string, Entry>, log: map<nat, Entry>) {
    && (forall i :: i in log ==> i < TWO_64 && Decimal(i) in table && table[Decimal(i)] == log[i])
    && (forall s :: s in table ==> Named(s, log))
  }

  lemma MirrorsInsert(table: map<string, Entry>, log: map<nat, Entry>, i: nat, e: Entry)
    requires Mirrors(table, log) && i < TWO_64
    ensures Mirrors(table[Decimal(i) := e], log[i := e])
  {
    hide Decimal, Named;
    var table', log' := table[Decimal(i) := e], log[i := e];
    forall k | k in log'
      ensures k < TWO_64 && Decimal(k) in table' && table'[Decimal(k)] == log'[k]
    {
      if Decimal(k) == Decimal(i) {
        DecimalInjective(k, i);
      }
    }
    forall s | s in table'
      ensures Named(s, log')
    {
      if s == Decimal(i) {
        NamedBy(i, log');
      } else {
        NamedIn(s, log, log');
      }
    }
  }

  lemma NamedBy(i: nat, log: map<nat, Entry>)
    requires i in log
    ensures Named(Decimal(i), log)
  {
  }

  lemma NamedIn(s: string, log: map<nat, Entry>, log': map<nat, Entry>)
    requires Named(s, log) && forall k :: k in log && Decimal(k) == s ==> k in log'
    ensures Named(s, log')
  {
    hide Decimal;
  }

  lemma MirrorsDelete(table: map<string, Entry>, log: map<nat, Entry>, i: nat)
    requires Mirrors(table, log)
    ensures Mirrors(table - {Decimal(i)}, log - {i})
  {
    hide Decimal, Named;
    var table', log' := table - {Decimal(i)}, log - {i};
    forall k | k in log'
      ensures Decimal(k) in table'
    {
      if Decimal(k) == Decimal(i) {
        DecimalInjective(k, i);
      }
    }
    forall s | s in table'
      ensures Named(s, log')
    {
      NamedIn(s, log, log');
    }
  }

  /** A listing of the table: every pair once, in any order. */
  ghost predicate Lists(listing: seq<(string, Entry)>, table: map<string, Entry>) {
    && (forall i :: 0 <= i < |listing| ==> listing[i].0 in table && table[listing[i].0] == listing[i].1)
    && (forall s :: s in table ==> (s, table[s]) in listing)
  }

  /** The cache that opening the store builds; keys that are no numeral are skipped. */
  function Rebuilt(listing: seq<(string, Entry)>): map<nat, Entry> {
    if listing == [] then map[]
    else
      var (key, e) := listing[|listing| - 1];
      var log := Rebuilt(listing[..|listing| - 1]);
      match ParseUnsigned(key, TWO_64)
      case Some(i) => log[i := e]
      case None => log
  }

  /** A row whose key is a text of index `k`. */
  ghost predicate RowOf(row: (string, Entry), k: nat) {
    k < TWO_64 && Spells(row.0, k)
  }

  lemma RowParses(row: (string, Entry), k: nat)
    ensures RowOf(row, k) <==> ParseUnsigned(row.0, TWO_64) == Some(k)
  {
    ParseUnsignedMeans(row.0, TWO_64, k);
  }

  ghost predicate LastRowOf(listing: seq<(string, Entry)>, k: nat, i: nat) {
    i < |listing| && RowOf(listing[i], k) && forall j :: i < j < |listing| ==> !RowOf(listing[j], k)
  }

  /** From any table at all, an index gets the last row listed whose key spells it, and there is nothing else. */
  lemma {:induction false} RebuiltMeans(listing: seq<(string, Entry)>, k: nat)
    ensures k in Rebuilt(listing) <==> exists i: nat :: LastRowOf(listing, k, i)
    ensures forall i: nat :: LastRowOf(listing, k, i) ==> k in Rebuilt(listing) && Rebuilt(listing)[k] == listing[i].1
  {
    hide RowOf, ParseUnsigned;
    if listing != [] {
      var init, last := listing[..|listing| - 1], listing[|listing| - 1];
      RebuiltMeans(init, k);
      assert listing == init + [last];
      RowParses(last, k);
      if RowOf(last, k) {
        assert LastRowOf(listing, k, |init|);
      } else {
        assert forall i: nat :: LastRowOf(listing, k, i) <==> LastRowOf(init, k, i);
      }
    }
  }

  lemma ParseDecimal(n: nat)
    requires n < TWO_64
    ensures ParseUnsigned(Decimal(n), TWO_64) == Some(n)
  {
    ParsePadded(n, 0, TWO_64);
  }

  /** A table row that stores an entry of the log. */
  ghost predicate StoredFrom(row: (string, Entry), log: map<nat, Entry>) {
    exists k :: k in log && k < TWO_64 && row == (Decimal(k), log[k])
  }

  lemma {:induction false} RebuiltEntries(listing: seq<(string, Entry)>, log: map<nat, Entry>)
    requires forall i :: 0 <= i < |listing| ==> StoredFrom(listing[i], log)
    ensures forall k :: k in Rebuilt(listing) ==> k in log && Rebuilt(listing)[k] == log[k]
    ensures forall k :: k in log && k < TWO_64 && (Decimal(k), log[k]) in listing ==> k in Rebuilt(listing)
  {
    hide Decimal, ParseUnsigned;
    if listing != [] {
      var init, last := listing[..|listing| - 1], listing[|listing| - 1];
      RebuiltEntries(init, log);
      var n :| n in log && n < TWO_64 && last == (Decimal(n), log[n]);
      ParseDecimal(n);
      forall k | k in log && k < TWO_64 && (Decimal(k), log[k]) in listing
        ensures k in Rebuilt(listing)
      {
        if (Decimal(k), log[k]) !in init {
          DecimalInjective(k, n);
        }
      }
    }
  }

  /** Opening a store whose table mirrors a log rebuilds that log, whatever the listing order. */
  lemma ReopenRebuilds(listing: seq<(string, Entry)>, table: map<string, Entry>, log: map<nat, Entry>)
    requires Lists(listing, table) && Mirrors(table, log)
    ensures Rebuilt(listing) == log
  {
    hide Decimal, Rebuilt;
    forall n | 0 <= n < |listing|
      ensures StoredFrom(listing[n], log)
    {
      assert listing[n].0 in table;
      var k :| k in log && listing[n].0 == Decimal(k);
      assert listing[n] == (Decimal(k), log[k]);
    }
    RebuiltEntries(listing, log);
    assert forall k :: k in log ==> (Decimal(k), log[k]) in listing;
  }

  // ------------------------------------------------------------------
  // The store
  // ------------------------------------------------------------------

  /** `log.range(start..)`, keys only. */
  function KeysFrom(log: map<nat, Entry>, start: nat): seq<nat> {
    Ascending(log.Keys - Interval(0, start))
  }

  /** `log.range(..=bound)`, keys only. */
  function KeysUpTo(log: map<nat, Entry>, bound: nat): seq<nat> {
    Ascending(log.Keys * Interval(0, bound + 1))
  }

  lemma AppendStep(m: OffsetLog, es: seq<Entry>, n: nat)
    requires Indexed(m) && Follows(m, es) && n < |es|
    ensures var m', index := m.(entries := m.entries + es[..n + 1]), es[n].id.index;
            && Indexed(m') && index < TWO_64
            && LogMap(First(m.purged), m.entries + es[..n])[index := es[n]] == LogMap(First(m.purged), m'.entries)
  {
    hide LogMap;
    assert es[..n + 1] == es[..n] + [es[n]];
  }

  class RedbLogStore {
    var disk: Disk
    var log: map<nat, Entry>
    var lastPurged: Option<LogId>
    var committed: Option<LogId>
    var vote: Option<Vote>
    ghost var model: OffsetLog

    /** The log cache and the log and purge tables are the reference log. */
    ghost predicate Durable()
      reads this
    {
      && Indexed(model)
      && log == LogMap(First(model.purged), model.entries)
      && Mirrors(disk.log, log)
      && disk.purged == model.purged
    }

    /** The cached marks are the written ones; a failed write leaves one of them ahead. */
    ghost predicate MarksAgree()
      reads this
    {
      lastPurged == disk.purged && vote == disk.vote && (committed.Some? ==> disk.committed == committed)
    }

    ghost predicate Valid()
      reads this
    {
      Durable() && MarksAgree()
    }

    /**
     `RedbLogStore::new` on a table listing in any order: when the tables hold
     a reference log `m`, the opened store is that log.
     */
    constructor Open(disk: Disk, listing: seq<(string, Entry)>, ghost m: OffsetLog)
      requires Lists(listing, disk.log)
      ensures this.disk == disk && log == Rebuilt(listing) && model == m
      ensures vote == disk.vote && lastPurged == disk.purged && committed == disk.committed
      ensures Indexed(m) && disk.purged == m.purged && Mirrors(disk.log, LogMap(First(m.purged), m.entries)) ==> Valid()
    {
      hide Lists, Mirrors, LogMap, Indexed, ParseUnsigned;
      this.disk, model := disk, m;
      vote, lastPurged, committed := disk.vote, disk.purged, disk.committed;
      var cache := map[];
      for n := 0 to |listing|
        invariant cache == Rebuilt(listing[..n])
      {
        var (key, e) := listing[n];
        var index := ParseUnsigned(key, TWO_64);
        if index.Some? {
          cache := cache[index.value := e];
        }
        assert listing[..n + 1][..n] == listing[..n];
      }
      assert listing[..|listing|] == listing;
      log := cache;
      if Mirrors(disk.log, LogMap(First(m.purged), m.entries)) {
        ReopenRebuilds(listing, disk.log, LogMap(First(m.purged), m.entries));
      }
    }

    /** `try_get_log_entries` for the indices from `lo` up to, not including, `hi`. */
    method TryGetLogEntries(lo: nat, hi: nat) returns (entries: seq<Entry>)
      requires Durable() && lo <= hi
      ensures entries == model.entries[Position(model, lo)..Position(model, hi)]
    {
      hide Ascending, Interval, Mirrors, Indexed, LogMap, CountUp;
      var inRange := set k | k in log && lo <= k < hi;
      var keys := Ascending(inRange);
      ghost var from, to := Position(model, lo), Position(model, hi);
      ghost var first := First(model.purged);
      assert inRange == Interval(first + from, first + to);
      AscendingInterval(first + from, first + to);
      entries := [];
      for n := 0 to |keys|
        invariant entries == model.entries[from..from + n]
      {
        entries := entries + [log[keys[n]]];
      }
    }

    /** `get_log_state`. */
    method GetLogState() returns (purged: Option<LogId>, last: Option<LogId>)
      requires Durable()
      ensures purged == lastPurged
      ensures last == if model.entries == [] then lastPurged else Some(model.entries[|model.entries| - 1].id)
      ensures lastPurged == disk.purged || model.entries != [] ==> First(last) == End(model)
    {
      hide Ascending, Interval, Mirrors, LogMap, CountUp;
      var keys := Ascending(log.Keys);
      assert log.Keys == Interval(First(model.purged), End(model));
      AscendingInterval(First(model.purged), End(model));
      if keys == [] {
        last := lastPurged;
      } else {
        last := Some(log[keys[|keys| - 1]].id);
      }
      purged := lastPurged;
    }

    /** `save_vote`: the cache changes first, and `ok` says whether the table write then succeeds. */
    method SaveVote(v: Vote, ok: bool)
      requires Durable()
      modifies `vote, `disk
      ensures Durable() && vote == Some(v)
      ensures disk == if ok then old(disk).(vote := Some(v)) else old(disk)
      ensures vote == disk.vote <==> ok || old(disk).vote == Some(v)
      ensures old(Valid()) ==> (Valid() <==> ok || old(vote) == Some(v))
    {
      vote := Some(v);
      if ok {
        disk := disk.(vote := Some(v));
      }
    }

    /** `save_committed`: no table write for `None`. */
    method SaveCommitted(c: Option<LogId>, ok: bool)
      requires Durable()
      modifies `committed, `disk
      ensures Durable() && committed == c
      ensures disk == if c.Some? && ok then old(disk).(committed := c) else old(disk)
      ensures (committed.Some? ==> disk.committed == committed) <==> ok || c.None? || old(disk).committed == c
      ensures old(Valid()) ==> (Valid() <==> ok || c.None? || old(disk).committed == c)
    {
      committed := c;
      if c.Some? {
        if ok {
          disk := disk.(committed := c);
        }
      }
    }

    /**
     `append`: entries are written one by one, table before cache; the write
     number `failAt` fails. `visited` are the tables a crash can leave.
     */
    method Append(es: seq<Entry>, failAt: nat) returns (ok: bool, ghost visited: seq<Disk>)
      requires Durable() && Follows(model, es)
      modifies `disk, `log, `model
      ensures Durable() && (MarksAgree() <==> old(MarksAgree()))
      ensures ok <==> failAt >= |es|
      ensures var done := if ok then |es| else failAt;
              && model == old(model).(entries := old(model).entries + es[..done])
              && |visited| == done + 1
              && visited[done] == disk
              && forall j :: 0 <= j <= done ==> AfterAppend(visited[j], old(disk), old(model), es, j)
    {
      hide Mirrors, Decimal, LogMap, Indexed, Follows;
      ghost var before, start := model, disk;
      visited := [disk];
      for n := 0 to |es|
        invariant n <= failAt
        invariant model == before.(entries := before.entries + es[..n])
        invariant Durable() && before.purged == model.purged
        invariant |visited| == n + 1 && visited[n] == disk
        invariant forall j :: 0 <= j <= n ==> AfterAppend(visited[j], start, before, es, j)
      {
        if n == failAt {
          return false, visited;
        }
        var index := es[n].id.index;
        AppendStep(before, es, n);
        MirrorsInsert(disk.log, log, index, es[n]);
        disk := disk.(log := disk.log[Decimal(index) := es[n]]);
        log := log[index := es[n]];
        model := before.(entries := before.entries + es[..n + 1]);
        visited := visited + [disk];
      }
      ok := true;
    }

    /** The deletion loop of `truncate_after` and `purge`: cache and table lose one key at a time, upward. */
    method DeleteUpward(keys: seq<nat>, ghost lo: nat) returns (ghost visited: seq<Disk>)
      requires Mirrors(disk.log, log)
      requires keys == CountUp(lo, |keys|)
      modifies `disk, `log
      ensures log == old(log) - Interval(lo, lo + |keys|)
      ensures Mirrors(disk.log, log) && disk == old(disk).(log := disk.log)
      ensures |visited| == |keys| + 1 && visited[|keys|] == disk
      ensures forall j :: 0 <= j <= |keys| ==> AfterDeletes(visited[j], old(disk), old(log), lo, j)
    {
      hide Mirrors, Decimal, Interval, CountUp;
      ghost var start, cache := disk, log;
      assert log - Interval(lo, lo) == log;
      visited := [disk];
      for n := 0 to |keys|
        invariant log == cache - Interval(lo, lo + n) && Mirrors(disk.log, log)
        invariant disk == start.(log := disk.log)
        invariant |visited| == n + 1 && visited[n] == disk
        invariant forall j :: 0 <= j <= n ==> AfterDeletes(visited[j], start, cache, lo, j)
      {
        MirrorsDelete(disk.log, log, keys[n]);
        log := log - {keys[n]};
        disk := disk.(log := disk.log - {Decimal(keys[n])});
        assert log == cache - Interval(lo, lo + n + 1);
        visited := visited + [disk];
      }
    }

    /** `truncate_after`; the index after the last one of all wraps to zero. */
    method TruncateAfter(last: Option<LogId>) returns (ghost visited: seq<Disk>)
      requires Durable() && (last.Some? ==> last.value.index < TWO_64)
      modifies `disk, `log, `model
      ensures Durable() && (MarksAgree() <==> old(MarksAgree()))
      ensures model == Truncated(old(model), First(last)) <==> First(last) < TWO_64 || old(model).entries == []
      ensures First(last) == TWO_64 ==> model == old(model).(entries := [])
      ensures var keep := Position(old(model), WrapU64(First(last)));
              && |visited| == |old(model).entries| - keep + 1
              && forall j :: 0 <= j < |visited| ==>
                               AfterDeletes(visited[j], old(disk), old(log), First(old(model).purged) + keep, j)
    {
      hide Mirrors, AfterDeletes, KeysFrom, KeysUpTo, Interval, LogMap, Indexed, Position, CountUp;
      var start := if last.Some? then WrapU64(last.value.index + 1) else 0;
      TruncatesAll(model, last);
      var keys := KeysFrom(log, start);
      ghost var first, keep := First(model.purged), Position(model, start);
      TailKeys(model, start);
      visited := DeleteUpward(keys, first + keep);
      TruncatedMap(model, start);
      model := Truncated(model, start);
    }

    /** The second half of `purge`: every key up to the mark is deleted. */
    method DropThrough(id: LogId) returns (ghost visited: seq<Disk>)
      requires Indexed(model) && First(model.purged) <= id.index + 1 <= TWO_64
      requires log == LogMap(First(model.purged), model.entries) && Mirrors(disk.log, log)
      modifies `disk, `log
      ensures Mirrors(disk.log, log) && disk == old(disk).(log := disk.log)
      ensures var kept := Purged(model, id);
              Indexed(kept) && log == LogMap(First(kept.purged), kept.entries)
      ensures |visited| == Position(model, id.index + 1) + 1
      ensures forall j :: 0 <= j < |visited| ==>
                            AfterDeletes(visited[j], old(disk), old(log), First(model.purged), j)
    {
      hide Mirrors, AfterDeletes, KeysUpTo, Interval, LogMap, Indexed, Position, CountUp;
      var keys := KeysUpTo(log, id.index);
      HeadKeys(model, id.index);
      visited := DeleteUpward(keys, First(model.purged));
      PurgedMap(model, id);
    }

    /**
     `purge`: the mark in the cache, then in the table (`ok` says whether that
     write succeeds), then the deletions. The mark never moves back past what
     is purged, and a purge that failed can be tried again.
     */
    method Purge(id: LogId, ok: bool) returns (ghost visited: seq<Disk>)
      requires Durable() && First(model.purged) <= id.index + 1 <= TWO_64
      modifies `disk, `log, `lastPurged, `model
      ensures Durable() && lastPurged == Some(id)
      ensures ok ==> model == Purged(old(model), id)
      ensures !ok ==> disk == old(disk) && log == old(log) && model == old(model)
      ensures lastPurged == disk.purged <==> ok || old(disk).purged == Some(id)
      ensures old(Valid()) ==> (Valid() <==> ok || old(lastPurged) == Some(id))
      ensures ok ==> |visited| == Position(old(model), id.index + 1) + 1
      ensures forall j :: 0 <= j < |visited| ==>
                            AfterDeletes(visited[j], old(disk).(purged := Some(id)), old(log),
                                         First(old(model).purged), j)
    {
      hide Mirrors, AfterDeletes, LogMap, Indexed, Position, Purged;
      lastPurged := Some(id);
      if !ok {
        return [];
      }
      disk := disk.(purged := Some(id));
      visited := DropThrough(id);
      PurgedMark(model, id);
      model := Purged(model, id);
    }
  }

  lemma PurgedMark(m: OffsetLog, id: LogId)
    ensures Purged(m, id).purged == Some(id)
  {
  }

  /**
   A restart: the store opened on the tables of another is the same log, with
   the marks that were written. They are the cached ones exactly where those
   agree; a committed mark cleared in the cache comes back if it was ever written.
   */
  method Restart(store: RedbLogStore, listing: seq<(string, Entry)>) returns (again: RedbLogStore)
    requires store.Durable() && Lists(listing, store.disk.log)
    ensures fresh(again) && again.Valid() && again.model == store.model && again.log == store.log
    ensures again.vote == store.vote <==> store.vote == store.disk.vote
    ensures again.lastPurged == store.model.purged
    ensures store.Valid() ==> again.vote == store.vote && again.lastPurged == store.lastPurged
    ensures store.Valid() ==>
              (again.committed == store.committed <==> store.committed.Some? || store.disk.committed.None?)
  {
    hide Lists, Mirrors, LogMap, Indexed, Rebuilt;
    again := new RedbLogStore.Open(store.disk, listing, store.model);
  }

  lemma TruncatesAll(m: OffsetLog, last: Option<LogId>)
    requires Indexed(m) && First(last) <= TWO_64
    ensures var start := WrapU64(First(last));
            && (First(last) < TWO_64 ==> start == First(last))
            && (First(last) == TWO_64 ==> start == 0 && Truncated(m, start) == m.(entries := [])
                                          && Truncated(m, First(last)) == m)
  {
  }

  lemma TailKeys(m: OffsetLog, start: nat)
    ensures var first, keep := First(m.purged), Position(m, start);
            KeysFrom(LogMap(first, m.entries), start) == CountUp(first + keep, |m.entries| - keep)
  {
    hide LogMap, Interval, Ascending, CountUp;
    var first := First(m.purged);
    var lo := first + Position(m, start);
    var log := LogMap(first, m.entries);
    assert log.Keys - Interval(0, start) == Interval(lo, End(m));
    AscendingInterval(lo, End(m));
    assert KeysFrom(log, start) == CountUp(lo, End(m) - lo);
  }

  lemma HeadKeys(m: OffsetLog, bound: nat)
    ensures var first := First(m.purged);
            KeysUpTo(LogMap(first, m.entries), bound) == CountUp(first, Position(m, bound + 1))
  {
    hide LogMap, Interval, Ascending, CountUp;
    var first := First(m.purged);
    var hi := first + Position(m, bound + 1);
    assert LogMap(first, m.entries).Keys * Interval(0, bound + 1) == Interval(first, hi);
    AscendingInterval(first, hi);
  }

  lemma TruncatedMap(m: OffsetLog, start: nat)
    requires Indexed(m)
    ensures var first, keep := First(m.purged), Position(m, start);
            LogMap(first, m.entries) - Interval(first + keep, End(m)) == LogMap(first, m.entries[..keep])
    ensures Indexed(Truncated(m, start))
  {
    hide LogMap, Interval;
  }

  lemma PurgedMap(m: OffsetLog, id: LogId)
    requires Indexed(m) && First(m.purged) <= id.index + 1 <= TWO_64
    ensures var first, gone := First(m.purged), Position(m, id.index + 1);
            LogMap(first, m.entries) - Interval(first, first + gone) == LogMap(id.index + 1, m.entries[gone..])
    ensures Indexed(Purged(m, id))
  {
    hide LogMap, Interval;
  }

  /** The tables once `j` of the appended entries are written. */
  ghost predicate AfterAppend(d: Disk, start: Disk, m: OffsetLog, es: seq<Entry>, j: nat)
    requires j <= |es|
  {
    d == start.(log := d.log) && Mirrors(d.log, LogMap(First(m.purged), m.entries + es[..j]))
  }

  /** The tables once the `j` keys from `lo` on are deleted. */
  ghost predicate AfterDeletes(d: Disk, start: Disk, cache: map<nat, Entry>, lo: nat, j: nat) {
    d == start.(log := d.log) && Mirrors(d.log, cache - Interval(lo, lo + j))
  }

  // ------------------------------------------------------------------
  // Crashes
  // ------------------------------------------------------------------

  /** The indices are one interval that meets the purge mark: nothing is missing behind it. */
  ghost predicate GapFree(log: map<nat, Entry>, purged: Option<LogId>) {
    exists a: nat, b: nat :: a <= First(purged) <= b && log.Keys == Interval(a, b)
  }

  /** A crash anywhere in `append` reopens to the old log with a prefix of the new entries. */
  lemma CrashInAppend(d: Disk, start: Disk, m: OffsetLog, es: seq<Entry>, j: nat, listing: seq<(string, Entry)>)
    requires Indexed(m) && Follows(m, es) && j <= |es| && start.purged == m.purged
    requires AfterAppend(d, start, m, es, j) && Lists(listing, d.log)
    ensures Rebuilt(listing) == LogMap(First(d.purged), m.entries + es[..j])
    ensures GapFree(Rebuilt(listing), d.purged)
  {
    hide LogMap, Interval, Mirrors, Lists, Rebuilt;
    var first := First(m.purged);
    ReopenRebuilds(listing, d.log, LogMap(first, m.entries + es[..j]));
    assert Rebuilt(listing).Keys == Interval(first, End(m) + j);
  }

  /**
   A crash in `purge` after `j` of `gone` deletions reopens gap-free exactly
   when the deletions were done or the purge stops inside the log.
   */
  lemma CrashInPurge(d: Disk, start: Disk, m: OffsetLog, id: LogId, j: nat, listing: seq<(string, Entry)>)
    requires Indexed(m) && First(m.purged) <= id.index + 1 && j <= Position(m, id.index + 1)
    requires start.purged == Some(id) && Lists(listing, d.log)
    requires AfterDeletes(d, start, LogMap(First(m.purged), m.entries), First(m.purged), j)
    ensures Rebuilt(listing) == LogMap(First(m.purged) + j, m.entries[j..])
    ensures GapFree(Rebuilt(listing), d.purged) <==> j == Position(m, id.index + 1) || id.index < End(m)
  {
    hide LogMap, Interval, Mirrors, Lists, Rebuilt;
    var first, log := First(m.purged), LogMap(First(m.purged) + j, m.entries[j..]);
    assert log == LogMap(first, m.entries) - Interval(first, first + j);
    ReopenRebuilds(listing, d.log, log);
    assert log.Keys == Interval(first + j, End(m));
    PurgeGap(m, id, j, log);
  }

  lemma PurgeGap(m: OffsetLog, id: LogId, j: nat, log: map<nat, Entry>)
    requires First(m.purged) <= id.index + 1 && j <= Position(m, id.index + 1)
    requires log.Keys == Interval(First(m.purged) + j, End(m))
    ensures GapFree(log, Some(id)) <==> j == Position(m, id.index + 1) || id.index < End(m)
  {
    hide Interval;
    var first := First(m.purged);
    if id.index < End(m) {
      assert GapFree(log, Some(id));
    } else if j == |m.entries| {
      assert log.Keys == Interval(id.index + 1, id.index + 1);
    } else {
      assert first + j in log.Keys && id.index !in log.Keys;
      if a: nat, b: nat :| a <= id.index + 1 <= b && log.Keys == Interval(a, b) {
        assert false;
      }
    }
  }

  /** A crash in `truncate_after` reopens gap-free only before the first or after the last deletion. */
  lemma CrashInTruncate(d: Disk, start: Disk, m: OffsetLog, keep: nat, j: nat, listing: seq<(string, Entry)>)
    requires Indexed(m) && keep + j <= |m.entries| && start.purged == m.purged && Lists(listing, d.log)
    requires AfterDeletes(d, start, LogMap(First(m.purged), m.entries), First(m.purged) + keep, j)
    ensures GapFree(Rebuilt(listing), d.purged) <==> j == 0 || keep + j == |m.entries|
  {
    hide LogMap, Interval, Mirrors, Lists, Rebuilt;
    var first := First(m.purged);
    var log := LogMap(first, m.entries) - Interval(first + keep, first + keep + j);
    ReopenRebuilds(listing, d.log, log);
    if j == 0 {
      assert log.Keys == Interval(first, End(m));
    } else if keep + j == |m.entries| {
      assert log.Keys == Interval(first, first + keep);
    } else {
      assert End(m) - 1 in log.Keys && first + keep !in log.Keys;
      if a: nat, b: nat :| a <= First(d.purged) <= b && log.Keys == Interval(a, b) {
        assert false;
      }
    }
  }
}
