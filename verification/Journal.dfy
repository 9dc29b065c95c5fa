/**
 The idempotency journal: a map with a 24-hour lifetime per entry, collected
 and copied at snapshots, next to a journal that keeps every record for ever.
 */
module Journal {
  import opened Prelude

  /** The state machine's response is opaque to the journal. */
  type Response = string

  datatype Entry = Entry(key: string, fingerprint: nat, response: Response, createdAt: nat)

  datatype Outcome = New | Duplicate(response: Response) | Conflict

  const KEY_TTL_SECS: nat := 24 * 3600

  function SaturatingSub(a: nat, b: nat): nat {
    if a >= b then a - b else 0
  }

  predicate Expired(e: Entry, now: nat) {
    SaturatingSub(now, e.createdAt) > KEY_TTL_SECS
  }

  /** The answer for a key whose stored entry, if any, is `stored`. */
  function Answer(stored: Option<Entry>, fingerprint: nat, now: nat): Outcome {
    match stored
    case None => New
    case Some(e) =>
      if Expired(e, now) then New
      else if e.fingerprint == fingerprint then Duplicate(e.response)
      else Conflict
  }

  function Lookup(entries: map<string, Entry>, key: string): Option<Entry> {
    if key in entries then Some(entries[key]) else None
  }

  function Collected(entries: map<string, Entry>, now: nat): map<string, Entry> {
    map k | k in entries && !Expired(entries[k], now) :: entries[k]
  }

  /** The map that inserting a list of entries in order leaves. */
  function Inserted(list: seq<Entry>): map<string, Entry> {
    if list == [] then map[]
    else Inserted(list[..|list| - 1])[list[|list| - 1].key := list[|list| - 1]]
  }

  /** A snapshot: each entry of the map once, in any order. */
  ghost predicate SnapshotOf(list: seq<Entry>, entries: map<string, Entry>) {
    && (forall i :: 0 <= i < |list| ==> list[i].key in entries && entries[list[i].key] == list[i])
    && (forall k :: k in entries ==> entries[k] in list)
    && (forall i, j :: 0 <= i < j < |list| ==> list[i] != list[j])
  }

  class IdempotencyJournal {
    var entries: map<string, Entry>

    /** Entries are filed under their own key. */
    ghost predicate Filed()
      reads this
    {
      WellFiled(entries)
    }

    constructor ()
      ensures Filed() && entries == map[]
    {
      entries := map[];
    }

    method Check(key: string, fingerprint: nat, now: nat) returns (r: Outcome)
      ensures r == Answer(Lookup(entries, key), fingerprint, now)
    {
      if key !in entries {
        return New;
      }
      var e := entries[key];
      if SaturatingSub(now, e.createdAt) > KEY_TTL_SECS {
        return New;
      }
      if e.fingerprint == fingerprint {
        r := Duplicate(e.response);
      } else {
        r := Conflict;
      }
    }

    method Record(key: string, fingerprint: nat, response: Response, now: nat)
      modifies this
      ensures entries == old(entries)[key := Entry(key, fingerprint, response, now)]
      ensures old(Filed()) ==> Filed()
    {
      entries := entries[key := Entry(key, fingerprint, response, now)];
    }

    method Gc(now: nat) returns (removed: nat)
      modifies this
      ensures entries == Collected(old(entries), now)
      ensures forall k :: k in entries <==> k in old(entries) && now <= old(entries)[k].createdAt + 86400
      ensures forall k :: k in entries ==> entries[k] == old(entries)[k]
      ensures removed == |set k | k in old(entries) && now > old(entries)[k].createdAt + 86400|
      ensures old(Filed()) ==> Filed()
    {
      var before := entries;
      entries := map k | k in entries && SaturatingSub(now, entries[k].createdAt) <= KEY_TTL_SECS :: entries[k];
      assert entries.Keys <= before.Keys;
      SubsetSize(entries.Keys, before.Keys);
      removed := |before| - |entries|;
      assert before.Keys - entries.Keys == set k | k in before && now > before[k].createdAt + 86400;
    }

    method ToEntries() returns (list: seq<Entry>)
      requires Filed()
      ensures SnapshotOf(list, entries)
    {
      list := [];
      var left := entries.Keys;
      while left != {}
        invariant left <= entries.Keys
        invariant forall i :: 0 <= i < |list| ==> list[i].key in entries && list[i].key !in left && entries[list[i].key] == list[i]
        invariant forall k :: k in entries && k !in left ==> entries[k] in list
        invariant forall i, j :: 0 <= i < j < |list| ==> list[i] != list[j]
        decreases left
      {
        var k :| k in left;
        list := list + [entries[k]];
        left := left - {k};
      }
    }

    method Restore(list: seq<Entry>)
      modifies this
      ensures entries == Inserted(list)
      ensures Filed()
    {
      entries := map[];
      for i := 0 to |list|
        invariant entries == Inserted(list[..i])
        invariant Filed()
      {
        entries := entries[list[i].key := list[i]];
        assert list[..i + 1][..i] == list[..i];
      }
      assert list[..|list|] == list;
    }
  }

  ghost predicate WellFiled(entries: map<string, Entry>) {
    forall k :: k in entries ==> entries[k].key == k
  }

  // ------------------------------------------------------------------
  // Snapshot and restore
  // ------------------------------------------------------------------

  lemma {:induction false} InsertedEntries(list: seq<Entry>)
    requires forall i, j :: 0 <= i < j < |list| ==> list[i].key != list[j].key
    ensures forall k :: k in Inserted(list) ==> Inserted(list)[k] in list && Inserted(list)[k].key == k
    ensures forall i :: 0 <= i < |list| ==> list[i].key in Inserted(list) && Inserted(list)[list[i].key] == list[i]
  {
    if list != [] {
      var init := list[..|list| - 1];
      InsertedEntries(init);
      assert list == init + [list[|list| - 1]];
      assert forall i :: 0 <= i < |init| ==> init[i] == list[i];
    }
  }

  /** Inserting a list in order leaves each key with its last entry. */
  lemma {:induction false} InsertedIsLatest(list: seq<Entry>, key: string)
    ensures Lookup(Inserted(list), key) == Latest(list, key)
  {
    if list != [] {
      InsertedIsLatest(list[..|list| - 1], key);
    }
  }

  /** Restoring a snapshot, whatever its order, gives the journal back. */
  lemma RestoreSnapshot(list: seq<Entry>, entries: map<string, Entry>)
    requires WellFiled(entries) && SnapshotOf(list, entries)
    ensures Inserted(list) == entries
  {
    assert forall i, j :: 0 <= i < j < |list| ==> list[i].key != list[j].key;
    InsertedEntries(list);
    forall k | k in entries
      ensures k in Inserted(list)
    {
      var i :| 0 <= i < |list| && list[i] == entries[k];
      assert list[i].key == k;
    }
  }

  // ------------------------------------------------------------------
  // Runs, next to a journal that never forgets
  // ------------------------------------------------------------------

  datatype Op =
    | Record(key: string, fingerprint: nat, response: Response)
    | Check(key: string, fingerprint: nat)
    | Gc
    | SnapshotRestore(list: seq<Entry>)

  datatype Event = Event(op: Op, now: nat)

  /** The latest record of a key in a complete history. */
  ghost function Latest(history: seq<Entry>, key: string): Option<Entry> {
    if history == [] then None
    else if history[|history| - 1].key == key then Some(history[|history| - 1])
    else Latest(history[..|history| - 1], key)
  }

  /** Clock readings do not step back, and a restored list is a snapshot of the journal. */
  ghost predicate Enabled(entries: map<string, Entry>, clock: nat, e: Event) {
    clock <= e.now && (e.op.SnapshotRestore? ==> SnapshotOf(e.op.list, entries))
  }

  function Step(entries: map<string, Entry>, e: Event): map<string, Entry> {
    match e.op
    case Record(k, f, r) => entries[k := Entry(k, f, r, e.now)]
    case Check(_, _) => entries
    case Gc => Collected(entries, e.now)
    case SnapshotRestore(list) => Inserted(list)
  }

  /** The same step on the complete history. */
  ghost function ReferenceStep(history: seq<Entry>, e: Event): seq<Entry> {
    match e.op
    case Record(k, f, r) => history + [Entry(k, f, r, e.now)]
    case _ => history
  }

  ghost predicate Run(entries: map<string, Entry>, clock: nat, events: seq<Event>)
    decreases |events|
  {
    events != [] ==> Enabled(entries, clock, events[0]) && Run(Step(entries, events[0]), events[0].now, events[1..])
  }

  /** The answers given to checks. */
  function Answers(entries: map<string, Entry>, events: seq<Event>): seq<Outcome>
    decreases |events|
  {
    if events == [] then []
    else
      var e := events[0];
      (if e.op.Check? then [Answer(Lookup(entries, e.op.key), e.op.fingerprint, e.now)] else [])
      + Answers(Step(entries, e), events[1..])
  }

  ghost function ReferenceAnswers(history: seq<Entry>, events: seq<Event>): seq<Outcome>
    decreases |events|
  {
    if events == [] then []
    else
      var e := events[0];
      (if e.op.Check? then [Answer(Latest(history, e.op.key), e.op.fingerprint, e.now)] else [])
      + ReferenceAnswers(ReferenceStep(history, e), events[1..])
  }

  /** The journal holds the latest record of each key, and has lost only expired ones. */
  ghost predicate Agrees(entries: map<string, Entry>, history: seq<Entry>, clock: nat) {
    && WellFiled(entries)
    && (forall k :: k in entries ==> Latest(history, k) == Some(entries[k]))
    && (forall k :: k !in entries && Latest(history, k).Some? ==> Expired(Latest(history, k).value, clock))
  }

  lemma LatestOfAppend(history: seq<Entry>, e: Entry, k: string)
    ensures Latest(history + [e], k) == if e.key == k then Some(e) else Latest(history, k)
  {
    assert (history + [e])[..|history|] == history;
  }

  /** Agreement means equal answers, now and at any later reading. */
  lemma AgreeingAnswers(entries: map<string, Entry>, history: seq<Entry>, clock: nat, k: string, f: nat, now: nat)
    requires Agrees(entries, history, clock) && clock <= now
    ensures Answer(Lookup(entries, k), f, now) == Answer(Latest(history, k), f, now)
  {
  }

  /** The `i`-th record is the last one of its key. */
  ghost predicate LastRecord(history: seq<Entry>, key: string, i: int) {
    && 0 <= i < |history| && history[i].key == key
    && forall j :: i < j < |history| ==> history[j].key != key
  }

  lemma {:induction false} LatestIsLastRecord(history: seq<Entry>, key: string)
    ensures Latest(history, key).None? <==> forall i :: 0 <= i < |history| ==> history[i].key != key
    ensures Latest(history, key).Some? ==>
              exists i :: LastRecord(history, key, i) && history[i] == Latest(history, key).value
  {
    if history != [] {
      var init, last := history[..|history| - 1], history[|history| - 1];
      LatestIsLastRecord(init, key);
      if last.key == key {
        assert LastRecord(history, key, |history| - 1);
      } else {
        assert forall i :: 0 <= i < |init| ==> init[i] == history[i];
        if Latest(init, key).Some? {
          var i :| LastRecord(init, key, i) && init[i] == Latest(init, key).value;
          assert LastRecord(history, key, i);
        }
      }
    }
  }

  /**
   What the reference answers, from the history alone: a key without a record
   is new, and otherwise its last record decides, by its fingerprint, while it
   is at most 24 hours old.
   */
  lemma ReferenceMeans(history: seq<Entry>, key: string, fingerprint: nat, now: nat)
    ensures var answer := Answer(Latest(history, key), fingerprint, now);
            && (answer == New <==> forall i :: LastRecord(history, key, i) ==> now > history[i].createdAt + 86400)
            && (forall i :: LastRecord(history, key, i) ==>
                  && (answer == Duplicate(history[i].response) <==>
                        now <= history[i].createdAt + 86400 && history[i].fingerprint == fingerprint)
                  && (answer == Conflict <==>
                        now <= history[i].createdAt + 86400 && history[i].fingerprint != fingerprint))
  {
    LatestIsLastRecord(history, key);
  }

  lemma StepKeepsAgreement(entries: map<string, Entry>, history: seq<Entry>, clock: nat, e: Event)
    requires Agrees(entries, history, clock) && Enabled(entries, clock, e)
    ensures Agrees(Step(entries, e), ReferenceStep(history, e), e.now)
    ensures e.op.Gc? ==>
              forall k :: k in Step(entries, e) <==> Latest(history, k).Some? && !Expired(Latest(history, k).value, e.now)
  {
    match e.op
    case SnapshotRestore(list) => RestoreSnapshot(list, entries);
    case Record(key, f, r) =>
      forall k {
        LatestOfAppend(history, Entry(key, f, r, e.now), k);
      }
    case _ =>
  }

  /** Expiry, collection and snapshots are invisible in the answers of every run. */
  lemma {:induction false} NeverForgets(entries: map<string, Entry>, history: seq<Entry>, clock: nat, events: seq<Event>)
    requires Agrees(entries, history, clock) && Run(entries, clock, events)
    ensures Answers(entries, events) == ReferenceAnswers(history, events)
    decreases |events|
  {
    if events != [] {
      var e := events[0];
      StepKeepsAgreement(entries, history, clock, e);
      if e.op.Check? {
        AgreeingAnswers(entries, history, clock, e.op.key, e.op.fingerprint, e.now);
      }
      NeverForgets(Step(entries, e), ReferenceStep(history, e), e.now, events[1..]);
    }
  }

  lemma EmptyJournalNeverForgets(clock: nat, events: seq<Event>)
    requires Run(map[], clock, events)
    ensures Answers(map[], events) == ReferenceAnswers([], events)
  {
    NeverForgets(map[], [], clock, events);
  }

  // ------------------------------------------------------------------
  // When a command may run again
  // ------------------------------------------------------------------

  /** The journal before the `k`-th event of a run. */
  function Before(entries: map<string, Entry>, events: seq<Event>, k: nat): map<string, Entry>
    requires k <= |events|
    decreases k
  {
    if k == 0 then entries else Before(Step(entries, events[0]), events[1..], k - 1)
  }

  predicate Checks(e: Event, key: string) {
    e.op.Check? && e.op.key == key
  }

  predicate Records(e: Event, key: string) {
    e.op.Record? && e.op.key == key
  }

  /** The `k`-th event checks `key`, and the caller is told it is new and runs its command. */
  predicate Admitted(entries: map<string, Entry>, events: seq<Event>, k: nat, key: string)
    requires k < |events|
  {
    && Checks(events[k], key)
    && Answer(Lookup(Before(entries, events, k), key), events[k].op.fingerprint, events[k].now).New?
  }

  /** Entries are filed under their key and none is from the future. */
  ghost predicate Timely(entries: map<string, Entry>, clock: nat) {
    WellFiled(entries) && forall k :: k in entries ==> entries[k].createdAt <= clock
  }

  predicate OutOfDate(stored: Option<Entry>, now: nat) {
    stored.Some? ==> Expired(stored.value, now)
  }

  /** Only a record of the key can take away that it is out of date. */
  lemma StepAges(entries: map<string, Entry>, clock: nat, e: Event, key: string, now: nat)
    requires Timely(entries, clock) && Enabled(entries, clock, e) && e.now <= now
    ensures Timely(Step(entries, e), e.now)
    ensures OutOfDate(Lookup(Step(entries, e), key), now) <==>
            OutOfDate(Lookup(entries, key), now) && (Records(e, key) ==> now - e.now > KEY_TTL_SECS)
  {
    if e.op.SnapshotRestore? {
      RestoreSnapshot(e.op.list, entries);
    }
  }

  /** No record of the key from event `from` up to event `k` is still alive at event `k`. */
  ghost predicate NoneAlive(events: seq<Event>, from: nat, k: nat, key: string)
    requires k < |events|
  {
    forall j :: from <= j < k && Records(events[j], key) ==> events[k].now - events[j].now > KEY_TTL_SECS
  }

  lemma NoneAliveFirst(events: seq<Event>, k: nat, key: string)
    requires 0 < k < |events|
    ensures NoneAlive(events, 0, k, key) <==>
            && (Records(events[0], key) ==> events[k].now - events[0].now > KEY_TTL_SECS)
            && NoneAlive(events[1..], 0, k - 1, key)
  {
    if NoneAlive(events[1..], 0, k - 1, key) {
      assert forall j :: 0 < j < k ==> events[j] == events[1..][j - 1];
    }
  }

  /** A check is answered new exactly when the start's entry and every earlier record of the key are 24 hours past. */
  lemma {:induction false} AdmittedMeans(
    entries: map<string, Entry>, clock: nat, events: seq<Event>, k: nat, key: string)
    requires Timely(entries, clock) && Run(entries, clock, events) && k < |events|
    ensures clock <= events[k].now
    ensures Admitted(entries, events, k, key) <==>
            Checks(events[k], key) && OutOfDate(Lookup(entries, key), events[k].now) && NoneAlive(events, 0, k, key)
    decreases k
  {
    if k > 0 {
      hide Timely, Step, NoneAlive, OutOfDate, Answer;
      var e, next := events[0], Step(entries, events[0]);
      StepAges(entries, clock, e, key, e.now);
      AdmittedMeans(next, e.now, events[1..], k - 1, key);
      StepAges(entries, clock, e, key, events[k].now);
      NoneAliveFirst(events, k, key);
    }
  }

  lemma {:induction false} RunClock(entries: map<string, Entry>, clock: nat, events: seq<Event>, i: nat, k: nat)
    requires Run(entries, clock, events) && i <= k < |events|
    ensures clock <= events[i].now <= events[k].now
    decreases k
  {
    if k > 0 {
      RunClock(Step(entries, events[0]), events[0].now, events[1..], if i > 0 then i - 1 else 0, k - 1);
    }
  }

  /**
   After one caller is admitted, a later check of the key is admitted too
   exactly when every record made in between is more than 24 hours old. So a
   recorded command does not run again in its lifetime, and callers that check
   before the first of them records all run.
   */
  lemma RunsAgainIff(
    entries: map<string, Entry>, clock: nat, events: seq<Event>, i: nat, k: nat, key: string)
    requires Timely(entries, clock) && Run(entries, clock, events) && i < k < |events|
    requires Admitted(entries, events, i, key) && Checks(events[k], key)
    ensures Admitted(entries, events, k, key) <==> NoneAlive(events, i + 1, k, key)
  {
    hide Admitted, Run, Timely;
    AdmittedMeans(entries, clock, events, i, key);
    AdmittedMeans(entries, clock, events, k, key);
    RunClock(entries, clock, events, i, k);
  }

  /** A recorded key is admitted again only more than 24 hours after the record, whatever happens between. */
  lemma RecordBlocks(entries: map<string, Entry>, clock: nat, events: seq<Event>, j: nat, k: nat, key: string)
    requires Timely(entries, clock) && Run(entries, clock, events) && j < k < |events|
    requires Records(events[j], key) && Admitted(entries, events, k, key)
    ensures events[k].now - events[j].now > KEY_TTL_SECS
  {
    hide Admitted, Run, Timely;
    AdmittedMeans(entries, clock, events, k, key);
  }

  /** Two callers of a new journal that both check before either records are both admitted. */
  lemma OverlappingCallers(key: string, fingerprint: nat, response: Response, response': Response, now: nat)
    ensures var check := Event(Check(key, fingerprint), now);
            var events := [check, check, Event(Record(key, fingerprint, response), now),
                           Event(Record(key, fingerprint, response'), now)];
            Run(map[], now, events) && Admitted(map[], events, 0, key) && Admitted(map[], events, 1, key)
  {
    var check := Event(Check(key, fingerprint), now);
    var first, second := Event(Record(key, fingerprint, response), now), Event(Record(key, fingerprint, response'), now);
    var events := [check, check, first, second];
    var recorded := Step(map[], first);
    assert [second][1..] == [] && Run(recorded, now, [second]);
    assert [first, second][1..] == [second] && Run(map[], now, [first, second]);
    assert [check, first, second][1..] == [first, second] && Run(map[], now, [check, first, second]);
    assert events[1..] == [check, first, second];
    AdmittedMeans(map[], now, events, 0, key);
    AdmittedMeans(map[], now, events, 1, key);
  }
}
