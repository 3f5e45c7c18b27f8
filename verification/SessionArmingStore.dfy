/** The durable arming store of extension/src/arming.ts, statement by statement. The ghost
    `log` records every awaited write, so the contracts fix their order as well as the result. */
module SessionArming {
  import opened Options
  import opened InMemoryArming
  import opened DurableArming

  /** IndexedDbBinaryPayloadStore: each method is one transaction. */
  class BinaryPayloadStore {
    var records: Payloads
    const hash: Bytes -> string

    constructor (hash: Bytes -> string, records: Payloads)
      ensures this.hash == hash && this.records == records
    {
      this.hash := hash;
      this.records := records;
    }

    method PutBytes(bytes: Bytes, expiresAt: int) returns (id: string)
      modifies this`records
      ensures id == hash(bytes) && records == PutPayload(old(records), id, bytes, expiresAt)
    {
      id := hash(bytes);
      if id in records {
        var existing := records[id];
        records := records[id := Payload(existing.bytes, Max(existing.expiresAt, expiresAt))];
      } else {
        records := records[id := Payload(bytes, Max(0, expiresAt))];
      }
    }

    method Get(id: string) returns (bytes: Option<Bytes>)
      ensures bytes == if id in records then Some(records[id].bytes) else None
    {
      bytes := if id in records then Some(records[id].bytes) else None;
    }

    method Delete(id: string)
      modifies this`records
      ensures records == old(records) - {id}
    {
      records := records - {id};
    }

    /** The cursor visits every record once. */
    method SweepRecords(now: int, keep: Option<set<string>>)
      modifies this`records
      ensures records == SweptPayloads(old(records), now, keep)
    {
      var visited, rest := records, records.Keys;
      while rest != {}
        invariant rest <= visited.Keys
        invariant records == map id | id in visited &&
          (id in rest || (now < visited[id].expiresAt && (keep.None? || id in keep.value))) :: visited[id]
        decreases |rest|
      {
        var id :| id in rest;
        if records[id].expiresAt <= now || (keep.Some? && id !in keep.value) {
          records := records - {id};
        }
        rest := rest - {id};
      }
    }
  }

  lemma Regroup(log: seq<Effect>, commit: Effect, sweep: seq<Effect>, deletes: seq<Effect>, alarm: Effect)
    ensures log + [commit] + sweep + deletes + [alarm] == log + ([] + [commit] + (sweep + deletes + [alarm]))
    ensures sweep == [] ==> log + [commit] + deletes + [alarm] == log + ([] + [commit] + (deletes + [alarm]))
    ensures sweep == [] ==> log + [commit] + deletes + [alarm] == log + ([commit] + (deletes + [alarm]))
  {
  }

  lemma PlanRegroup(log: seq<Effect>, plan: Plan)
    requires plan.commit.Some?
    ensures log + plan.before + ([plan.commit.value] + plan.Rest()) == log + plan.Effects()
    ensures plan.before == [] ==> log + ([plan.commit.value] + plan.Rest()) == log + plan.Effects()
  {
  }

  lemma QuietPlan(plan: Plan)
    requires plan.before == [] && plan.commit.None?
    ensures plan.Effects() == plan.Rest()
  {
  }

  lemma ArmPlan(env: Env, w: World, url: string, now: int, tab: nat, snapshot: Option<FillSnapshot>, state: Arms,
                released: seq<string>)
    requires snapshot.Some? ==> StoredForm(env, snapshot.value).Some?
    requires var live := RemoveExpired(w.arms, now);
      var stored := if snapshot.None? then None else StoredForm(env, snapshot.value);
      && state == live[tab := StoredEntry(env.normalize(url), now + env.ttl, tab, stored)]
      && released == Released(w.arms, now) + Replaced(live, tab)
    ensures PlanArm(env, w, url, now, tab, snapshot) ==
            Plan(Puts(env, snapshot, now + env.ttl), Some(SetArms(state)),
                 Tidying(state, released, now), Done)
  {
  }

  /** What is left when the expired arms among these tabs have been dropped. */
  function RemoveExpiredAmong(state: Arms, now: int, tabs: seq<nat>): Arms {
    map tab | tab in state && (tab !in tabs || now < state[tab].expiresAt) :: state[tab]
  }

  lemma OneMoreVisited(state: Arms, now: int, order: seq<nat>, i: nat)
    requires i < |order| && order[i] in state
    ensures RemoveExpiredAmong(state, now, order[..i + 1]) ==
            if now >= state[order[i]].expiresAt then RemoveExpiredAmong(state, now, order[..i]) - {order[i]}
            else RemoveExpiredAmong(state, now, order[..i])
  {
    assert order[..i + 1] == order[..i] + [order[i]];
  }

  lemma AllVisited(state: Arms, now: int)
    ensures RemoveExpiredAmong(state, now, Ascending(state.Keys)) == RemoveExpired(state, now)
  {
  }

  class SessionArmingStore {
    const env: Env
    const binary: BinaryPayloadStore
    var arms: Arms             // storage.session
    var alarm: Option<int>     // chrome.alarms
    ghost const start: World   // what the worker found when it started
    ghost var log: seq<Effect>

    ghost function Durable(): World
      reads this, binary
    {
      World(arms, binary.records, alarm)
    }

    ghost predicate Valid()
      reads this, binary
    {
      binary.hash == env.hash && Durable() == ApplyAll(start, log)
    }

    /** A starting worker takes over whatever an earlier one left behind. */
    constructor (env: Env, binary: BinaryPayloadStore, arms: Arms, alarm: Option<int>)
      requires binary.hash == env.hash
      ensures Valid() && log == [] && Durable() == World(arms, binary.records, alarm)
      ensures this.env == env && this.binary == binary
    {
      this.env := env;
      this.binary := binary;
      this.arms := arms;
      this.alarm := alarm;
      start := World(arms, binary.records, alarm);
      log := [];
    }

    /** What an operation that made the writes `es` has done. */
    twostate predicate Wrote(es: seq<Effect>)
      reads this, binary
    {
      Valid() && log == old(log) + es && Durable() == ApplyAll(old(Durable()), es)
    }

    twostate lemma LogExplains(es: seq<Effect>)
      requires old(Valid()) && Valid() && log == old(log) + es
      ensures Wrote(es)
    {
      ApplyAllSplit(start, old(log), es);
    }

    // ---- single awaited writes ----

    method StorageSet(state: Arms)
      requires Valid()
      modifies this`arms, this`log
      ensures Valid() && log == old(log) + [SetArms(state)]
    {
      arms := state;
      log := log + [SetArms(state)];
      ApplyAllSplit(start, old(log), [SetArms(state)]);
    }

    method StorageRemove()
      requires Valid()
      modifies this`arms, this`log
      ensures Valid() && log == old(log) + [RemoveArms]
    {
      arms := map[];
      log := log + [RemoveArms];
      ApplyAllSplit(start, old(log), [RemoveArms]);
    }

    method BinaryPut(bytes: Bytes, expiresAt: int) returns (id: string)
      requires Valid()
      modifies this`log, binary
      ensures Valid() && id == env.hash(bytes) && log == old(log) + [Put(id, bytes, expiresAt)]
    {
      id := binary.PutBytes(bytes, expiresAt);
      log := log + [Put(id, bytes, expiresAt)];
      ApplyAllSplit(start, old(log), [Put(id, bytes, expiresAt)]);
    }

    method BinaryDelete(id: string)
      requires Valid()
      modifies this`log, binary
      ensures Valid() && log == old(log) + [DeletePayload(id)]
    {
      binary.Delete(id);
      log := log + [DeletePayload(id)];
      ApplyAllSplit(start, old(log), [DeletePayload(id)]);
    }

    method BinarySweep(now: int, keep: set<string>)
      requires Valid()
      modifies this`log, binary
      ensures Valid() && log == old(log) + [SweepPayloads(now, keep)]
    {
      binary.SweepRecords(now, Some(keep));
      log := log + [SweepPayloads(now, keep)];
      ApplyAllSplit(start, old(log), [SweepPayloads(now, keep)]);
    }

    method RescheduleAlarm(state: Arms)
      requires Valid()
      modifies this`alarm, this`log
      ensures Valid() && log == old(log) + [AlarmEffect(state)]
    {
      var order := Ascending(state.Keys);
      var next: Option<int> := None;
      for i := 0 to |order|
        invariant next == MinExpiryOf(state, order[..i])
      {
        assert order[..i + 1][..i] == order[..i];
        var at := state[order[i]].expiresAt;
        next := if next.None? || at < next.value then Some(at) else next;
      }
      assert order[..|order|] == order;
      if next.None? {
        alarm := None;
      } else {
        alarm := Some(next.value);
      }
      log := log + [AlarmEffect(state)];
      ApplyAllSplit(start, old(log), [AlarmEffect(state)]);
    }

    // ---- helpers ----

    method RemoveExpiredEntries(state: Arms, now: int) returns (kept: Arms, released: seq<string>)
      ensures kept == RemoveExpired(state, now) && released == Released(state, now)
    {
      var order := Ascending(state.Keys);
      kept, released := state, [];
      for i := 0 to |order|
        invariant released == ExpiredIds(state, now, order[..i])
        invariant kept == RemoveExpiredAmong(state, now, order[..i])
      {
        var entry := state[order[i]];
        assert order[..i + 1][..i] == order[..i];
        OneMoreVisited(state, now, order, i);
        if now >= entry.expiresAt {
          released := released + EntryPayloadIds(entry);
          kept := kept - {order[i]};
        }
      }
      assert order[..|order|] == order;
      AllVisited(state, now);
    }

    method CollectPayloadIds(state: Arms) returns (ids: seq<string>)
      ensures ids == Distinct(IdsOf(state, Ascending(state.Keys)))
      ensures (set id | id in ids) == PayloadIds(state)
    {
      var order := Ascending(state.Keys);
      var all: seq<string> := [];
      for i := 0 to |order|
        invariant all == IdsOf(state, order[..i])
      {
        assert order[..i + 1][..i] == order[..i];
        all := all + EntryPayloadIds(state[order[i]]);
      }
      assert order[..|order|] == order;
      AllIds(state, all);
      ids := Distinct(all);
    }

    method ActivePayloadIds(state: Arms) returns (active: set<string>)
      ensures active == PayloadIds(state)
    {
      var ids := CollectPayloadIds(state);
      active := set id | id in ids;
    }

    method DeleteUnless(candidates: seq<string>, keep: set<string>)
      requires Valid()
      modifies this`log, binary
      ensures Valid() && log == old(log) + Deletes(candidates, keep)
    {
      for i := 0 to |candidates|
        invariant Valid() && log == old(log) + Deletes(candidates[..i], keep)
      {
        assert candidates[..i + 1][..i] == candidates[..i];
        if candidates[i] !in keep {
          BinaryDelete(candidates[i]);
        }
      }
      assert candidates[..|candidates|] == candidates;
    }

    method CleanUp(state: Arms, candidates: seq<string>, now: int)
      requires Valid()
      modifies this`log, binary
      ensures Valid() && log == old(log) + Cleanup(state, candidates, now)
    {
      var active := ActivePayloadIds(state);
      ghost var deletes := Deletes(Distinct(candidates), active);
      DeleteUnless(Distinct(candidates), active);
      BinarySweep(now, active);
      assert old(log) + deletes + [SweepPayloads(now, active)] == old(log) + (deletes + [SweepPayloads(now, active)]);
    }

    /** The common tail of the operations: write the arms, drop payloads, move the alarm. */
    method Persist(state: Arms, candidates: seq<string>, now: int)
      requires Valid()
      modifies this`arms, this`alarm, this`log, binary
      ensures Valid()
      ensures log == old(log) + ([SetArms(state)] + Tidying(state, candidates, now).Effects())
    {
      StorageSet(state);
      CleanUp(state, candidates, now);
      RescheduleAlarm(state);
      ghost var cleanup := Cleanup(state, candidates, now);
      Regroup(old(log), SetArms(state), [], cleanup, AlarmEffect(state));
    }

    method StoreSnapshot(snapshot: FillSnapshot, expiresAt: int) returns (stored: Option<StoredSnapshot>)
      requires Valid()
      modifies this`log, binary
      ensures Valid() && stored == StoredForm(env, snapshot)
      ensures log == old(log) + Puts(env, Some(snapshot), expiresAt)
    {
      if snapshot.cv.NoCv? {
        return Some(StoredSnapshot(snapshot.profile, NoStoredCv));
      }
      if snapshot.cv.NullCv? {
        return Some(StoredSnapshot(snapshot.profile, NullStoredCv));
      }
      var bytes := env.decode(snapshot.cv.base64);
      if bytes.None? {
        return None;
      }
      var id := BinaryPut(bytes.value, expiresAt);
      return Some(StoredSnapshot(snapshot.profile, FileReference(snapshot.cv.name, snapshot.cv.kind, id)));
    }

    method MaterializeEntry(entry: StoredEntry) returns (result: ArmedEntry)
      ensures result == Materialize(env, binary.records, entry)
    {
      if entry.snapshot.None? {
        return ArmedEntry(entry.url, entry.expiresAt, Some(entry.tabId), None);
      }
      var stored := entry.snapshot.value;
      var cv := NoCv;
      if stored.cv.NullStoredCv? {
        cv := NullCv;
      } else if stored.cv.FileReference? {
        var bytes := binary.Get(stored.cv.payloadId);
        cv := if bytes.Some? then CvFile(stored.cv.name, stored.cv.kind, env.encode(bytes.value)) else NullCv;
      }
      return ArmedEntry(entry.url, entry.expiresAt, Some(entry.tabId), Some(FillSnapshot(stored.profile, cv)));
    }

    // ---- operations; the serial queue runs one of them at a time ----

    method ArmTab(url: string, now: int, tab: nat, snapshot: Option<FillSnapshot>) returns (answer: Answer)
      requires Valid()
      modifies this`arms, this`alarm, this`log, binary
      ensures answer == PlanArm(env, old(Durable()), url, now, tab, snapshot).answer
      ensures Wrote(PlanArm(env, old(Durable()), url, now, tab, snapshot).Effects())
    {
      ghost var w, plan := Durable(), PlanArm(env, Durable(), url, now, tab, snapshot);
      var live, released := RemoveExpiredEntries(arms, now);
      var expiresAt := now + env.ttl;
      var stored: Option<StoredSnapshot> := None;
      if snapshot.Some? {
        stored := StoreSnapshot(snapshot.value, expiresAt);
        if stored.None? {
          LogExplains([]);
          return Rejected;
        }
      }
      var replaced: seq<string> := [];
      if tab in live && live[tab].snapshot.Some? && live[tab].snapshot.value.cv.FileReference? {
        replaced := [live[tab].snapshot.value.cv.payloadId];
      }
      released := released + replaced;
      var state := live[tab := StoredEntry(env.normalize(url), expiresAt, tab, stored)];
      ArmPlan(env, w, url, now, tab, snapshot, state, released);
      Persist(state, released, now);
      PlanRegroup(old(log), plan);
      LogExplains(plan.Effects());
      return Done;
    }

    method ConsumeTab(url: string, now: int, tab: nat) returns (answer: Answer)
      requires Valid()
      modifies this`arms, this`alarm, this`log, binary
      ensures answer == PlanConsume(env, old(Durable()), url, now, tab).answer
      ensures Wrote(PlanConsume(env, old(Durable()), url, now, tab).Effects())
    {
      ghost var plan := PlanConsume(env, Durable(), url, now, tab);
      if tab !in arms || arms[tab].url != env.normalize(url) {
        LogExplains([]);
        return Found(None);
      }
      var entry := arms[tab];
      var found: Option<ArmedEntry> := None;
      if now < entry.expiresAt {
        var materialized := MaterializeEntry(entry);
        found := Some(materialized);
      }
      var state := arms - {tab};
      Persist(state, EntryPayloadIds(entry), now);
      PlanRegroup(old(log), plan);
      LogExplains(plan.Effects());
      return Found(found);
    }

    method PeekTab(url: string, now: int, tab: nat) returns (answer: Answer)
      requires Valid()
      modifies this`arms, this`alarm, this`log, binary
      ensures answer == PlanPeek(env, old(Durable()), url, now, tab).answer
      ensures Wrote(PlanPeek(env, old(Durable()), url, now, tab).Effects())
    {
      ghost var plan := PlanPeek(env, Durable(), url, now, tab);
      if tab !in arms || arms[tab].url != env.normalize(url) {
        LogExplains([]);
        return Found(None);
      }
      var entry := arms[tab];
      if now >= entry.expiresAt {
        var state := arms - {tab};
        assert plan == PlanRemoval(Durable(), tab, now, Found(None));
        Persist(state, EntryPayloadIds(entry), now);
        PlanRegroup(old(log), plan);
        LogExplains(plan.Effects());
        return Found(None);
      }
      var materialized := MaterializeEntry(entry);
      assert plan == Plan([], None, Rearming(arms), Found(Some(materialized)));
      RescheduleAlarm(arms);
      QuietPlan(plan);
      LogExplains(plan.Effects());
      return Found(Some(materialized));
    }

    method SweepExpired(now: int)
      requires Valid()
      modifies this`arms, this`alarm, this`log, binary
      ensures Wrote(PlanSweep(old(Durable()), now).Effects())
    {
      ghost var plan := PlanSweep(Durable(), now);
      var state, released := RemoveExpiredEntries(arms, now);
      Persist(state, released, now);
      PlanRegroup(old(log), plan);
      LogExplains(plan.Effects());
    }

    method Clear(tabId: Option<nat>, now: int)
      requires Valid()
      modifies this`arms, this`alarm, this`log, binary
      ensures Wrote((if tabId.Some? then PlanClearTab(old(Durable()), tabId.value)
                     else PlanClearAll(old(Durable()), now)).Effects())
    {
      if tabId.None? {
        ClearEverything(now);
      } else {
        ClearOneTab(tabId.value);
      }
    }

    method ClearEverything(now: int)
      requires Valid()
      modifies this`arms, this`alarm, this`log, binary
      ensures Wrote(PlanClearAll(old(Durable()), now).Effects())
    {
      ghost var plan := PlanClearAll(Durable(), now);
      var state := arms;
      StorageRemove();
      BinarySweep(now, {});
      var ids := CollectPayloadIds(state);
      DeleteUnless(ids, {});
      RescheduleAlarm(map[]);
      Regroup(old(log), RemoveArms, [SweepPayloads(now, {})], Deletes(ids, {}), AlarmEffect(map[]));
      LogExplains(plan.Effects());
    }

    method ClearOneTab(tab: nat)
      requires Valid()
      modifies this`arms, this`alarm, this`log, binary
      ensures Wrote(PlanClearTab(old(Durable()), tab).Effects())
    {
      ghost var plan := PlanClearTab(Durable(), tab);
      var released := if tab in arms then EntryPayloadIds(arms[tab]) else [];
      var state := arms - {tab};
      StorageSet(state);
      var active := ActivePayloadIds(state);
      DeleteUnless(Distinct(released), active);
      RescheduleAlarm(state);
      Regroup(old(log), SetArms(state), [], Deletes(Distinct(released), active), AlarmEffect(state));
      LogExplains(plan.Effects());
    }
  }
}
