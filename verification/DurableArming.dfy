/** The durable side of extension/src/arming.ts as values: what is persisted, the effect of
    each awaited write, and for each call the writes it issues, in order. */
module DurableArming {
  import opened Options
  import opened InMemoryArming

  type Byte = b: int | 0 <= b < 256

  type Bytes = seq<Byte>

  /** What the code takes from its environment. */
  datatype Env = Env(
    ttl: int,
    normalize: string -> string,       // normalizeUrl
    hash: Bytes -> string,             // payloadId: hex SHA-256
    decode: string -> Option<Bytes>,   // atob; None is a thrown error
    encode: Bytes -> string            // btoa
  )

  /** The content hash is taken to be collision-free; a hex digest is never empty. */
  ghost predicate Sound(env: Env) {
    && (forall a, b :: env.hash(a) == env.hash(b) ==> a == b)
    && (forall a :: env.hash(a) != "")
  }

  datatype StoredCv = NoStoredCv | NullStoredCv | FileReference(name: string, kind: string, payloadId: string)

  datatype StoredSnapshot = StoredSnapshot(profile: string, cv: StoredCv)

  datatype StoredEntry = StoredEntry(url: string, expiresAt: int, tabId: nat, snapshot: Option<StoredSnapshot>)

  /** The session-storage record, keyed by tab. */
  type Arms = map<nat, StoredEntry>

  datatype Payload = Payload(bytes: Bytes, expiresAt: int)

  type Payloads = map<string, Payload>

  /** Everything that outlives the worker. */
  datatype World = World(arms: Arms, payloads: Payloads, alarm: Option<int>)

  /** One awaited durable write. */
  datatype Effect =
    | Put(id: string, bytes: Bytes, expiresAt: int)
    | SetArms(arms: Arms)
    | RemoveArms
    | DeletePayload(id: string)
    | SweepPayloads(now: int, keep: set<string>)
    | ScheduleAlarm(at: int)
    | ClearAlarm

  function Max(a: int, b: int): int { if a < b then b else a }

  /** A second put of the same content keeps the stored bytes and the later expiry. */
  function PutPayload(payloads: Payloads, id: string, bytes: Bytes, expiresAt: int): Payloads {
    if id in payloads
    then payloads[id := Payload(payloads[id].bytes, Max(payloads[id].expiresAt, expiresAt))]
    else payloads[id := Payload(bytes, Max(0, expiresAt))]
  }

  function SweptPayloads(payloads: Payloads, now: int, keep: Option<set<string>>): Payloads {
    map id | id in payloads && now < payloads[id].expiresAt && (keep.None? || id in keep.value) :: payloads[id]
  }

  function Apply(w: World, e: Effect): World {
    match e
    case Put(id, bytes, expiresAt) => w.(payloads := PutPayload(w.payloads, id, bytes, expiresAt))
    case SetArms(arms) => w.(arms := arms)
    case RemoveArms => w.(arms := map[])
    case DeletePayload(id) => w.(payloads := w.payloads - {id})
    case SweepPayloads(now, keep) => w.(payloads := SweptPayloads(w.payloads, now, Some(keep)))
    case ScheduleAlarm(at) => w.(alarm := Some(at))
    case ClearAlarm => w.(alarm := None)
  }

  function ApplyAll(w: World, es: seq<Effect>): World
    decreases |es|
  {
    if es == [] then w else ApplyAll(Apply(w, es[0]), es[1..])
  }

  lemma {:induction false} ApplyAllSplit(w: World, es: seq<Effect>, fs: seq<Effect>)
    ensures ApplyAll(w, es + fs) == ApplyAll(ApplyAll(w, es), fs)
    decreases |es|
  {
    if es == [] {
      assert es + fs == fs;
    } else {
      assert (es + fs)[1..] == es[1..] + fs;
      ApplyAllSplit(Apply(w, es[0]), es[1..], fs);
    }
  }

  // ---- helpers of SessionArmingStore ----

  function Least(tabs: set<nat>): (tab: nat)
    requires tabs != {}
    ensures tab in tabs && forall other :: other in tabs ==> tab <= other
  {
    SomeIsLeast(tabs);
    var tab :| tab in tabs && forall other :: other in tabs ==> tab <= other;
    tab
  }

  lemma SomeIsLeast(tabs: set<nat>)
    requires tabs != {}
    ensures exists tab :: tab in tabs && forall other :: other in tabs ==> tab <= other
  {
    var pick :| pick in tabs;
    HasLeast(tabs, pick);
  }

  lemma {:induction false} HasLeast(tabs: set<nat>, pick: nat)
    requires pick in tabs
    ensures exists tab :: tab in tabs && forall other :: other in tabs ==> tab <= other
    decreases pick
  {
    if smaller :| smaller in tabs && smaller < pick {
      HasLeast(tabs, smaller);
    }
  }

  /** `Object.entries` visits integer-like keys in ascending order. */
  function Ascending(tabs: set<nat>): (order: seq<nat>)
    ensures forall tab :: tab in order <==> tab in tabs
    decreases |tabs|
  {
    if tabs == {} then [] else [Least(tabs)] + Ascending(tabs - {Least(tabs)})
  }

  /** An empty id is falsy, so it does not count as a payload. */
  function EntryPayloadIds(entry: StoredEntry): seq<string> {
    if entry.snapshot.Some? && entry.snapshot.value.cv.FileReference? && entry.snapshot.value.cv.payloadId != ""
    then [entry.snapshot.value.cv.payloadId]
    else []
  }

  function IdsOf(arms: Arms, tabs: seq<nat>): seq<string>
    requires forall tab :: tab in tabs ==> tab in arms
  {
    if tabs == [] then [] else IdsOf(arms, tabs[..|tabs| - 1]) + EntryPayloadIds(arms[tabs[|tabs| - 1]])
  }

  function ExpiredIds(arms: Arms, now: int, tabs: seq<nat>): seq<string>
    requires forall tab :: tab in tabs ==> tab in arms
  {
    if tabs == [] then [] else
    var last := arms[tabs[|tabs| - 1]];
    ExpiredIds(arms, now, tabs[..|tabs| - 1]) + if now >= last.expiresAt then EntryPayloadIds(last) else []
  }

  function RemoveExpired(arms: Arms, now: int): Arms {
    map tab | tab in arms && now < arms[tab].expiresAt :: arms[tab]
  }

  function Released(arms: Arms, now: int): seq<string> {
    ExpiredIds(arms, now, Ascending(arms.Keys))
  }

  /** Iteration order of `new Set(ids)`: first occurrences. */
  function Distinct(ids: seq<string>): (r: seq<string>)
    ensures forall id :: id in r <==> id in ids
  {
    if ids == [] then [] else
    var front, last := Distinct(ids[..|ids| - 1]), ids[|ids| - 1];
    if last in front then front else front + [last]
  }

  lemma {:induction false} IdOfSome(arms: Arms, tabs: seq<nat>, id: string)
    requires forall tab :: tab in tabs ==> tab in arms
    ensures id in IdsOf(arms, tabs) <==> exists tab :: tab in tabs && id in EntryPayloadIds(arms[tab])
  {
    if tabs != [] {
      var front, last := tabs[..|tabs| - 1], tabs[|tabs| - 1];
      IdOfSome(arms, front, id);
      assert tabs == front + [last];
    }
  }

  lemma AllIds(arms: Arms, ids: seq<string>)
    requires ids == IdsOf(arms, Ascending(arms.Keys))
    ensures (set id | id in Distinct(ids)) == PayloadIds(arms)
  {
    forall id ensures id in ids <==> id in PayloadIds(arms) {
      IdOfSome(arms, Ascending(arms.Keys), id);
    }
  }

  /** The ids that the persisted arms refer to. */
  function PayloadIds(arms: Arms): set<string> {
    set tab, id | tab in arms && id in EntryPayloadIds(arms[tab]) :: id
  }

  function Deletes(ids: seq<string>, keep: set<string>): seq<Effect> {
    if ids == [] then [] else
    Deletes(ids[..|ids| - 1], keep) + if ids[|ids| - 1] in keep then [] else [DeletePayload(ids[|ids| - 1])]
  }

  function Cleanup(arms: Arms, candidates: seq<string>, now: int): seq<Effect> {
    Deletes(Distinct(candidates), PayloadIds(arms)) + [SweepPayloads(now, PayloadIds(arms))]
  }

  function MinExpiryOf(arms: Arms, tabs: seq<nat>): Option<int>
    requires forall tab :: tab in tabs ==> tab in arms
  {
    if tabs == [] then None else
    var front, at := MinExpiryOf(arms, tabs[..|tabs| - 1]), arms[tabs[|tabs| - 1]].expiresAt;
    if front.None? || at < front.value then Some(at) else front
  }

  function AlarmEffect(arms: Arms): Effect {
    var next := MinExpiryOf(arms, Ascending(arms.Keys));
    if next.None? then ClearAlarm else ScheduleAlarm(next.value)
  }

  function Materialize(env: Env, payloads: Payloads, entry: StoredEntry): ArmedEntry {
    var snapshot :=
      if entry.snapshot.None? then None else
      var stored := entry.snapshot.value;
      Some(FillSnapshot(stored.profile,
        match stored.cv
        case NoStoredCv => NoCv
        case NullStoredCv => NullCv
        case FileReference(name, kind, id) =>
          if id in payloads then CvFile(name, kind, env.encode(payloads[id].bytes)) else NullCv));
    ArmedEntry(entry.url, entry.expiresAt, Some(entry.tabId), snapshot)
  }

  // ---- calls ----

  /** A call on the durable store. Every call is scoped to a tab, except the clear of everything. */
  datatype Call =
    | Arm(url: string, now: int, tab: nat, snapshot: Option<FillSnapshot>)
    | Consume(url: string, now: int, tab: nat)
    | Peek(url: string, now: int, tab: nat)
    | Sweep(now: int)
    | ClearTab(tab: nat)
    | ClearAll(now: int)

  datatype Answer = Done | Found(entry: Option<ArmedEntry>) | Rejected

  /** The writes after the one to the arms: none, the alarm alone, a cleanup, or the payloads of a clear. */
  datatype Tail =
    | NoTail
    | Rearming(arms: Arms)
    | Tidying(arms: Arms, candidates: seq<string>, now: int)
    | Dropping(arms: Arms, ids: seq<string>)
    | Emptying(now: int, ids: seq<string>)
  {
    function Effects(): seq<Effect> {
      match this
      case NoTail => []
      case Rearming(arms) => [AlarmEffect(arms)]
      case Tidying(arms, candidates, now) => Cleanup(arms, candidates, now) + [AlarmEffect(arms)]
      case Dropping(arms, ids) => Deletes(Distinct(ids), PayloadIds(arms)) + [AlarmEffect(arms)]
      case Emptying(now, ids) => [SweepPayloads(now, {})] + Deletes(Distinct(ids), {}) + [AlarmEffect(map[])]
    }
  }

  /** The writes of one call: at most one of them, `commit`, touches the arms. */
  datatype Plan = Plan(before: seq<Effect>, commit: Option<Effect>, tail: Tail, answer: Answer) {
    function Rest(): seq<Effect> { tail.Effects() }

    function Effects(): seq<Effect> {
      before + (if commit.Some? then [commit.value] else []) + Rest()
    }
  }

  /** The stored form of a snapshot; None when its base64 text does not decode. */
  function StoredForm(env: Env, snapshot: FillSnapshot): Option<StoredSnapshot> {
    match snapshot.cv
    case NoCv => Some(StoredSnapshot(snapshot.profile, NoStoredCv))
    case NullCv => Some(StoredSnapshot(snapshot.profile, NullStoredCv))
    case CvFile(name, kind, base64) =>
      var bytes := env.decode(base64);
      if bytes.None? then None
      else Some(StoredSnapshot(snapshot.profile, FileReference(name, kind, env.hash(bytes.value))))
  }

  function Puts(env: Env, snapshot: Option<FillSnapshot>, expiresAt: int): seq<Effect> {
    if snapshot.Some? && snapshot.value.cv.CvFile? && env.decode(snapshot.value.cv.base64).Some? then
      var bytes := env.decode(snapshot.value.cv.base64).value;
      [Put(env.hash(bytes), bytes, expiresAt)]
    else []
  }

  /** The payload of an arm that a new one replaces. */
  function Replaced(live: Arms, tab: nat): seq<string> {
    if tab in live && live[tab].snapshot.Some? && live[tab].snapshot.value.cv.FileReference?
    then [live[tab].snapshot.value.cv.payloadId] else []
  }

  function PlanArm(env: Env, w: World, url: string, now: int, tab: nat, snapshot: Option<FillSnapshot>): Plan {
    if snapshot.Some? && StoredForm(env, snapshot.value).None? then Plan([], None, NoTail, Rejected) else
    var live := RemoveExpired(w.arms, now);
    var stored := if snapshot.None? then None else StoredForm(env, snapshot.value);
    var next := live[tab := StoredEntry(env.normalize(url), now + env.ttl, tab, stored)];
    Plan(Puts(env, snapshot, now + env.ttl), Some(SetArms(next)),
         Tidying(next, Released(w.arms, now) + Replaced(live, tab), now), Done)
  }

  function PlanRemoval(w: World, tab: nat, now: int, answer: Answer): Plan
    requires tab in w.arms
  {
    var next := w.arms - {tab};
    Plan([], Some(SetArms(next)), Tidying(next, EntryPayloadIds(w.arms[tab]), now), answer)
  }

  function PlanConsume(env: Env, w: World, url: string, now: int, tab: nat): Plan {
    if tab !in w.arms || w.arms[tab].url != env.normalize(url) then Plan([], None, NoTail, Found(None))
    else if now >= w.arms[tab].expiresAt then PlanRemoval(w, tab, now, Found(None))
    else PlanRemoval(w, tab, now, Found(Some(Materialize(env, w.payloads, w.arms[tab]))))
  }

  function PlanPeek(env: Env, w: World, url: string, now: int, tab: nat): Plan {
    if tab !in w.arms || w.arms[tab].url != env.normalize(url) then Plan([], None, NoTail, Found(None))
    else if now >= w.arms[tab].expiresAt then PlanRemoval(w, tab, now, Found(None))
    else Plan([], None, Rearming(w.arms), Found(Some(Materialize(env, w.payloads, w.arms[tab]))))
  }

  function PlanSweep(w: World, now: int): Plan {
    var next := RemoveExpired(w.arms, now);
    Plan([], Some(SetArms(next)), Tidying(next, Released(w.arms, now), now), Done)
  }

  function PlanClearTab(w: World, tab: nat): Plan {
    var next := w.arms - {tab};
    var released := if tab in w.arms then EntryPayloadIds(w.arms[tab]) else [];
    Plan([], Some(SetArms(next)), Dropping(next, released), Done)
  }

  function PlanClearAll(w: World, now: int): Plan {
    Plan([], Some(RemoveArms), Emptying(now, IdsOf(w.arms, Ascending(w.arms.Keys))), Done)
  }

  function PlanOf(env: Env, w: World, call: Call): Plan {
    match call
    case Arm(url, now, tab, snapshot) => PlanArm(env, w, url, now, tab, snapshot)
    case Consume(url, now, tab) => PlanConsume(env, w, url, now, tab)
    case Peek(url, now, tab) => PlanPeek(env, w, url, now, tab)
    case Sweep(now) => PlanSweep(w, now)
    case ClearTab(tab) => PlanClearTab(w, tab)
    case ClearAll(now) => PlanClearAll(w, now)
  }

  // ---- facts about the helpers ----

  /** The alarm is the earliest stored expiry. */
  ghost predicate IsMinExpiry(arms: Arms, at: Option<int>) {
    && (at.None? <==> arms == map[])
    && (at.Some? ==> (exists tab :: tab in arms && arms[tab].expiresAt == at.value))
    && (at.Some? ==> forall tab :: tab in arms ==> at.value <= arms[tab].expiresAt)
  }

  lemma {:induction false} MinExpiryBounds(arms: Arms, tabs: seq<nat>)
    requires forall tab :: tab in tabs ==> tab in arms
    ensures var at := MinExpiryOf(arms, tabs);
      && (at.None? <==> tabs == [])
      && (at.Some? ==> exists tab :: tab in tabs && arms[tab].expiresAt == at.value)
      && (at.Some? ==> forall tab :: tab in tabs ==> at.value <= arms[tab].expiresAt)
  {
    if tabs != [] {
      var front, last := tabs[..|tabs| - 1], tabs[|tabs| - 1];
      MinExpiryBounds(arms, front);
      assert forall tab :: tab in tabs <==> tab in front || tab == last;
    }
  }

  lemma AlarmIsMinExpiry(w: World, arms: Arms)
    ensures var w' := Apply(w, AlarmEffect(arms));
      IsMinExpiry(arms, w'.alarm) && w'.arms == w.arms && w'.payloads == w.payloads
  {
    MinExpiryBounds(arms, Ascending(arms.Keys));
  }

  lemma {:induction false} DeletesOnly(ids: seq<string>, keep: set<string>)
    ensures forall e :: e in Deletes(ids, keep) ==> e.DeletePayload? && e.id !in keep && e.id in ids
  {
    if ids != [] {
      DeletesOnly(ids[..|ids| - 1], keep);
    }
  }
}
