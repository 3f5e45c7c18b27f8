/** The in-memory arming store of extension/src/arming.ts: the storage-state model
    that the durable store has to agree with. */
module InMemoryArming {
  import opened Options

  /** CV slot of a snapshot: absent, explicitly null, or a base64 file. */
  datatype Cv = NoCv | NullCv | CvFile(name: string, kind: string, base64: string)

  datatype FillSnapshot = FillSnapshot(profile: string, cv: Cv)

  datatype ArmedEntry = ArmedEntry(url: string, expiresAt: int, tabId: Option<nat>, snapshot: Option<FillSnapshot>)

  datatype Key = UrlKey(url: string) | TabKey(tab: nat)

  type Armed = map<Key, ArmedEntry>

  function KeyOf(normalize: string -> string, url: string, tabId: Option<nat>): Key {
    if tabId.None? then UrlKey(normalize(url)) else TabKey(tabId.value)
  }

  function NewEntry(normalize: string -> string, ttl: int, url: string, now: int, tabId: Option<nat>,
                    snapshot: Option<FillSnapshot>): ArmedEntry {
    ArmedEntry(normalize(url), now + ttl, tabId, snapshot)
  }

  /** The arm that a lookup of `url` finds, whatever its expiry. */
  ghost predicate Matches(armed: Armed, normalize: string -> string, url: string, tabId: Option<nat>) {
    var key := KeyOf(normalize, normalize(url), tabId);
    key in armed && armed[key].url == normalize(url)
  }

  ghost function Lookup(armed: Armed, normalize: string -> string, url: string, now: int, tabId: Option<nat>)
    : Option<ArmedEntry>
  {
    if Matches(armed, normalize, url, tabId) && now < armed[KeyOf(normalize, normalize(url), tabId)].expiresAt
    then Some(armed[KeyOf(normalize, normalize(url), tabId)])
    else None
  }

  ghost function WithoutMatch(armed: Armed, normalize: string -> string, url: string, tabId: Option<nat>): Armed {
    if Matches(armed, normalize, url, tabId) then armed - {KeyOf(normalize, normalize(url), tabId)} else armed
  }

  ghost function Unexpired(armed: Armed, now: int): Armed {
    map key | key in armed && now < armed[key].expiresAt :: armed[key]
  }

  ghost function OutsideTab(armed: Armed, tab: nat): Armed {
    map key | key in armed && armed[key].tabId != Some(tab) :: armed[key]
  }

  class ArmingStore {
    var armed: Armed
    const ttl: int
    const normalize: string -> string

    constructor (ttl: int, normalize: string -> string)
      ensures armed == map[] && this.ttl == ttl && this.normalize == normalize
    {
      this.ttl := ttl;
      this.normalize := normalize;
      armed := map[];
    }

    method Arm(url: string, now: int, tabId: Option<nat>, snapshot: Option<FillSnapshot>)
      modifies this`armed
      ensures armed == old(armed)[KeyOf(normalize, url, tabId) := NewEntry(normalize, ttl, url, now, tabId, snapshot)]
    {
      armed := armed[KeyOf(normalize, url, tabId) := ArmedEntry(normalize(url), now + ttl, tabId, snapshot)];
    }

    /** A match is dropped whether it is live (the one-shot rule) or expired; only a live one is returned. */
    method ConsumeEntry(url: string, now: int, tabId: Option<nat>) returns (entry: Option<ArmedEntry>)
      modifies this`armed
      ensures entry == Lookup(old(armed), normalize, url, now, tabId)
      ensures armed == WithoutMatch(old(armed), normalize, url, tabId)
    {
      var wanted := normalize(url);
      var key := KeyOf(normalize, wanted, tabId);
      if key !in armed {
        return None;
      }
      var found := armed[key];
      if found.url != wanted {
        return None;
      }
      if now >= found.expiresAt {
        armed := armed - {key};
        return None;
      }
      armed := armed - {key};
      return Some(found);
    }

    method Peek(url: string, now: int, tabId: Option<nat>) returns (entry: Option<ArmedEntry>)
      modifies this`armed
      ensures entry == Lookup(old(armed), normalize, url, now, tabId)
      ensures armed == if entry.Some? then old(armed) else WithoutMatch(old(armed), normalize, url, tabId)
    {
      var wanted := normalize(url);
      var key := KeyOf(normalize, wanted, tabId);
      if key !in armed || armed[key].url != wanted {
        return None;
      }
      if now >= armed[key].expiresAt {
        armed := armed - {key};
        return None;
      }
      return Some(armed[key]);
    }

    method Sweep(now: int)
      modifies this`armed
      ensures armed == Unexpired(old(armed), now)
    {
      var visited := armed;
      var rest := armed.Keys;
      while rest != {}
        invariant rest <= visited.Keys
        invariant armed == map key | key in visited && (key in rest || now < visited[key].expiresAt) :: visited[key]
        decreases |rest|
      {
        var key :| key in rest;
        if now >= armed[key].expiresAt {
          armed := armed - {key};
        }
        rest := rest - {key};
      }
    }

    method Clear(tabId: Option<nat>)
      modifies this`armed
      ensures armed == if tabId.None? then map[] else OutsideTab(old(armed), tabId.value)
    {
      if tabId.None? {
        armed := map[];
        return;
      }
      var visited := armed;
      var rest := armed.Keys;
      while rest != {}
        invariant rest <= visited.Keys
        invariant armed == map key | key in visited && (key in rest || visited[key].tabId != tabId) :: visited[key]
        decreases |rest|
      {
        var key :| key in rest;
        if armed[key].tabId == tabId {
          armed := armed - {key};
        }
        rest := rest - {key};
      }
    }
  }
}
