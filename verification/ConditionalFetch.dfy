/** The conditional-request cache of backend/internal/ingest/conditionalfetch.go. */
module ConditionalFetch {
  import opened Options

  datatype Fields = Fields(source: string, sourceUrl: string, title: string, company: string, location: string,
                           salaryText: string, remote: bool)

  /** A raw listing; Requirements is a Go slice, shared by everyone who holds the listing. */
  datatype RawJob = RawJob(fields: Fields, requirements: array?<string>)

  /** Its contents. */
  datatype Listing = Listing(fields: Fields, requirements: Option<seq<string>>)

  const MAX_FETCH_BODY := 16 * 1024 * 1024

  ghost function Arrays(jobs: seq<RawJob>): set<object> {
    set i | 0 <= i < |jobs| && jobs[i].requirements != null :: jobs[i].requirements as object
  }

  ghost function ContentsOf(job: RawJob): Listing
    reads job.requirements
  {
    Listing(job.fields, if job.requirements == null then None else Some(job.requirements[..]))
  }

  ghost function Contents(jobs: seq<RawJob>): (r: seq<Listing>)
    reads Arrays(jobs)
    ensures |r| == |jobs| && forall i :: 0 <= i < |jobs| ==> r[i] == ContentsOf(jobs[i])
  {
    seq(|jobs|, i requires 0 <= i < |jobs| reads Arrays(jobs) => ContentsOf(jobs[i]))
  }

  /** Any status but 200 and 304, which the code treats on their own. */
  type OtherCode = c: int | c != 200 && c != 304 witness 500

  datatype Response =
    | TransportError
    | NotModified
    | OK(body: Option<string>, etag: string, lastModified: string)   // None: the body cannot be read
    | OtherStatus(code: OtherCode)

  /** What the store knows about its source. */
  datatype Cache = Cache(etag: string, lastModified: string, listings: Option<seq<Listing>>)

  const NO_CACHE := Cache("", "", None)

  type Decoder = string -> Option<seq<Listing>>

  /** The reader stops after the maximal body length. */
  function Limited(body: string): (r: string)
    ensures r <= body && |r| <= 16_777_216
    ensures (|body| <= 16_777_216 ==> r == body) && (|body| > 16_777_216 ==> |r| == 16_777_216)
  {
    if |body| <= MAX_FETCH_BODY then body else body[..MAX_FETCH_BODY]
  }

  /** A fetch by values: the next cache and the listings, None for an error. */
  function FetchStep(cache: Cache, decode: Decoder, builds: bool, respond: (string, string) -> Response)
    : (Cache, Option<seq<Listing>>)
  {
    if !builds then (cache, None) else
    match respond(cache.etag, cache.lastModified)
    case TransportError => (cache, None)
    case NotModified => (cache, cache.listings)
    case OtherStatus(_) => (cache, None)
    case OK(body, etag, lastModified) =>
      if body.None? then (cache, None) else
      var listings := decode(Limited(body.value));
      if listings.None? then (cache, None) else (Cache(etag, lastModified, listings), listings)
  }

  /** Copies every Requirements slice. */
  method CloneRawJobs(jobs: seq<RawJob>) returns (copies: seq<RawJob>)
    ensures Contents(copies) == Contents(jobs)
    ensures fresh(Arrays(copies))
  {
    copies := [];
    for i := 0 to |jobs|
      invariant |copies| == i
      invariant forall k :: 0 <= k < i && copies[k].requirements != null ==> fresh(copies[k].requirements)
      invariant forall k :: 0 <= k < i ==> ContentsOf(copies[k]) == ContentsOf(jobs[k])
    {
      var copy := jobs[i];
      if jobs[i].requirements != null {
        var source := jobs[i].requirements;
        var reqs := new string[source.Length](k requires 0 <= k < source.Length reads source => source[k]);
        assert reqs[..] == source[..];
        copy := RawJob(jobs[i].fields, reqs);
      }
      copies := copies + [copy];
    }
  }

  /** A decoder's output is new. */
  method Allocate(listings: seq<Listing>) returns (jobs: seq<RawJob>)
    ensures Contents(jobs) == listings
    ensures fresh(Arrays(jobs))
  {
    jobs := [];
    for i := 0 to |listings|
      invariant |jobs| == i
      invariant forall k :: 0 <= k < i && jobs[k].requirements != null ==> fresh(jobs[k].requirements)
      invariant forall k :: 0 <= k < i ==> ContentsOf(jobs[k]) == listings[k]
    {
      var job := RawJob(listings[i].fields, null);
      if listings[i].requirements.Some? {
        var source := listings[i].requirements.value;
        var reqs := new string[|source|](k requires 0 <= k < |source| => source[k]);
        assert reqs[..] == source;
        job := RawJob(listings[i].fields, reqs);
      }
      jobs := jobs + [job];
    }
  }

  class ConditionalStore {
    var etag: string
    var lastModified: string
    var cached: seq<RawJob>
    var hasCache: bool

    ghost function Snapshot(): Cache
      reads this, Arrays(cached)
    {
      Cache(etag, lastModified, if hasCache then Some(Contents(cached)) else None)
    }

    constructor ()
      ensures Snapshot() == NO_CACHE && Arrays(cached) == {}
    {
      etag, lastModified, cached, hasCache := "", "", [], false;
    }

    /** The end of a fetch that was answered with a body: the cache gets copies. */
    method Remember(listings: seq<Listing>, newEtag: string, newLastModified: string) returns (decoded: seq<RawJob>)
      modifies this
      ensures Snapshot() == Cache(newEtag, newLastModified, Some(listings)) && Contents(decoded) == listings
      ensures fresh(Arrays(decoded)) && fresh(Arrays(cached)) && Arrays(decoded) !! Arrays(cached)
    {
      decoded := Allocate(listings);
      var copies := CloneRawJobs(decoded);
      etag := newEtag;
      lastModified := newLastModified;
      cached := copies;
      hasCache := true;
    }

    /** The listings that are handed out share no slice with the cache, and the cache holds only slices
        that nobody outside ever had. */
    method Fetch(decode: Decoder, builds: bool, respond: (string, string) -> Response) returns (jobs: Option<seq<RawJob>>)
      modifies this
      ensures Snapshot() == FetchStep(old(Snapshot()), decode, builds, respond).0
      ensures jobs.Some? <==> FetchStep(old(Snapshot()), decode, builds, respond).1.Some?
      ensures jobs.Some? ==> Contents(jobs.value) == FetchStep(old(Snapshot()), decode, builds, respond).1.value
      ensures jobs.Some? ==> fresh(Arrays(jobs.value)) && Arrays(jobs.value) !! Arrays(cached)
      ensures fresh(Arrays(cached) - old(Arrays(cached)))
    {
      if !builds {
        return None;
      }
      var response := respond(etag, lastModified);
      match response {
        case TransportError => return None;
        case NotModified =>
          if !hasCache {
            return None;
          }
          var copies := CloneRawJobs(cached);
          assert Contents(cached) == old(Contents(cached)) by {
            assert forall i :: 0 <= i < |cached| ==> ContentsOf(cached[i]) == old(ContentsOf(cached[i]));
          }
          return Some(copies);
        case OK(body, newEtag, newLastModified) =>
          if body.None? {
            return None;
          }
          var listings := decode(Limited(body.value));
          if listings.None? {
            return None;
          }
          var decoded := Remember(listings.value, newEtag, newLastModified);
          return Some(decoded);
        case OtherStatus(_) => return None;
      }
    }
  }

  /** A caller may overwrite every requirement it was given: the next replay is unaffected. */
  method Scribble(store: ConditionalStore, jobs: seq<RawJob>, text: string)
    requires Arrays(jobs) !! Arrays(store.cached) + {store}
    modifies Arrays(jobs)
    ensures store.Snapshot() == old(store.Snapshot())
    ensures forall i :: 0 <= i < |jobs| && jobs[i].requirements != null ==>
      forall k :: 0 <= k < jobs[i].requirements.Length ==> jobs[i].requirements[k] == text
  {
    for i := 0 to |jobs|
      invariant store.Snapshot() == old(store.Snapshot())
      invariant forall h :: 0 <= h < i && jobs[h].requirements != null ==>
        forall k :: 0 <= k < jobs[h].requirements.Length ==> jobs[h].requirements[k] == text
    {
      var reqs := jobs[i].requirements;
      if reqs != null {
        assert reqs in Arrays(jobs);
        for k := 0 to reqs.Length
          invariant store.Snapshot() == old(store.Snapshot())
          invariant forall l :: 0 <= l < k ==> reqs[l] == text
          invariant forall h :: 0 <= h < i && jobs[h].requirements != null ==>
            forall l :: 0 <= l < jobs[h].requirements.Length ==> jobs[h].requirements[l] == text
        {
          reqs[k] := text;
        }
      }
    }
  }

  // ---- an honest server ----

  datatype Version = Version(body: string, etag: string, lastModified: string)

  datatype Service = Unreachable | BadStatus(code: OtherCode) | BrokenBody | Serves

  /** One request: what the source holds, how the exchange goes, and whether the server makes use of a
      validator that it may answer 304 to. */
  datatype Exchange = Exchange(version: Version, builds: bool, service: Service, shortcut: bool)

  /** A sent validator labels the current representation. If-Modified-Since counts only without
      If-None-Match (section 13.1.3 of RFC 9110). */
  predicate LabelsCurrent(v: Version, etag: string, lastModified: string) {
    if etag != "" then v.etag == etag else lastModified != "" && v.lastModified == lastModified
  }

  /** A 304 is sent only for a label of the current representation (section 15.4.5 of RFC 9110). */
  function Respond(x: Exchange, etag: string, lastModified: string): Response {
    if x.service.Unreachable? then TransportError
    else if x.service.BadStatus? then OtherStatus(x.service.code)
    else if x.shortcut && LabelsCurrent(x.version, etag, lastModified) then NotModified
    else OK(if x.service.BrokenBody? then None else Some(x.version.body), x.version.etag, x.version.lastModified)
  }

  /** Validators label representations: two versions with a common one have the same body. */
  ghost predicate Labelled(xs: seq<Exchange>) {
    forall x, y :: x in xs && y in xs ==>
      (x.version.etag != "" && x.version.etag == y.version.etag ==> x.version.body == y.version.body) &&
      (x.version.lastModified != "" && x.version.lastModified == y.version.lastModified ==> x.version.body == y.version.body)
  }

  /** A fetch from this server. */
  function FetchFrom(cache: Cache, decode: Decoder, x: Exchange): (Cache, Option<seq<Listing>>) {
    FetchStep(cache, decode, x.builds, (e, l) => Respond(x, e, l))
  }

  function CacheAt(decode: Decoder, xs: seq<Exchange>, n: nat): Cache
    requires n <= |xs|
  {
    if n == 0 then NO_CACHE else FetchFrom(CacheAt(decode, xs, n - 1), decode, xs[n - 1]).0
  }

  function Fetched(decode: Decoder, xs: seq<Exchange>, i: nat): Option<seq<Listing>>
    requires i < |xs|
  {
    FetchFrom(CacheAt(decode, xs, i), decode, xs[i]).1
  }

  /** What a fetch without cache and validators brings: what the source holds, if it can be had and decoded. */
  function Unconditional(decode: Decoder, x: Exchange): Option<seq<Listing>> {
    if x.builds && x.service.Serves? then decode(Limited(x.version.body)) else None
  }

  /** The validators that request `n` carries: those of the last version that came with its body and could be
      decoded. */
  function Validators(decode: Decoder, xs: seq<Exchange>, n: nat): (string, string)
    requires n <= |xs|
    decreases n, 0
  {
    if n == 0 then ("", "") else
    if BringsBody(decode, xs, n - 1) then (xs[n - 1].version.etag, xs[n - 1].version.lastModified)
    else Validators(decode, xs, n - 1)
  }

  /** The request is made, the source can be reached and reports no error. */
  predicate Answered(x: Exchange) {
    x.builds && !x.service.Unreachable? && !x.service.BadStatus?
  }

  /** The answer is 304: a validator that was sent labels the current version, and the server makes use of it. */
  predicate IsReplayed(decode: Decoder, xs: seq<Exchange>, i: nat)
    requires i < |xs|
    decreases i, 1
  {
    var sent := Validators(decode, xs, i);
    Answered(xs[i]) && xs[i].shortcut && LabelsCurrent(xs[i].version, sent.0, sent.1)
  }

  predicate BringsBody(decode: Decoder, xs: seq<Exchange>, i: nat)
    requires i < |xs|
    decreases i, 2
  {
    xs[i].builds && xs[i].service.Serves? && !IsReplayed(decode, xs, i) && decode(Limited(xs[i].version.body)).Some?
  }

  /** The cache is what some earlier version decoded to, under that version's validators. */
  ghost predicate CameFrom(decode: Decoder, cache: Cache, xs: seq<Exchange>) {
    cache == NO_CACHE ||
    exists x :: x in xs && cache == Cache(x.version.etag, x.version.lastModified, decode(Limited(x.version.body)))
                && cache.listings.Some?
  }

  lemma {:induction false} CacheCameFrom(decode: Decoder, xs: seq<Exchange>, n: nat)
    requires n <= |xs|
    ensures CameFrom(decode, CacheAt(decode, xs, n), xs)
  {
    if n > 0 {
      CacheCameFrom(decode, xs, n - 1);
      assert xs[n - 1] in xs;
    }
  }

  lemma {:induction false} CacheHasValidators(decode: Decoder, xs: seq<Exchange>, n: nat)
    requires n <= |xs|
    ensures (CacheAt(decode, xs, n).etag, CacheAt(decode, xs, n).lastModified) == Validators(decode, xs, n)
  {
    if n > 0 {
      var x, cache, sent := xs[n - 1], CacheAt(decode, xs, n - 1), Validators(decode, xs, n - 1);
      CacheHasValidators(decode, xs, n - 1);
      assert IsReplayed(decode, xs, n - 1) <==> Answered(x) && Respond(x, cache.etag, cache.lastModified).NotModified?;
      assert Validators(decode, xs, n) ==
        if BringsBody(decode, xs, n - 1) then (x.version.etag, x.version.lastModified) else sent;
    }
  }

  lemma StepSucceedsExactly(cache: Cache, decode: Decoder, x: Exchange)
    requires cache == NO_CACHE || cache.listings.Some?
    ensures FetchFrom(cache, decode, x).1.Some? <==>
      Answered(x) &&
      ((x.shortcut && LabelsCurrent(x.version, cache.etag, cache.lastModified)) ||
       (x.service.Serves? && decode(Limited(x.version.body)).Some?))
  {
  }

  lemma StepBringsTheVersion(cache: Cache, decode: Decoder, x: Exchange, xs: seq<Exchange>)
    requires CameFrom(decode, cache, xs) && Labelled(xs) && x in xs
    ensures FetchFrom(cache, decode, x).1.Some? ==> FetchFrom(cache, decode, x).1 == decode(Limited(x.version.body))
  {
  }

  /** A fetch succeeds exactly if the source answers and either repeats by 304 what it labelled, or sends a body
      that can be read and decoded. It brings what the source holds at that moment. */
  lemma FetchSucceedsExactly(decode: Decoder, xs: seq<Exchange>, i: nat)
    requires i < |xs|
    ensures Fetched(decode, xs, i).Some? <==>
      Answered(xs[i]) &&
      (IsReplayed(decode, xs, i) || (xs[i].service.Serves? && decode(Limited(xs[i].version.body)).Some?))
    ensures Labelled(xs) && Fetched(decode, xs, i).Some? ==> Fetched(decode, xs, i) == decode(Limited(xs[i].version.body))
  {
    CacheCameFrom(decode, xs, i);
    CacheHasValidators(decode, xs, i);
    StepSucceedsExactly(CacheAt(decode, xs, i), decode, xs[i]);
    if Labelled(xs) {
      StepBringsTheVersion(CacheAt(decode, xs, i), decode, xs[i], xs);
    }
  }

  /** After a body that was decoded, the next request carries that version's validators. */
  lemma NextRequestCarriesValidators(decode: Decoder, xs: seq<Exchange>, i: nat)
    requires i < |xs| && BringsBody(decode, xs, i)
    ensures CacheAt(decode, xs, i + 1).etag == xs[i].version.etag
    ensures CacheAt(decode, xs, i + 1).lastModified == xs[i].version.lastModified
    ensures CacheAt(decode, xs, i + 1).listings == decode(Limited(xs[i].version.body))
  {
    CacheHasValidators(decode, xs, i);
    CacheHasValidators(decode, xs, i + 1);
  }

  /** Every successful fetch returns what the source holds at that moment, decoded; and whenever an
      unconditional fetch would succeed, the conditional one does, with the same listings. */
  lemma ReplayIsTransparent(decode: Decoder, xs: seq<Exchange>, i: nat)
    requires Labelled(xs) && i < |xs|
    ensures Fetched(decode, xs, i).Some? ==> Fetched(decode, xs, i) == decode(Limited(xs[i].version.body))
    ensures Unconditional(decode, xs[i]).Some? ==> Fetched(decode, xs, i) == Unconditional(decode, xs[i])
  {
    FetchSucceedsExactly(decode, xs, i);
  }

  /** The error "304 with no cached payload" does not occur. */
  lemma NotModifiedFindsACache(decode: Decoder, xs: seq<Exchange>, i: nat)
    requires i < |xs|
    requires var cache := CacheAt(decode, xs, i); Respond(xs[i], cache.etag, cache.lastModified).NotModified?
    ensures CacheAt(decode, xs, i).listings.Some?
  {
    CacheCameFrom(decode, xs, i);
  }
}
