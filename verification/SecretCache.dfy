// The TTL cache in front of an external secret store (CachingSecretStore,
// gateway/secret_store.py). Times are seconds of the monotonic clock.
module SecretCache {
  import opened Wrappers

  datatype Cached = Cached(text: string, expiresAt: real)

  datatype State = State(cache: map<string, Cached>, contents: map<string, string>)

  /** One call; now is when it reads the clock, ref of a put is what the inner store hands out. */
  datatype Call =
    | Get(ref: string, now: real)
    | Put(text: string, ref: string, now: real)
    | Delete(ref: string)
    | Invalidate(ref: string)

  datatype Reply = Text(text: string) | Missing | Done

  predicate Coherent(s: State, max: nat) {
    && |s.cache| <= max
    && forall r :: r in s.cache ==> r in s.contents && s.cache[r].text == s.contents[r]
  }

  predicate Hit(cache: map<string, Cached>, ref: string, now: real) {
    ref in cache && cache[ref].expiresAt > now
  }

  /**
   * What _store may leave: the new entry, and no other entry that was not there; below the
   * limit nothing goes, at it every expired entry goes, and a live one only if that was not
   * enough.
   */
  predicate Stored(before: map<string, Cached>, after: map<string, Cached>, ref: string, entry: Cached, now: real, max: nat) {
    && ref in after && after[ref] == entry && |after| <= max
    && (forall k :: k in after && k != ref ==> k in before && after[k] == before[k])
    && (|before| < max ==> after == before[ref := entry])
    && (|before| >= max ==> forall k :: k in after && k != ref ==> before[k].expiresAt > now)
    && ((exists k :: k in before && k !in after && before[k].expiresAt > now) ==>
          |before| >= max && max <= |Live(before, now)| && |after| >= max - 1)
  }

  function Live(cache: map<string, Cached>, now: real): set<string> {
    set k | k in cache && cache[k].expiresAt > now
  }

  /** What is left when every expired entry is dropped. */
  function Unexpired(cache: map<string, Cached>, now: real): (r: map<string, Cached>)
    ensures r.Keys == Live(cache, now) && forall k :: k in r ==> r[k] == cache[k]
  {
    cache - set k | k in cache && cache[k].expiresAt <= now
  }

  predicate Step(s: State, call: Call, t: State, reply: Reply, ttl: real, max: nat) {
    match call
    case Get(ref, now) =>
      if Hit(s.cache, ref, now) then t == s && reply == Text(s.cache[ref].text)
      else if ref in s.contents then
        t.contents == s.contents && reply == Text(s.contents[ref]) &&
        Stored(s.cache, t.cache, ref, Cached(s.contents[ref], now + ttl), now, max)
      else t == s && reply == Missing
    case Put(text, ref, now) =>
      && ref !in s.contents && t.contents == s.contents[ref := text] && reply == Text(ref)
      && Stored(s.cache, t.cache, ref, Cached(text, now + ttl), now, max)
    case Delete(ref) => t == State(s.cache - {ref}, s.contents - {ref}) && reply == Done
    case Invalidate(ref) => t == s.(cache := s.cache - {ref}) && reply == Done
  }

  /** The inner store: references are handed out once and never rewritten. */
  class InnerStore {
    var contents: map<string, string>

    constructor ()
      ensures contents == map[]
    {
      contents := map[];
    }

    method Get(ref: string) returns (r: Option<string>)
      ensures r == if ref in contents then Some(contents[ref]) else None
    {
      r := if ref in contents then Some(contents[ref]) else None;
    }

    method Put(text: string, ref: string)
      requires ref !in contents
      modifies this
      ensures contents == old(contents)[ref := text]
    {
      contents := contents[ref := text];
    }

    method Delete(ref: string)
      modifies this
      ensures contents == old(contents) - {ref}
    {
      contents := contents - {ref};
    }
  }

  class CachingSecretStore {
    const inner: InnerStore
    const ttl: real
    const max: nat
    var cache: map<string, Cached>

    ghost predicate Valid()
      reads this, inner
    {
      max >= 1 && Coherent(Now(), max)
    }

    ghost function Now(): State
      reads this, inner
    {
      State(cache, inner.contents)
    }

    constructor (store: InnerStore, seconds: real, maxEntries: nat)
      requires maxEntries >= 1
      ensures Valid() && inner == store && ttl == seconds && max == maxEntries && cache == map[]
    {
      inner, ttl, max, cache := store, seconds, maxEntries, map[];
    }

    function Fresh(ref: string, now: real): (r: Option<string>)
      reads this
      ensures r.Some? <==> Hit(cache, ref, now)
    {
      if Hit(cache, ref, now) then Some(cache[ref].text) else None
    }

    /** _store: expired entries go first, then arbitrary ones. */
    method Store(ref: string, text: string, now: real)
      requires max >= 1
      modifies this`cache
      ensures Stored(old(cache), cache, ref, Cached(text, now + ttl), now, max)
    {
      if |cache| >= max {
        ghost var live := Live(cache, now);
        cache := Unexpired(cache, now);
        while |cache| >= max
          invariant cache.Keys <= live && forall k :: k in cache ==> cache[k] == old(cache)[k]
          invariant cache.Keys != live ==> max <= |live| && |cache| >= max - 1
          decreases |cache|
        {
          var k :| k in cache;
          Removal(cache, k);
          cache := cache - {k};
        }
      }
      Insertion(cache, ref, Cached(text, now + ttl));
      cache := cache[ref := Cached(text, now + ttl)];
    }

    /** get: while it waits for the lock other calls may leave the cache as waited. */
    method Get(ref: string, first: real, waited: map<string, Cached>, now: real) returns (r: Reply)
      requires Valid() && Coherent(State(waited, inner.contents), max)
      modifies this`cache
      ensures Valid() && inner.contents == old(inner.contents)
      ensures if Hit(old(cache), ref, first) then Step(old(Now()), Call.Get(ref, first), Now(), r, ttl, max)
              else Step(State(waited, inner.contents), Call.Get(ref, now), Now(), r, ttl, max)
    {
      var cached := Fresh(ref, first);
      if cached.Some? {
        return Text(cached.value);
      }
      cache := waited;
      cached := Fresh(ref, now);
      if cached.Some? {
        return Text(cached.value);
      }
      var value := inner.Get(ref);
      if value == None {
        return Missing;
      }
      Store(ref, value.value, now);
      r := Text(value.value);
    }

    method Put(text: string, ref: string, now: real) returns (r: Reply)
      requires Valid() && ref !in inner.contents
      modifies this`cache, inner
      ensures Valid() && Step(old(Now()), Call.Put(text, ref, now), Now(), r, ttl, max)
    {
      inner.Put(text, ref);
      Store(ref, text, now);
      r := Text(ref);
    }

    method Delete(ref: string) returns (r: Reply)
      requires Valid()
      modifies this`cache, inner
      ensures Valid() && Step(old(Now()), Call.Delete(ref), Now(), r, ttl, max)
    {
      Removed(cache, ref);
      cache := cache - {ref};
      inner.Delete(ref);
      r := Done;
    }

    method Invalidate(ref: string) returns (r: Reply)
      requires Valid()
      modifies this`cache
      ensures Valid() && Step(old(Now()), Call.Invalidate(ref), Now(), r, ttl, max)
    {
      Removed(cache, ref);
      cache := cache - {ref};
      r := Done;
    }
  }

  lemma Removal(m: map<string, Cached>, k: string)
    requires k in m
    ensures |m - {k}| == |m| - 1
  {
    assert (m - {k}).Keys == m.Keys - {k};
    assert |m| == |m.Keys| && |m - {k}| == |(m - {k}).Keys|;
  }

  lemma Removed(m: map<string, Cached>, k: string)
    ensures |m - {k}| <= |m|
  {
    if k in m {
      Removal(m, k);
    } else {
      assert m - {k} == m;
    }
  }

  lemma Insertion(m: map<string, Cached>, k: string, v: Cached)
    ensures |m[k := v]| <= |m| + 1
  {
    assert m[k := v].Keys == m.Keys + {k};
    assert |m| == |m.Keys| && |m[k := v]| == |m[k := v].Keys|;
  }

  // ----- refinement -----

  /** The store without a cache. */
  function PlainContents(contents: map<string, string>, call: Call): map<string, string> {
    match call
    case Put(text, ref, _) => contents[ref := text]
    case Delete(ref) => contents - {ref}
    case _ => contents
  }

  function PlainReply(contents: map<string, string>, call: Call): Reply {
    match call
    case Get(ref, _) => if ref in contents then Text(contents[ref]) else Missing
    case Put(_, ref, _) => Text(ref)
    case _ => Done
  }

  function PlainRun(contents: map<string, string>, calls: seq<Call>): seq<Reply>
    decreases |calls|
  {
    if calls == [] then []
    else [PlainReply(contents, calls[0])] + PlainRun(PlainContents(contents, calls[0]), calls[1..])
  }

  /** A serial run of the cached store, through any expiry and any evictions. */
  ghost predicate Run(s: State, calls: seq<Call>, replies: seq<Reply>, end: State, ttl: real, max: nat)
    decreases |calls|
  {
    if calls == [] then replies == [] && end == s
    else replies != [] && exists t ::
      Step(s, calls[0], t, replies[0], ttl, max) && Run(t, calls[1..], replies[1..], end, ttl, max)
  }

  lemma StepRefines(s: State, call: Call, t: State, reply: Reply, ttl: real, max: nat)
    requires Coherent(s, max) && Step(s, call, t, reply, ttl, max)
    ensures Refined(s, call, t, reply, max)
  {
    hide Step, Coherent, Refined;
    match call {
      case Get(ref, now) => GetRefines(s, ref, now, t, reply, ttl, max);
      case Put(text, ref, now) => PutRefines(s, text, ref, now, t, reply, ttl, max);
      case Delete(ref) => DropRefines(s, call, ref, t, reply, ttl, max);
      case Invalidate(ref) => DropRefines(s, call, ref, t, reply, ttl, max);
    }
  }

  /** A coherent cache, the inner store as the plain one would be, and its answer. */
  predicate Refined(s: State, call: Call, t: State, reply: Reply, max: nat) {
    Coherent(t, max) && t.contents == PlainContents(s.contents, call) && reply == PlainReply(s.contents, call)
  }

  lemma GetRefines(s: State, ref: string, now: real, t: State, reply: Reply, ttl: real, max: nat)
    requires Coherent(s, max) && Step(s, Get(ref, now), t, reply, ttl, max)
    ensures Refined(s, Get(ref, now), t, reply, max)
  {
    hide Stored, Coherent, Hit;
    if ref in s.contents && !Hit(s.cache, ref, now) {
      StoredKeepsCoherent(s, t.cache, ref, s.contents[ref], now + ttl, now, max);
      assert t == State(t.cache, s.contents);
    } else {
      HitIsRight(s, ref, now, max);
    }
  }

  lemma PutRefines(s: State, text: string, ref: string, now: real, t: State, reply: Reply, ttl: real, max: nat)
    requires Coherent(s, max) && Step(s, Put(text, ref, now), t, reply, ttl, max)
    ensures Refined(s, Put(text, ref, now), t, reply, max)
  {
    hide Stored, Coherent;
    MoreContents(s, ref, text, max);
    var mid := s.(contents := t.contents);
    StoredKeepsCoherent(mid, t.cache, ref, text, now + ttl, now, max);
    assert t == State(t.cache, mid.contents);
  }

  lemma DropRefines(s: State, call: Call, ref: string, t: State, reply: Reply, ttl: real, max: nat)
    requires Coherent(s, max) && Step(s, call, t, reply, ttl, max) && (call == Delete(ref) || call == Invalidate(ref))
    ensures Refined(s, call, t, reply, max)
  {
    hide Coherent;
    RemovalKeepsCoherent(s, ref, max);
  }

  lemma HitIsRight(s: State, ref: string, now: real, max: nat)
    requires Coherent(s, max)
    ensures Hit(s.cache, ref, now) ==> ref in s.contents && s.cache[ref].text == s.contents[ref]
  {
  }

  lemma MoreContents(s: State, ref: string, text: string, max: nat)
    requires Coherent(s, max) && ref !in s.contents
    ensures Coherent(s.(contents := s.contents[ref := text]), max)
  {
  }

  lemma RemovalKeepsCoherent(s: State, ref: string, max: nat)
    requires Coherent(s, max)
    ensures Coherent(State(s.cache - {ref}, s.contents - {ref}), max) && Coherent(s.(cache := s.cache - {ref}), max)
  {
    Removed(s.cache, ref);
  }

  lemma StoredKeepsCoherent(s: State, after: map<string, Cached>, ref: string, text: string, expiresAt: real, now: real, max: nat)
    requires Coherent(s, max) && ref in s.contents && s.contents[ref] == text
    requires Stored(s.cache, after, ref, Cached(text, expiresAt), now, max)
    ensures Coherent(State(after, s.contents), max)
  {
  }

  /** Every run answers as the plain store would, and never holds more than max entries. */
  lemma {:induction false} CacheRefinesStore(s: State, calls: seq<Call>, replies: seq<Reply>, end: State, ttl: real, max: nat)
    requires Coherent(s, max) && Run(s, calls, replies, end, ttl, max)
    ensures replies == PlainRun(s.contents, calls) && Coherent(end, max)
    decreases |calls|
  {
    hide Coherent, Step;
    if calls == [] {
    } else {
      var t :| Step(s, calls[0], t, replies[0], ttl, max) && Run(t, calls[1..], replies[1..], end, ttl, max);
      StepRefines(s, calls[0], t, replies[0], ttl, max);
      CacheRefinesStore(t, calls[1..], replies[1..], end, ttl, max);
      assert replies == [replies[0]] + replies[1..];
    }
  }

  /** A hit answers from the cache alone, so it can be expired only by its deadline, eviction or removal. */
  lemma HitNeedsNoStore(s: State, ref: string, now: real, t: State, reply: Reply, ttl: real, max: nat)
    requires Coherent(s, max) && Step(s, Get(ref, now), t, reply, ttl, max) && reply != Missing && ttl > 0.0
    ensures Hit(t.cache, ref, now) && forall later, u, r ::
      later < t.cache[ref].expiresAt && Step(t, Get(ref, later), u, r, ttl, max) ==> u == t && r == reply
  {
  }

  // ----- how old an answer can be -----

  function Ref(call: Call): string {
    match call case Get(ref, _) => ref case Put(_, ref, _) => ref case Delete(ref) => ref case Invalidate(ref) => ref
  }

  /** A call that reads the reference from the store, or puts it there. */
  predicate Fetches(call: Call, ref: string, at: real) {
    (call.Get? || call.Put?) && Ref(call) == ref && call.now == at
  }

  /** Each entry dates from a call on its own reference, and is good for ttl from then. */
  ghost predicate Dated(cache: map<string, Cached>, past: seq<Call>, ttl: real) {
    forall r :: r in cache ==> DatedEntry(cache[r], r, past, ttl)
  }

  ghost predicate DatedEntry(entry: Cached, ref: string, past: seq<Call>, ttl: real) {
    exists i :: 0 <= i < |past| && Fetches(past[i], ref, entry.expiresAt - ttl)
  }

  lemma StillDated(entry: Cached, ref: string, past: seq<Call>, call: Call, ttl: real)
    requires DatedEntry(entry, ref, past, ttl) || Fetches(call, ref, entry.expiresAt - ttl)
    ensures DatedEntry(entry, ref, past + [call], ttl)
  {
    hide Fetches;
    if i :| 0 <= i < |past| && Fetches(past[i], ref, entry.expiresAt - ttl) {
      assert (past + [call])[i] == past[i];
    } else {
      assert (past + [call])[|past|] == call;
    }
  }

  lemma StepDates(s: State, call: Call, t: State, reply: Reply, past: seq<Call>, ttl: real, max: nat)
    requires Step(s, call, t, reply, ttl, max) && Dated(s.cache, past, ttl)
    ensures Dated(t.cache, past + [call], ttl)
  {
    hide DatedEntry;
    forall r | r in t.cache ensures DatedEntry(t.cache[r], r, past + [call], ttl) {
      assert (r in s.cache && t.cache[r] == s.cache[r]) || Fetches(call, r, t.cache[r].expiresAt - ttl);
      StillDated(t.cache[r], r, past, call, ttl);
    }
  }

  lemma {:induction false} RunDates(s: State, calls: seq<Call>, replies: seq<Reply>, end: State, past: seq<Call>, ttl: real, max: nat)
    requires Run(s, calls, replies, end, ttl, max) && Dated(s.cache, past, ttl)
    ensures Dated(end.cache, past + calls, ttl)
    decreases |calls|
  {
    hide Step, Dated;
    if calls == [] {
      assert past + calls == past;
    } else {
      var t :| Step(s, calls[0], t, replies[0], ttl, max) && Run(t, calls[1..], replies[1..], end, ttl, max);
      StepDates(s, calls[0], t, replies[0], past, ttl, max);
      RunDates(t, calls[1..], replies[1..], end, past + [calls[0]], ttl, max);
      assert past + [calls[0]] + calls[1..] == past + calls;
    }
  }

  /**
   * After every serial run from an empty cache: an answer that leaves the store unread dates from a
   * call on the same reference less than ttl ago; otherwise the store is read again.
   */
  lemma HitIsRecent(contents: map<string, string>, calls: seq<Call>, replies: seq<Reply>, end: State, ttl: real, max: nat,
                    ref: string, now: real)
    requires Run(State(map[], contents), calls, replies, end, ttl, max)
    ensures Hit(end.cache, ref, now) ==> exists i, at :: 0 <= i < |calls| && Fetches(calls[i], ref, at) && now < at + ttl
    ensures !Hit(end.cache, ref, now) ==> forall t, reply :: Step(end, Get(ref, now), t, reply, ttl, max) ==>
              && t.contents == end.contents
              && if ref in end.contents then reply == Text(end.contents[ref]) && t.cache[ref] == Cached(end.contents[ref], now + ttl)
                 else reply == Missing
  {
    hide Run, Stored;
    RunDates(State(map[], contents), calls, replies, end, [], ttl, max);
    assert [] + calls == calls;
    if Hit(end.cache, ref, now) {
      assert DatedEntry(end.cache[ref], ref, calls, ttl);
    }
    forall t, reply | !Hit(end.cache, ref, now) && Step(end, Get(ref, now), t, reply, ttl, max) && ref in end.contents
      ensures ref in t.cache && t.cache[ref] == Cached(end.contents[ref], now + ttl)
    {
      StoredEntry(end.cache, t.cache, ref, Cached(end.contents[ref], now + ttl), now, max);
    }
  }

  lemma StoredEntry(before: map<string, Cached>, after: map<string, Cached>, ref: string, entry: Cached, now: real, max: nat)
    requires Stored(before, after, ref, entry, now, max)
    ensures ref in after && after[ref] == entry
  {
  }
}
