/**
The cache of an OIDC issuer's keys.  An entry lives as long as its max-age; a key that is missing
from a live entry triggers a fetch, but not within a minute of the last one.

Times are milliseconds.  A call reads a clock that never goes back; what the endpoint answers, and
when, is an input.  What the endpoint answered each time it was asked is recorded, in order, in `asks`,
and every successful fetch in `log`.
*/
module Jwks {
  import opened Options

  type KeyId = string
  type Key = string

  const MIN_REFRESH_INTERVAL: nat := 60_000

  // What the cache holds: the keys, when they were fetched and when they expire.
  datatype Entry = Entry(keys: map<KeyId, Key>, at: nat, expires: nat)

  // What the endpoint answers: keys with a max-age in seconds, fetched at one time and stored at another.
  datatype Response = Response(keys: map<KeyId, Key>, maxAge: nat, fetchedAt: nat, storedAt: nat)

  // A successful fetch, and whether a missing key was what triggered it.
  datatype Fetch = Fetch(r: Response, missed: bool)

  // A call for a key: when the cache is read, the answer if that makes it fetch, when its age is
  // looked at, and the answer if that makes it fetch again.
  datatype Call = Call(keyId: KeyId, now: nat, first: Option<Response>, later: nat, second: Option<Response>)

  datatype Outcome = Threw | Found(key: Key) | Missing

  datatype Cache = Cache(entry: Option<Entry>, asks: seq<Option<Response>>, log: seq<Fetch>, clock: nat)

  const EMPTY := Cache(None, [], [], 0)

  function EntryOf(r: Response): Entry {
    Entry(r.keys, r.fetchedAt, r.storedAt + r.maxAge * 1000)
  }

  function Lookup(keys: map<KeyId, Key>, keyId: KeyId): Outcome {
    if keyId in keys then Found(keys[keyId]) else Missing
  }

  // ---------------------------------------------------------------- the fetcher

  class OidcJwksKeyFetcher {
    var entry: Option<Entry>
    var clock: nat
    ghost var asks: seq<Option<Response>>
    ghost var log: seq<Fetch>

    constructor ()
      ensures View() == EMPTY
    {
      entry, asks, log, clock := None, [], [], 0;
    }

    ghost function View(): Cache
      reads this
    {
      Cache(entry, asks, log, clock)
    }

    // The loading cache: what is there and has not expired, or else what the endpoint answers.
    method Get(now: nat, answer: Option<Response>, ghost missed: bool) returns (data: Option<Entry>)
      requires Base(View()) && clock <= now && Follows(now, answer)
      requires missed ==> log != [] && log[|log| - 1].r.fetchedAt + MIN_REFRESH_INTERVAL < now
      modifies this
      ensures Inv(View()) && (View(), data) == Loaded(old(View()), now, answer, missed)
      ensures asks == if old(entry).Some? && Fresh(old(View()), now) then old(asks) else old(asks) + [answer]
      ensures data.Some? <==> Last(View()).Some?
      ensures data.Some? ==> data.value.keys == Last(View()).value.keys && data.value.at == Last(View()).value.fetchedAt
    {
      LoadedKeeps(View(), now, answer, missed);
      clock := now;
      if entry.Some? && now < entry.value.expires {
        return entry;
      }
      asks := asks + [answer];
      if answer.None? {
        entry := None;
        return None;
      }
      entry := Some(EntryOf(answer.value));
      log := log + [Fetch(answer.value, missed)];
      clock := answer.value.storedAt;
      return entry;
    }

    /** The outcome, and which questions the endpoint was asked, follow from what it answered last before
        the call and from the answers it has for this one; and the spacing of fetches is kept. */
    method GetKey(call: Call) returns (outcome: Outcome)
      requires Inv(View()) && Legal(View(), call)
      modifies this
      ensures Inv(View()) && (View(), outcome) == Next(old(View()), call)
      ensures Decided(old(View()), call, View(), outcome)
    {
      NextKeeps(View(), call);
      NextDecides(View(), call);
      hide Inv, Loaded, Refreshed, Decided;
      var data := Get(call.now, call.first, false);
      if data.None? {
        return Threw;
      }
      if call.keyId in data.value.keys {
        return Found(data.value.keys[call.keyId]);
      }
      LoadedClock(old(View()), call.now, call.first, false);
      if call.later > data.value.at + MIN_REFRESH_INTERVAL {
        outcome := Refresh(call.keyId, call.later, call.second);
        return;
      }
      clock := call.later;
      return Missing;
    }

    // The entry is old enough to be thrown away and fetched again.
    method Refresh(keyId: KeyId, later: nat, second: Option<Response>) returns (outcome: Outcome)
      requires Inv(View()) && entry.Some? && clock <= later && Follows(later, second)
      requires entry.value.at + MIN_REFRESH_INTERVAL < later
      modifies this
      ensures Inv(View()) && (View(), outcome) == Refreshed(old(View()), keyId, later, second)
    {
      hide Inv, Loaded;
      EmptiedKeeps(View(), later);
      entry, clock := None, later;
      var data := Get(later, second, true);
      return if data.None? then Threw else Lookup(data.value.keys, keyId);
    }
  }

  // ---------------------------------------------------------------- as a function

  predicate Live(c: Cache, now: nat) {
    c.entry.Some? && now < c.entry.value.expires
  }

  function Loaded(c: Cache, now: nat, answer: Option<Response>, missed: bool): (Cache, Option<Entry>) {
    if Live(c, now) then (c.(clock := now), c.entry)
    else
      match answer
      case None => (c.(entry := None, asks := c.asks + [None], clock := now), None)
      case Some(r) =>
        (Cache(Some(EntryOf(r)), c.asks + [answer], c.log + [Fetch(r, missed)], r.storedAt), Some(EntryOf(r)))
  }

  function Refreshed(c: Cache, keyId: KeyId, later: nat, second: Option<Response>): (Cache, Outcome) {
    var (c', data) := Loaded(c.(entry := None, clock := later), later, second, true);
    (c', if data.None? then Threw else Lookup(data.value.keys, keyId))
  }

  function Next(c: Cache, call: Call): (Cache, Outcome) {
    var (c1, data) := Loaded(c, call.now, call.first, false);
    if data.None? then (c1, Threw)
    else if call.keyId in data.value.keys then (c1, Found(data.value.keys[call.keyId]))
    else if call.later > data.value.at + MIN_REFRESH_INTERVAL then
      Refreshed(c1, call.keyId, call.later, call.second)
    else (c1.(clock := call.later), Missing)
  }

  // The answer comes after the question.
  ghost predicate Follows(now: nat, r: Option<Response>) {
    r.Some? ==> now <= r.value.fetchedAt <= r.value.storedAt
  }

  ghost predicate InTime(from: nat, r: Option<Response>, to: nat) {
    r.Some? ==> from <= r.value.fetchedAt <= r.value.storedAt <= to
  }

  // The clock does not go back.
  ghost predicate Legal(c: Cache, call: Call) {
    && c.clock <= call.now <= call.later
    && InTime(call.now, call.first, call.later)
    && Follows(call.later, call.second)
  }

  // ---------------------------------------------------------------- what holds throughout

  // A fetch within a minute of the one before it is not due to a missing key, but to expiry.
  ghost predicate Apart(a: Fetch, b: Fetch) {
    && a.r.fetchedAt <= b.r.fetchedAt
    && (b.r.fetchedAt <= a.r.fetchedAt + MIN_REFRESH_INTERVAL ==>
          a.r.storedAt + 1000 * a.r.maxAge <= b.r.fetchedAt && !b.missed)
  }

  ghost predicate Spaced(log: seq<Fetch>) {
    && (log != [] ==> !log[0].missed)
    && (forall i | 0 < i < |log| :: Apart(log[i - 1], log[i]))
  }

  // What the endpoint answered when it was last asked, if it did.
  ghost function Last(c: Cache): Option<Response> {
    if c.asks == [] then None else c.asks[|c.asks| - 1]
  }

  // Its last answer is still within its max-age, which is in seconds.
  ghost predicate Fresh(c: Cache, now: nat) {
    Last(c).Some? && now < Last(c).value.storedAt + 1000 * Last(c).value.maxAge
  }

  // What the cache holds, unless it has just been emptied, is what the endpoint answered last.
  ghost predicate Inv(c: Cache) {
    Base(c) && (Last(c).Some? ==> c.entry.Some?)
  }

  ghost predicate Base(c: Cache) {
    && Spaced(c.log)
    && (c.entry.Some? ==>
          && Last(c).Some?
          && var r := Last(c).value;
          && c.log != [] && c.log[|c.log| - 1].r == r
          && c.entry.value == Entry(r.keys, r.fetchedAt, r.storedAt + 1000 * r.maxAge))
    && (c.log != [] ==>
          var r := c.log[|c.log| - 1].r;
          && r.fetchedAt <= c.clock
          // If it holds nothing, the last fetch was old enough to be made again.
          && (c.entry.None? ==>
                r.storedAt + 1000 * r.maxAge <= c.clock || r.fetchedAt + MIN_REFRESH_INTERVAL < c.clock))
  }

  lemma {:induction false} LoadedKeeps(c: Cache, now: nat, answer: Option<Response>, missed: bool)
    requires Base(c) && c.clock <= now
    requires missed ==> c.log != [] && c.log[|c.log| - 1].r.fetchedAt + MIN_REFRESH_INTERVAL < now
    requires Follows(now, answer)
    ensures var (c', data) := Loaded(c, now, answer, missed);
            && Inv(c') && c'.clock >= now && c.log <= c'.log
            && c'.asks == (if c.entry.Some? && Fresh(c, now) then c.asks else c.asks + [answer])
            && c'.entry == data
            && (answer.Some? ==> c'.clock <= if now <= answer.value.storedAt then answer.value.storedAt else now)
            && (answer.None? ==> c'.clock == now)
  {
    if !Live(c, now) && answer.Some? && c.log != [] {
      assert Apart(c.log[|c.log| - 1], Fetch(answer.value, missed));
    }
  }

  lemma {:induction false} LoadedClock(c: Cache, now: nat, answer: Option<Response>, missed: bool)
    requires c.clock <= now && Follows(now, answer)
    ensures Loaded(c, now, answer, missed).0.clock <= if answer.Some? then answer.value.storedAt else now
    ensures var (after, entry) := Loaded(c, now, answer, missed);
            entry.Some? ==> after.entry == entry
  {
  }

  // The cache may be emptied once its entry is older than the interval.
  lemma {:induction false} EmptiedKeeps(c: Cache, later: nat)
    requires Inv(c) && c.entry.Some? && c.clock <= later && c.entry.value.at + MIN_REFRESH_INTERVAL < later
    ensures Base(c.(entry := None, clock := later))
    ensures c.log != [] && c.log[|c.log| - 1].r.fetchedAt + MIN_REFRESH_INTERVAL < later
  {
  }

  /** Every call keeps the spacing of fetches and what the cache holds. */
  lemma {:induction false} NextKeeps(c: Cache, call: Call)
    requires Inv(c) && Legal(c, call)
    ensures Inv(Next(c, call).0) && c.log <= Next(c, call).0.log
  {
    LoadedKeeps(c, call.now, call.first, false);
    var (c1, data) := Loaded(c, call.now, call.first, false);
    hide Loaded, Spaced;
    if data.Some? && call.keyId !in data.value.keys && call.later > data.value.at + MIN_REFRESH_INTERVAL {
      EmptiedKeeps(c1, call.later);
      LoadedKeeps(c1.(entry := None, clock := call.later), call.later, call.second, true);
    }
  }

  // What a call works with: the last answer while it is within its max-age, and a new one from then on.
  ghost function Current(c: Cache, call: Call): Option<Response> {
    if Fresh(c, call.now) then Last(c) else call.first
  }

  // The key is not there, and what is there is older than the interval.
  ghost predicate Outdated(c: Cache, call: Call) {
    && Current(c, call).Some? && call.keyId !in Current(c, call).value.keys
    && call.later > Current(c, call).value.fetchedAt + MIN_REFRESH_INTERVAL
  }

  /** What a call asks the endpoint and what it answers itself. */
  ghost predicate Decided(c: Cache, call: Call, c': Cache, outcome: Outcome) {
    // The endpoint is asked if its last answer is not within its max-age any more, and once more if the
    // key is missing and the answer old enough.
    && c'.asks == c.asks + (if Fresh(c, call.now) then [] else [call.first])
                         + (if Outdated(c, call) then [call.second] else [])
    // The outcome is a lookup in the last answer, whenever that was.
    && (outcome.Threw? <==> Last(c').None?)
    && (Last(c').Some? ==>
          && (call.keyId in Last(c').value.keys ==> outcome == Found(Last(c').value.keys[call.keyId]))
          && (call.keyId !in Last(c').value.keys ==> outcome == Missing))
  }

  lemma {:induction false} NextDecides(c: Cache, call: Call)
    requires Inv(c) && Legal(c, call)
    ensures Decided(c, call, Next(c, call).0, Next(c, call).1)
  {
    LoadedKeeps(c, call.now, call.first, false);
    var (c1, data) := Loaded(c, call.now, call.first, false);
    assert Last(c1) == Current(c, call);
    if Outdated(c, call) {
      EmptiedKeeps(c1, call.later);
      LoadedKeeps(c1.(entry := None, clock := call.later), call.later, call.second, true);
    }
    hide Loaded, Spaced;
  }

  // ---------------------------------------------------------------- whole runs

  ghost predicate LegalRun(c: Cache, calls: seq<Call>)
    decreases |calls|
  {
    calls == [] || (Legal(c, calls[0]) && LegalRun(Next(c, calls[0]).0, calls[1..]))
  }

  ghost function After(c: Cache, calls: seq<Call>): Cache
    decreases |calls|
  {
    if calls == [] then c else After(Next(c, calls[0]).0, calls[1..])
  }

  lemma {:induction false} RunKeeps(c: Cache, calls: seq<Call>)
    requires Inv(c) && LegalRun(c, calls)
    ensures Inv(After(c, calls))
    decreases |calls|
  {
    if calls != [] {
      NextKeeps(c, calls[0]);
      hide Inv, Next, Legal;
      RunKeeps(Next(c, calls[0]).0, calls[1..]);
    }
  }

  // How many of the first n fetches were triggered by a missing key at t or later.
  ghost function MissedSince(log: seq<Fetch>, n: nat, t: nat): nat
    requires n <= |log|
  {
    if n == 0 then 0
    else MissedSince(log, n - 1, t) + if log[n - 1].missed && log[n - 1].r.fetchedAt >= t then 1 else 0
  }

  lemma {:induction false} MissesTakeTime(log: seq<Fetch>, n: nat, t: nat)
    requires Spaced(log) && 0 < n <= |log| && MissedSince(log, n, t) > 0
    ensures log[n - 1].r.fetchedAt >= t + (MissedSince(log, n, t) - 1) * (MIN_REFRESH_INTERVAL + 1)
  {
    assert n > 1;
    assert Apart(log[n - 2], log[n - 1]);
    if MissedSince(log, n - 1, t) > 0 {
      MissesTakeTime(log, n - 1, t);
    }
  }

  /** In any run, the successful fetches that missing keys triggered number at most one more than the
      minutes of the window in which they were made, and two fetches within a minute of each other
      mean that the earlier one had expired. */
  lemma {:induction false} MissesBounded(calls: seq<Call>, n: nat, t: nat, window: nat)
    requires LegalRun(EMPTY, calls)
    requires 0 < n <= |After(EMPTY, calls).log| && After(EMPTY, calls).log[n - 1].r.fetchedAt <= t + window
    ensures Spaced(After(EMPTY, calls).log)
    ensures MissedSince(After(EMPTY, calls).log, n, t) <= 1 + window / (MIN_REFRESH_INTERVAL + 1)
  {
    RunKeeps(EMPTY, calls);
    var log := After(EMPTY, calls).log;
    if MissedSince(log, n, t) > 0 {
      MissesTakeTime(log, n, t);
    }
  }

  /** In any run: a key that a call returns without asking the endpoint is in what the endpoint answered
      last, and that is within its max-age; once it is not, a call does ask; and a call for a key that
      is missing asks again exactly if what it has is older than the interval. */
  lemma {:induction false} KeysAreFresh(calls: seq<Call>, call: Call)
    requires LegalRun(EMPTY, calls) && Legal(After(EMPTY, calls), call)
    ensures var c := After(EMPTY, calls);
            var (c', outcome) := Next(c, call);
            && Decided(c, call, c', outcome)
            && (outcome.Found? && c'.asks == c.asks ==>
                  && c.asks != [] && c.asks[|c.asks| - 1].Some?
                  && var r := c.asks[|c.asks| - 1].value;
                     && call.now < r.storedAt + 1000 * r.maxAge
                     && call.keyId in r.keys && r.keys[call.keyId] == outcome.key)
            && (c.asks != [] && c.asks[|c.asks| - 1].Some? ==>
                  var r := c.asks[|c.asks| - 1].value;
                  && (call.now >= r.storedAt + 1000 * r.maxAge ==> c.asks + [call.first] <= c'.asks)
                  && (call.now < r.storedAt + 1000 * r.maxAge && call.keyId !in r.keys ==>
                        c'.asks == c.asks + if call.later > r.fetchedAt + 60_000 then [call.second] else []))
  {
    RunKeeps(EMPTY, calls);
    NextDecides(After(EMPTY, calls), call);
    hide Next, Inv, LegalRun, After, Legal;
  }
}
