/** The per-address rate limiter that cleans itself (apps/relay/src/state.rs `IpRateLimiter`). */
module RateLimiter {

  const U32: nat := 0x1_0000_0000
  const CLEAN_ABOVE: nat := 10_000

  type Address = nat

  datatype Entry = Entry(count: nat, start: nat)

  type Table = map<Address, Entry>

  /** One call of `hit`: the address, the caller's limit, and the clock read under the lock. */
  datatype Hit = Hit(ip: Address, limit: nat, now: nat)

  // ---------------------------------------------------------------------------
  // One hit
  // ---------------------------------------------------------------------------

  /** The entry of the hit's address after the hit; counts wrap like the 32-bit counter. */
  function Bumped(t: Table, h: Hit, window: nat): Entry {
    var e := if h.ip in t then t[h.ip] else Entry(0, h.now);
    var current := if h.now - e.start > window then Entry(0, h.now) else e;
    current.(count := (current.count + 1) % U32)
  }

  function Refuses(t: Table, h: Hit, window: nat): bool {
    Bumped(t, h, window).count > h.limit
  }

  /** The limiter without its cleaning. */
  function Noted(t: Table, h: Hit, window: nat): Table {
    t[h.ip := Bumped(t, h, window)]
  }

  function Cleaned(t: Table, now: nat, window: nat): Table {
    if |t| > CLEAN_ABOVE then map ip | ip in t && now - t[ip].start <= window :: t[ip] else t
  }

  class IpRateLimiter {
    var inner: Table

    constructor ()
      ensures inner == map[]
    {
      inner := map[];
    }

    method RegisterHit(ip: Address, limit: nat, window: nat, now: nat) returns (over: bool)
      modifies this
      ensures over == Refuses(old(inner), Hit(ip, limit, now), window)
      ensures inner == Cleaned(Noted(old(inner), Hit(ip, limit, now), window), now, window)
    {
      if ip !in inner {
        inner := inner[ip := Entry(0, now)];
      }
      if now - inner[ip].start > window {
        inner := inner[ip := Entry(0, now)];
      }
      inner := inner[ip := inner[ip].(count := (inner[ip].count + 1) % U32)];
      var count := inner[ip].count;
      if |inner| > CLEAN_ABOVE {
        inner := map a | a in inner && now - inner[a].start <= window :: inner[a];
      }
      return count > limit;
    }
  }

  // ---------------------------------------------------------------------------
  // Runs
  // ---------------------------------------------------------------------------

  predicate Monotone(hits: seq<Hit>) {
    forall i, j :: 0 <= i < j < |hits| ==> hits[i].now <= hits[j].now
  }

  /** The table after `hits`, cleaned or never cleaned. */
  function After(hits: seq<Hit>, window: nat, cleaning: bool): Table {
    if hits == [] then map[]
    else
      var h := hits[|hits| - 1];
      var t := Noted(After(hits[..|hits| - 1], window, cleaning), h, window);
      if cleaning then Cleaned(t, h.now, window) else t
  }

  /** The answer to the last of `hits`. */
  function Answer(hits: seq<Hit>, window: nat, cleaning: bool): bool
    requires hits != []
  {
    Refuses(After(hits[..|hits| - 1], window, cleaning), hits[|hits| - 1], window)
  }

  function Clock(hits: seq<Hit>): nat {
    if hits == [] then 0 else hits[|hits| - 1].now
  }

  /** Entries kept are equal; a forgotten one is out of its window and would start over. */
  predicate Agrees(kept: Table, all: Table, now: nat, window: nat) {
    && (forall ip <- kept :: ip in all && all[ip] == kept[ip])
    && (forall ip <- all :: ip !in kept ==> now - all[ip].start > window)
  }

  lemma {:induction false} HitAgrees(kept: Table, all: Table, before: nat, h: Hit, window: nat)
    requires Agrees(kept, all, before, window) && before <= h.now
    ensures Bumped(kept, h, window) == Bumped(all, h, window)
    ensures Agrees(Cleaned(Noted(kept, h, window), h.now, window), Noted(all, h, window), h.now, window)
  {
  }

  lemma {:induction false} TablesAgree(hits: seq<Hit>, window: nat)
    requires Monotone(hits)
    ensures Agrees(After(hits, window, true), After(hits, window, false), Clock(hits), window)
    decreases |hits|
  {
    if hits != [] {
      var before, h := hits[..|hits| - 1], hits[|hits| - 1];
      TablesAgree(before, window);
      HitAgrees(After(before, window, true), After(before, window, false), Clock(before), h, window);
    }
  }

  /** With one window and a monotone clock, cleaning never changes an answer: for every sequence of hits
      of any addresses with any limits, the limiter answers as one that never forgets. */
  lemma {:induction false} CleaningIsInvisible(hits: seq<Hit>, window: nat)
    requires Monotone(hits) && hits != []
    ensures Answer(hits, window, true) == Answer(hits, window, false)
  {
    var before, h := hits[..|hits| - 1], hits[|hits| - 1];
    TablesAgree(before, window);
    HitAgrees(After(before, window, true), After(before, window, false), Clock(before), h, window);
  }

  /** The table stays small: above the threshold only addresses within their window are kept. */
  lemma {:induction false} TableIsBounded(hits: seq<Hit>, window: nat)
    requires hits != []
    ensures var t := After(hits, window, true);
            |t| <= 10000 || forall ip <- t :: Clock(hits) - t[ip].start <= window
  {
  }

  // ---------------------------------------------------------------------------
  // What an answer means
  // ---------------------------------------------------------------------------

  /** How often `ip` hit at `since` or later. */
  function HitsSince(hits: seq<Hit>, ip: Address, since: nat): nat {
    if hits == [] then 0
    else
      var h := hits[|hits| - 1];
      HitsSince(hits[..|hits| - 1], ip, since) + if h.ip == ip && h.now >= since then 1 else 0
  }

  lemma {:induction false} HitsSinceIsAntitone(hits: seq<Hit>, ip: Address, early: nat, late: nat)
    requires early <= late
    ensures HitsSince(hits, ip, early) >= HitsSince(hits, ip, late)
    decreases |hits|
  {
    if hits != [] {
      HitsSinceIsAntitone(hits[..|hits| - 1], ip, early, late);
    }
  }

  lemma {:induction false} NoHitsSince(hits: seq<Hit>, ip: Address, since: nat)
    requires forall i :: 0 <= i < |hits| && hits[i].ip == ip ==> hits[i].now < since
    ensures HitsSince(hits, ip, since) == 0
    decreases |hits|
  {
    if hits != [] {
      NoHitsSince(hits[..|hits| - 1], ip, since);
    }
  }

  /** The hit that opened the window `ip` is in: its first, or the first one too late for the window
      before. */
  function WindowStart(hits: seq<Hit>, ip: Address, window: nat): nat {
    if hits == [] then 0
    else
      var before, h := hits[..|hits| - 1], hits[|hits| - 1];
      var start := WindowStart(before, ip, window);
      if h.ip == ip && (HitsSince(before, ip, 0) == 0 || h.now - start > window) then h.now else start
  }

  /** An entry counts its address's hits since the hit that opened its window. */
  ghost predicate EntryExact(hits: seq<Hit>, t: Table, ip: Address, window: nat) {
    if ip in t then
      && HitsSince(hits, ip, 0) > 0
      && t[ip].start == WindowStart(hits, ip, window) <= Clock(hits)
      && t[ip].count == HitsSince(hits, ip, t[ip].start) % U32
      && forall i :: 0 <= i < |hits| && hits[i].ip == ip ==> hits[i].now <= t[ip].start + window
    else HitsSince(hits, ip, 0) == 0 && forall i :: 0 <= i < |hits| ==> hits[i].ip != ip
  }

  ghost predicate Exact(hits: seq<Hit>, t: Table, window: nat) {
    forall ip: Address :: EntryExact(hits, t, ip, window)
  }

  lemma {:induction false} NeverCleaningIsExact(hits: seq<Hit>, window: nat)
    requires Monotone(hits)
    ensures Exact(hits, After(hits, window, false), window)
    decreases |hits|
  {
    if hits != [] {
      NeverCleaningIsExact(hits[..|hits| - 1], window);
      HitIsExact(hits[..|hits| - 1], hits[|hits| - 1], After(hits[..|hits| - 1], window, false), window);
      assert hits == hits[..|hits| - 1] + [hits[|hits| - 1]];
    }
  }

  lemma {:induction false} OwnHitIsExact(before: seq<Hit>, h: Hit, t: Table, window: nat)
    requires EntryExact(before, t, h.ip, window) && Clock(before) <= h.now
    ensures EntryExact(before + [h], Noted(t, h, window), h.ip, window)
  {
    assert (before + [h])[..|before|] == before;
    if h.ip !in t || h.now - t[h.ip].start > window {
      NoHitsSince(before, h.ip, h.now);
    }
  }

  lemma {:induction false} OtherHitIsExact(before: seq<Hit>, h: Hit, t: Table, ip: Address, window: nat)
    requires EntryExact(before, t, ip, window) && Clock(before) <= h.now && ip != h.ip
    ensures EntryExact(before + [h], Noted(t, h, window), ip, window)
  {
    assert (before + [h])[..|before|] == before;
  }

  lemma {:induction false} HitIsExact(before: seq<Hit>, h: Hit, t: Table, window: nat)
    requires Exact(before, t, window) && Clock(before) <= h.now
    ensures Exact(before + [h], Noted(t, h, window), window)
  {
    forall ip: Address ensures EntryExact(before + [h], Noted(t, h, window), ip, window) {
      assert EntryExact(before, t, ip, window);
      if ip == h.ip {
        OwnHitIsExact(before, h, t, window);
      } else {
        OtherHitIsExact(before, h, t, ip, window);
      }
    }
  }

  /** A hit is refused only if its address made more hits than the limit within the last window, this one
      included. */
  lemma {:induction false} RefusedOnlyWhenBusy(hits: seq<Hit>, window: nat)
    requires Monotone(hits) && hits != [] && Answer(hits, window, true)
    ensures var h := hits[|hits| - 1];
            HitsSince(hits, h.ip, if h.now >= window then h.now - window else 0) > h.limit
  {
    var before, h := hits[..|hits| - 1], hits[|hits| - 1];
    CleaningIsInvisible(hits, window);
    NeverCleaningIsExact(hits, window);
    assert EntryExact(hits, After(hits, window, false), h.ip, window);
    var e := After(hits, window, false)[h.ip];
    assert hits[|hits| - 1].now <= e.start + window;
    HitsSinceIsAntitone(hits, h.ip, if h.now >= window then h.now - window else 0, e.start);
  }

  /** The limiter counts fixed windows: it refuses a hit exactly if its address, counting from the hit
      that opened its window, is over the limit (the 32-bit counter wrapping). */
  lemma {:induction false} RefusesFixedWindow(hits: seq<Hit>, window: nat)
    requires Monotone(hits) && hits != []
    ensures var h := hits[|hits| - 1];
            Answer(hits, window, true) <==> HitsSince(hits, h.ip, WindowStart(hits, h.ip, window)) % U32 > h.limit
  {
    CleaningIsInvisible(hits, window);
    NeverCleaningIsExact(hits, window);
    assert EntryExact(hits, After(hits, window, false), hits[|hits| - 1].ip, window);
  }
}
