/** The hub's cache of group rosters, with entries that live thirty seconds. */
module RosterCache {
  import opened Basics
  import opened GroupTables

  const ROSTER_TTL: Time := 30 * SECOND

  datatype CacheEntry = CacheEntry(ids: seq<Uid>, expiresAt: Time)
  type Cache = map<Gid, CacheEntry>

  /** ids is an answer the database may give for g: each member once, in some order. */
  predicate IsRosterList(t: Tables, g: Gid, ids: seq<Uid>) {
    NoDup(ids) && Elems(ids) == Roster(t, g)
  }

  predicate Fresh(cache: Cache, g: Gid, now: Time) {
    g in cache && now < cache[g].expiresAt
  }

  /** GroupMemberIDs, when nothing runs in between: answer is what a database read returns. */
  function Resolve(cache: Cache, g: Gid, now: Time, answer: seq<Uid>): (seq<Uid>, Cache) {
    if Fresh(cache, g, now) then (cache[g].ids, cache)
    else (answer, cache[g := CacheEntry(answer, now + ROSTER_TTL)])
  }

  function Invalidate(cache: Cache, stale: Option<Gid>): Cache {
    match stale case None => cache case Some(g) => cache - {g}
  }
}
