/** The per-process cache of poll definitions (internal/service/cache.go): its operations one at a time. */
module PollCache {
  import opened Domain

  /** What one entry holds: a poll and the instant it stops being served. */
  datatype Cached = Cached(poll: Poll, expires: int)

  class Entry {
    var poll: Option<Poll>
    var expires: int
    var loaded: bool

    constructor ()
      ensures !loaded
    {
      poll := None;
      expires := 0;
      loaded := false;
    }

    ghost predicate Valid()
      reads this
    {
      loaded ==> poll.Some?
    }

    ghost function Value(): Option<Cached>
      reads this
      requires Valid()
    {
      if loaded then Some(Cached(poll.value, expires)) else None
    }
  }

  class Cache {
    const ttl: int
    var entries: map<string, Entry>

    constructor (ttl: int)
      ensures this.ttl == ttl && entries == map[] && Valid()
    {
      this.ttl := ttl;
      entries := map[];
    }

    /** Every id has an entry object of its own. */
    ghost predicate Valid()
      reads this, entries.Values
    {
      && (forall id | id in entries :: entries[id].Valid())
      && forall id, other | id in entries && other in entries && id != other :: entries[id] != entries[other]
    }

    ghost function ValueOf(id: string): Option<Cached>
      reads this, entries.Values
      requires Valid()
    {
      if id in entries then entries[id].Value() else None
    }

    method Locate(id: string) returns (e: Entry)
      requires Valid()
      modifies this`entries
      ensures Valid() && id in entries && entries[id] == e
      ensures id in old(entries) ==> entries == old(entries)
      ensures id !in old(entries) ==> fresh(e) && !e.loaded && entries == old(entries)[id := e]
    {
      if id !in entries {
        var created := new Entry();
        entries := entries[id := created];
      }
      e := entries[id];
    }

    /**
     * Serves the entry while it is fresh, and otherwise asks the loader (`loaded` is its answer, at
     * time `now`; `after` is the time when it returns). A failed load changes no cached value.
     */
    method Get(id: string, loaded: Result<Poll>, now: int, after: int) returns (r: Result<Poll>, asked: bool)
      requires Valid() && now <= after
      modifies this, entries.Values
      ensures Valid() && fresh(entries.Values - old(entries.Values))
      ensures var cached := old(ValueOf(id));
              && asked == !(cached.Some? && now < cached.value.expires)
              && r == (if asked then loaded else Ok(cached.value.poll))
              && ValueOf(id) == if asked && loaded.Ok? then Some(Cached(loaded.value, after + ttl)) else cached
      ensures forall other | other != id :: old(ValueOf(other)) == ValueOf(other)
      ensures entries.Keys == old(entries.Keys) + {id}
    {
      var e := Locate(id);
      if e.loaded && now < e.expires {
        return Ok(e.poll.value), false;
      }
      if loaded.Err? {
        return loaded, true;
      }
      e.poll := Some(loaded.value);
      e.expires := after + ttl;
      e.loaded := true;
      return loaded, true;
    }

    method Put(p: Poll, now: int)
      requires Valid()
      modifies this, entries.Values
      ensures Valid() && fresh(entries.Values - old(entries.Values))
      ensures ValueOf(p.id) == Some(Cached(p, now + ttl))
      ensures forall other | other != p.id :: old(ValueOf(other)) == ValueOf(other)
      ensures entries.Keys == old(entries.Keys) + {p.id}
    {
      var e := Locate(p.id);
      e.poll := Some(p);
      e.expires := now + ttl;
      e.loaded := true;
    }

    method Delete(id: string)
      requires Valid()
      modifies this`entries
      ensures Valid() && entries == old(entries) - {id}
      ensures ValueOf(id) == None
      ensures forall other | other != id :: old(ValueOf(other)) == ValueOf(other)
    {
      entries := entries - {id};
    }
  }
}
