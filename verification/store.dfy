/** The distributed cache the pages sit on: string keys mapped to string
    values, each with an absolute expiration instant. Only the three
    capabilities the pages use are modelled: get, set with an absolute
    expiration, and the cache's own eviction of expired entries. */
module Store {
  import opened Common

  /** An absolute instant, as the ticks that `DateTime.FromBinary` reads. */
  type Instant = int

  /** A stored value and the instant from which it is gone. */
  datatype Entry = Entry(value: string, expiresAt: Instant)

  /** The entries of `table` that are still live at `now`: an absolute
      expiration removes an entry once the clock reaches it. */
  function LiveAt(table: map<string, Entry>, now: Instant): (live: map<string, Entry>)
    ensures forall k :: k in live <==> k in table && now < table[k].expiresAt
    ensures forall k :: k in live ==> live[k] == table[k]
  {
    map k | k in table && now < table[k].expiresAt :: table[k]
  }

  /** As the clock advances, the live entries only shrink: an entry gone
      at `earlier` is gone at `later`, and evicting at `earlier` and then at
      `later` is evicting at `later`. */
  lemma LiveAtShrinks(table: map<string, Entry>, earlier: Instant, later: Instant)
    requires earlier <= later
    ensures LiveAt(table, later).Keys <= LiveAt(table, earlier).Keys
    ensures LiveAt(LiveAt(table, earlier), later) == LiveAt(table, later)
  {
  }

  class Cache {
    var entries: map<string, Entry>

    constructor(initial: map<string, Entry>)
      ensures entries == initial
    {
      entries := initial;
    }

    /** `GetAsync` / `GetStringAsync`: the stored value, or null when the
        key is absent. */
    method Get(key: string) returns (r: Option<string>)
      ensures r.Some? <==> key in entries
      ensures r.Some? ==> r.value == entries[key].value
    {
      if key in entries {
        r := Some(entries[key].value);
      } else {
        r := None;
      }
    }

    /** `SetStringAsync` with an absolute expiration: the key now maps to
        the value, overwriting any earlier entry; no other key changes. */
    method SetString(key: string, value: string, expiresAt: Instant)
      modifies this
      ensures entries == old(entries)[key := Entry(value, expiresAt)]
    {
      entries := entries[key := Entry(value, expiresAt)];
    }

    /** The cache's own time-to-live policy, run when the clock reads
        `now`; no page handler calls it. */
    method EvictExpired(now: Instant)
      modifies this
      ensures entries == LiveAt(old(entries), now)
    {
      entries := LiveAt(entries, now);
    }
  }
}
