/**
  The single-slot disk cache (utils/cache_manager.py). The cache file is one
  slot that either holds nothing or a timestamped entry; saving overwrites it,
  loading reads it and answers with the data only while the entry is at most
  six hours old. The clock is a parameter (integer microseconds, the resolution
  of Python's datetime), and whether the file can be unpickled is a parameter
  naming the exception, if any, that reading it raises.
 */
module CacheManager {
  import opened Wrappers

  const MicrosPerHour: int := 3_600_000_000

  /** `CACHE_EXPIRY_HOURS`. */
  const CacheExpiryHours: int := 6

  /** The oldest age, in microseconds, at which an entry is still served. */
  const Expiry: int := CacheExpiryHours * MicrosPerHour

  /** The keys `cache_data` keeps, in the order it writes them. */
  const CacheKeys: seq<string> := ["df", "df_weighted_ma", "all_party_columns"]

  /** The pickled dictionary: when it was saved and what was saved. */
  datatype Entry<V> = Entry(timestamp: int, data: map<string, V>)

  /** What reading an existing cache file raises, if anything. */
  datatype ReadFault =
    | Readable     // unpickled, with both keys
    | Unpickling   // pickle.PickleError
    | MissingKey   // KeyError: the unpickled object lacks `timestamp` or `data`
    | BadValue     // ValueError
    | EndOfFile    // EOFError, e.g. a truncated file
    | OsFailure    // OSError from open or read
    | OtherError   // any other exception while unpickling (AttributeError, ImportError, ...)
  {
    /** The exceptions `load_from_cache` turns into a miss. */
    predicate Caught()
    {
      this == Unpickling || this == MissingKey || this == BadValue
    }
  }

  /** The result of `load_from_cache`: the data, None, or an exception it lets through. */
  datatype Loaded<V> = Hit(data: map<string, V>) | Miss | Raised(fault: ReadFault)

  /** `load_from_cache` as a value: existence first, then reading, then age. */
  function LoadOutcome<V>(slot: Option<Entry<V>>, now: int, fault: ReadFault): (r: Loaded<V>)
    ensures slot.None? ==> r == Miss
    ensures r.Hit? <==> slot.Some? && fault == Readable && now - slot.value.timestamp <= Expiry
    ensures r.Hit? ==> r.data == slot.value.data
    ensures r.Raised? <==> slot.Some? && fault != Readable && !fault.Caught()
    ensures r.Raised? ==> r.fault == fault
  {
    if slot.None? then Miss
    else if fault.Caught() then Miss
    else if fault != Readable then Raised(fault)
    else if now - slot.value.timestamp > Expiry then Miss
    else Hit(slot.value.data)
  }

  /**
    The dictionary `cache_data` builds: exactly the three kept keys with their
    values; None where one is absent and the lookup raises KeyError.
   */
  function CacheProjection<V>(data: map<string, V>): (r: Option<map<string, V>>)
    ensures r.Some? <==> forall k :: k in CacheKeys ==> k in data
    ensures r.Some? ==> r.value.Keys == set k | k in CacheKeys
    ensures r.Some? ==> forall k :: k in r.value ==> r.value[k] == data[k]
  {
    if CacheKeys[0] in data && CacheKeys[1] in data && CacheKeys[2] in data then
      Some(map[CacheKeys[0] := data[CacheKeys[0]],
               CacheKeys[1] := data[CacheKeys[1]],
               CacheKeys[2] := data[CacheKeys[2]]])
    else
      None
  }

  /** The cache file, seen as one slot. */
  class DiskCache<V> {
    var slot: Option<Entry<V>>

    /** No cache file yet. */
    constructor()
      ensures slot == None
    {
      slot := None;
    }

    /** `save_to_cache`: overwrite the slot with the data stamped `now`. */
    method Save(now: int, data: map<string, V>)
      modifies this
      ensures slot == Some(Entry(now, data))
    {
      slot := Some(Entry(now, data));
    }

    /** `load_from_cache`: read the slot; the slot itself never changes. */
    method Load(now: int, fault: ReadFault) returns (r: Loaded<V>)
      ensures r == LoadOutcome(slot, now, fault)
    {
      if slot.None? {
        return Miss;
      }
      if fault != Readable {
        if fault.Caught() {
          return Miss;
        }
        return Raised(fault);
      }
      var age := now - slot.value.timestamp;
      if age > Expiry {
        return Miss;
      }
      return Hit(slot.value.data);
    }

    /**
      `cache_data`: save the three kept keys; when one is absent the KeyError
      is raised before anything is written, so the slot is as it was.
     */
    method CacheData(now: int, data: map<string, V>) returns (raised: bool)
      modifies this
      ensures raised <==> CacheProjection(data).None?
      ensures raised ==> slot == old(slot)
      ensures !raised ==> slot == Some(Entry(now, CacheProjection(data).value))
    {
      var kept := CacheProjection(data);
      if kept.None? {
        return true;
      }
      Save(now, kept.value);
      return false;
    }
  }

  /** Nothing saved: every read is a miss. */
  lemma NoFileIsMiss<V>(now: int, fault: ReadFault)
    ensures LoadOutcome<V>(None, now, fault) == Miss
  {
  }

  /** An entry exactly six hours old is served; one microsecond older is not. */
  lemma ExpiryBoundary<V>(saved: int, data: map<string, V>)
    ensures LoadOutcome(Some(Entry(saved, data)), saved + 6 * MicrosPerHour, Readable) == Hit(data)
    ensures LoadOutcome(Some(Entry(saved, data)), saved + 6 * MicrosPerHour + 1, Readable) == Miss
  {
  }

  /** An entry stamped after `now` (the clock went back) has a negative age and is served. */
  lemma FutureEntryServed<V>(saved: int, now: int, data: map<string, V>)
    requires now < saved
    ensures LoadOutcome(Some(Entry(saved, data)), now, Readable) == Hit(data)
  {
  }

  /** The loading errors the source catches are misses; the others propagate unchanged. */
  lemma FaultsOnExistingFile<V>(e: Entry<V>, now: int, fault: ReadFault)
    requires fault != Readable
    ensures fault.Caught() ==> LoadOutcome(Some(e), now, fault) == Miss
    ensures !fault.Caught() ==> LoadOutcome(Some(e), now, fault) == Raised(fault)
    ensures fault == EndOfFile || fault == OsFailure || fault == OtherError ==> LoadOutcome(Some(e), now, fault).Raised?
  {
  }

  /** A save followed, within six hours, by a clean load gives back exactly what was saved. */
  method SaveThenLoad<V>(cache: DiskCache<V>, saved: int, now: int, data: map<string, V>)
    returns (r: Loaded<V>)
    requires now - saved <= Expiry
    modifies cache
    ensures r == Hit(data)
    ensures cache.slot == Some(Entry(saved, data))
  {
    cache.Save(saved, data);
    r := cache.Load(now, Readable);
  }

  /** Caching then loading in time gives back the three kept keys and nothing else. */
  lemma CachedRoundTrip<V>(data: map<string, V>, saved: int, now: int)
    requires forall k :: k in CacheKeys ==> k in data
    requires now - saved <= Expiry
    ensures LoadOutcome(Some(Entry(saved, CacheProjection(data).value)), now, Readable).Hit?
    ensures LoadOutcome(Some(Entry(saved, CacheProjection(data).value)), now, Readable).data.Keys
         == {"df", "df_weighted_ma", "all_party_columns"}
  {
    assert (set k | k in CacheKeys) == {"df", "df_weighted_ma", "all_party_columns"};
  }
}
