/**
 * Reading site settings from the `system_config` table
 * (hooks/useSystemConfig.ts): one key at a time through a cache shared by
 * every caller and valid for five minutes, or several keys at once without
 * the cache. The table is a parameter (its rows, in the order the store
 * returns them); so are the clock reading and whether the request throws.
 */
module SystemConfig {
  import opened Wrappers
  import opened Assoc

  /** Five minutes, in milliseconds. */
  const CacheDuration: int := 300000

  /** The rows of `system_config`: (key, value). */
  type Table = seq<(string, string)>

  /** The values stored under `key`, in order. */
  function Matching(table: Table, key: string): (r: seq<string>)
    ensures |r| <= |table|
  {
    if table == [] then []
    else
      var rest := Matching(table[1..], key);
      if table[0].0 == key then [table[0].1] + rest else rest
  }

  /** The values found are exactly those stored under the key. */
  lemma {:induction false} MatchingMembers(table: Table, key: string)
    ensures forall v :: v in Matching(table, key) <==> (key, v) in table
  {
    if table != [] {
      MatchingMembers(table[1..], key);
      assert forall p :: p in table <==> p == table[0] || p in table[1..];
    }
  }

  /** The values keep the table's order and repeats: those of a concatenation
      are those of each part in turn, and a single row gives its value exactly
      when it has the key. */
  lemma {:induction false} MatchingAppend(a: Table, b: Table, key: string)
    ensures Matching(a + b, key) == Matching(a, key) + Matching(b, key)
    ensures |a| == 1 ==> Matching(a, key) == if a[0].0 == key then [a[0].1] else []
  {
    if a == [] {
      assert a + b == b;
    } else {
      assert (a + b)[1..] == a[1..] + b;
      MatchingAppend(a[1..], b, key);
    }
  }

  /** `.eq('key', key).single()`: the value when exactly one row has the key;
      no row, or several, is an error. */
  function SingleValue(table: Table, key: string): (r: Option<string>)
    ensures r.Some? <==> |Matching(table, key)| == 1
    ensures r.Some? ==> (key, r.value) in table
    ensures r.Some? ==> forall v :: (key, v) in table ==> v == r.value
  {
    var vs := Matching(table, key);
    MatchingMembers(table, key);
    if |vs| == 1 then
      assert vs[0] in vs;
      Some(vs[0])
    else None
  }

  /** `.in('key', keys)`: the rows whose key is one of `keys`, in order. */
  function Selected(table: Table, keys: seq<string>): (r: Table)
    ensures |r| <= |table|
    ensures forall i :: 0 <= i < |r| ==> r[i].0 in keys
    ensures forall p :: p in r <==> p in table && p.0 in keys
  {
    if table == [] then []
    else
      var init := Selected(table[..|table| - 1], keys);
      var last := table[|table| - 1];
      assert forall p :: p in table <==> p in table[..|table| - 1] || p == last;
      if last.0 in keys then init + [last] else init
  }

  /** Selecting keeps the table's order and repeats: the rows of a
      concatenation are those of each part in turn, and a single row is kept
      exactly when its key was asked for. */
  lemma {:induction false} SelectedAppend(a: Table, b: Table, keys: seq<string>)
    ensures Selected(a + b, keys) == Selected(a, keys) + Selected(b, keys)
    ensures |b| == 1 ==> Selected(b, keys) == if b[0].0 in keys then b else []
  {
    if b == [] {
      assert a + b == a;
    } else {
      assert (a + b)[..|a + b| - 1] == a + b[..|b| - 1];
      SelectedAppend(a, b[..|b| - 1], keys);
    }
  }

  /** Selecting by keys keeps, for each listed key, the row that wins in the
      whole table, and drops every other key. */
  lemma {:induction false} SelectedLast(table: Table, keys: seq<string>, k: string)
    ensures LastAssigned(Selected(table, keys), k) == if k in keys then LastAssigned(table, k) else None
  {
    if table != [] {
      var init, last := table[..|table| - 1], table[|table| - 1];
      SelectedLast(init, keys, k);
      assert table == init + [last];
      LastAssignedSnoc(init, last, k);
      if last.0 in keys {
        LastAssignedSnoc(Selected(init, keys), last, k);
      }
    }
  }

  /** The cache shared by every `useSystemConfig` caller (`configCache` and
      `cacheTime`): one timestamp for all keys. */
  class ConfigCache {
    var entries: map<string, string>
    var cacheTime: int

    constructor ()
      ensures entries == map[] && cacheTime == 0
    {
      entries, cacheTime := map[], 0;
    }

    /** `configCache[key] && (now - cacheTime) < CACHE_DURATION`: an empty
        cached value does not count. */
    predicate Hit(key: string, now: int)
      reads this
    {
      key in entries && entries[key] != "" && now - cacheTime < CacheDuration
    }
  }

  /** One `useSystemConfig(key, defaultValue)`. */
  class ConfigValue {
    var value: string
    var loading: bool

    constructor (defaultValue: string)
      ensures value == defaultValue && loading
    {
      value, loading := defaultValue, true;
    }

    /** `fetchConfig`: a cache hit answers without a request (`requested` is
        false); otherwise the single row is read, a success is cached under
        the current time, and an error or a thrown request falls back to the
        default and leaves the cache alone. */
    method Fetch(cache: ConfigCache, key: string, defaultValue: string, now: int, table: Table, threw: bool)
      returns (requested: bool)
      modifies this, cache
      ensures !loading
      ensures requested <==> !old(cache.Hit(key, now))
      ensures !requested ==> value == old(cache.entries[key])
      ensures !requested || threw || SingleValue(table, key).None? ==>
        cache.entries == old(cache.entries) && cache.cacheTime == old(cache.cacheTime)
      ensures requested && (threw || SingleValue(table, key).None?) ==> value == defaultValue
      ensures requested && !threw && SingleValue(table, key).Some? ==>
        && value == SingleValue(table, key).value
        && cache.entries == old(cache.entries)[key := value]
        && cache.cacheTime == now
      // A stored value answers every call of the next five minutes.
      ensures requested && !threw && SingleValue(table, key).Some? && value != "" ==>
        forall t :: now <= t < now + CacheDuration ==> cache.Hit(key, t)
      // The one timestamp makes a store refresh every other cached key too.
      ensures requested && !threw && SingleValue(table, key).Some? ==>
        forall k :: k != key && k in old(cache.entries) && old(cache.entries)[k] != "" ==> cache.Hit(k, now)
    {
      if cache.Hit(key, now) {
        value := cache.entries[key];
        loading := false;
        return false;
      }
      requested := true;
      if threw {
        value := defaultValue;
      } else {
        var row := SingleValue(table, key);
        if row.None? {
          value := defaultValue;
        } else {
          cache.entries := cache.entries[key := row.value];
          cache.cacheTime := now;
          value := row.value;
        }
      }
      loading := false;
    }
  }

  /** One `useSystemConfigs(keys)`. */
  class ConfigValues {
    var configs: map<string, string>
    var loading: bool

    constructor ()
      ensures configs == map[] && loading
    {
      configs, loading := map[], true;
    }

    /** `fetchConfigs`: the rows for `keys`, the last row of a key winning; a
        failed request keeps the previous map. */
    method Fetch(keys: seq<string>, table: Table, threw: bool)
      modifies this
      ensures !loading
      ensures threw ==> configs == old(configs)
      ensures !threw ==> forall k :: k in configs <==> k in keys && LastAssigned(table, k).Some?
      ensures !threw ==> forall k :: k in configs ==> configs[k] == LastAssigned(table, k).value
    {
      if !threw {
        var selected := Selected(table, keys);
        var m := BuildMap(selected);
        forall k ensures LastAssigned(selected, k) == if k in keys then LastAssigned(table, k) else None {
          SelectedLast(table, keys, k);
        }
        configs := m;
      }
      loading := false;
    }
  }
}
