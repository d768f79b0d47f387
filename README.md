# ya-pickledb in Dafny

A model of the two in-memory components of ya-pickledb, a small embedded key-value
store. The model also proves properties of both.

- **`YAPickleDB`** (module `Store`, file `store.dfy`) holds the database `db`. It is a
  map from string keys to values, changed in place by `set`, `rem`, `append`, `deldb`,
  the list operations (`lcreate`, `ladd`, `lextend`, `lpop`, `lremvalue`, `lremlist`,
  `lappend`) and the dict operations (`dcreate`, `dadd`, `dpop`, `dmerge`, `drem`). It is
  read by `get`, `getall`, `exists`, `totalkeys`, `lgetall`, `lget`, `lrange`, `llen`,
  `lexists`, `dget`, `dgetall`, `dkeys`, `dvals` and `dexists`. The model is a Dafny class
  with a `db: map<string, Value>` field. Mutators are methods whose postconditions give
  the whole new map and the property the operation promises. Readers are functions.
  `Value` (module `Values`) is a tagged union: `Null | Bool | Int | Str | List | Dict`.
- **Persistence requests.** After every successful mutation, `_autodumpdb` writes the
  database to its file when `auto_dump` is on. The model keeps the ghost log `dumps`
  of the maps that would have been written. `Dumped(before)` appends the current map to
  the log only when `autoDump` holds. `commit` always appends. A rejected `set`, `lcreate`
  or `dcreate` appends nothing, and neither does a `rem` of an absent key.
- **`Cache`** (module `TtlCache`, file `cache.dfy`) is the time-to-live cache. Its state
  is a list of `Temp_obj(key, expiry)` entries, modelled as `seq<TempObj>`. Entries are
  appended and the first match is popped. The wall clock becomes the integer parameter
  `now`. The spec functions are:
  - `Find`: the first index whose key matches.
  - `Lookup`: the entry at that index.
  - `Without`: the list with that entry removed.

  The loops of `_get_by_key` and `delete_key` are proved against these functions.
- **Scenarios** (file `scenarios.dfy`) are client methods that replay the repository's
  tests. Each one starts from an arbitrary loaded map, because the tests reopen a file
  whose earlier contents are unknown.

The store and the cache are separate, as they are in the code. `YAPickleDB.set` takes no
time-to-live argument (ya_pickledb/pickledb.py:74) and never consults `Cache`. Dumping is
plain JSON (ya_pickledb/pickledb.py:260). There is no checksummed binary file format and no
exclusion of TTL keys from dumps.

## Model

| member | source | states |
|---|---|---|
| `Values.Len` | ya_pickledb/pickledb.py:175-177 | `len` counts the characters of a string, the elements of a list, the keys of a dict |
| `Values.Plus` | ya_pickledb/pickledb.py:115-120 | `a + b` keeps the kind of `a`; the old value is the prefix and `more` the suffix (strings, lists), or the sum (integers) |
| `Values.IndexOf` | ya_pickledb/pickledb.py:162-166 | the index `list.remove` acts on: an occurrence of `x` with no occurrence before it |
| `Values.RemoveAt` | ya_pickledb/pickledb.py:168-173 | `del l[i]` leaves the elements before `i` in place, shifts the rest down by one, is one shorter, and loses exactly one copy of `l[i]` (multiset) |
| `Values.RemoveFirst` | ya_pickledb/pickledb.py:162-166 | `list.remove(x)` removes exactly one `x` (multiset difference), the first one, keeping the order of the others |
| `Values.RemoveFirstKeepsDuplicates` | ya_pickledb/pickledb.py:162-166 | after `lremvalue`, `lexists` of that value holds exactly when it occurred at least twice |
| `Values.Slice` | ya_pickledb/pickledb.py:151-153 | `l[start:end]` with omitted or non-negative bounds is the contiguous run from the clamped start, of the clamped length |
| `Values.SliceInRange` | ya_pickledb/pickledb.py:151-153 | with `start <= end <= len`, `lrange` gives exactly elements `start .. end-1` |
| `Values.SliceSplit` | ya_pickledb/pickledb.py:151-153 | `l[:k] + l[k:] == l` for every non-negative `k`, also past the end |
| `Store.YAPickleDB.constructor` | ya_pickledb/pickledb.py:33-42 | a new store holds the map loaded from its file, the given auto-dump flag, and has requested no dump |
| `Store.YAPickleDB.Dump` | ya_pickledb/pickledb.py:44-54 | a dump writes the current map, after any earlier dump |
| `Store.YAPickleDB.Commit` | ya_pickledb/pickledb.py:56-57 | `commit` dumps regardless of auto-dump |
| `Store.YAPickleDB.AutoDumpDb` | ya_pickledb/pickledb.py:69-72 | the map is dumped exactly when auto-dump is on |
| `Store.YAPickleDB.Get` | ya_pickledb/pickledb.py:83-88 | the stored value for a present key; `False` for an absent key instead of an exception |
| `Store.YAPickleDB.GetAll` | ya_pickledb/pickledb.py:90-92 | the keys are exactly those for which `exists` holds |
| `Store.YAPickleDB.Exists` | ya_pickledb/pickledb.py:94-96 | `exists` is membership in the map |
| `Store.YAPickleDB.TotalKeys` | ya_pickledb/pickledb.py:106-113 | without a name, the number of keys `getall` returns; with a name, the `len` that `llen` gives |
| `Store.YAPickleDB.LGetAll` | ya_pickledb/pickledb.py:143-145 | the list has `llen` elements |
| `Store.YAPickleDB.LGet` | ya_pickledb/pickledb.py:147-149 | `lget(pos)` is the element at `pos`, and `lexists` holds of it |
| `Store.YAPickleDB.LRange` | ya_pickledb/pickledb.py:151-153 | the slice is no longer than the list, only holds list elements, and with in-range bounds is exactly `start .. end-1`; the list is unchanged (a function) |
| `Store.YAPickleDB.LLen` | ya_pickledb/pickledb.py:175-177 | the number of elements of a list (or of keys, characters) |
| `Store.YAPickleDB.LExists` | ya_pickledb/pickledb.py:186-188 | membership in the list `lgetall` returns |
| `Store.YAPickleDB.DGet` | ya_pickledb/pickledb.py:205-207 | the value of a present key is one of the dict's values |
| `Store.YAPickleDB.DGetAll` | ya_pickledb/pickledb.py:209-211 | the dict's keys are those `dkeys` gives, and each maps to what `dget` gives |
| `Store.YAPickleDB.DKeys` | ya_pickledb/pickledb.py:226-228 | the keys of the dict; as many as its `len` |
| `Store.YAPickleDB.DVals` | ya_pickledb/pickledb.py:230-232 | a value is listed exactly when some key maps to it |
| `Store.YAPickleDB.DExists` | ya_pickledb/pickledb.py:234-236 | `dexists` is membership in `dkeys` |
| `Store.YAPickleDB.Set` | ya_pickledb/pickledb.py:74-81 | a string key: returns True, `get` then yields the value, every other key is unchanged, one auto-dump; a non-string key raises KeyStringError and changes nothing |
| `Store.YAPickleDB.Rem` | ya_pickledb/pickledb.py:98-104 | absent key: returns False, map and dump log unchanged; present key: removes exactly that key, returns True, `totalkeys` drops by one; `exists` is false afterwards either way |
| `Store.YAPickleDB.Append` | ya_pickledb/pickledb.py:115-120 | returns True; the key's value becomes old value `+ more`; nothing else changes |
| `Store.YAPickleDB.DelDb` | ya_pickledb/pickledb.py:246-250 | returns True; afterwards `totalkeys()` is 0 and `getall()` is empty |
| `Store.YAPickleDB.LCreate` | ya_pickledb/pickledb.py:122-129 | a string name then holds an empty list (`llen` 0); a non-string name raises KeyStringError and changes nothing |
| `Store.YAPickleDB.LAdd` | ya_pickledb/pickledb.py:131-135 | returns True; the list becomes the old list plus `value` at the end: `llen` grows by one and `lexists(value)` holds |
| `Store.YAPickleDB.LExtend` | ya_pickledb/pickledb.py:137-141 | returns True; the list becomes the old list followed by `seq`, `llen` grows by its length |
| `Store.YAPickleDB.LRemList` | ya_pickledb/pickledb.py:155-160 | returns the old length and removes the key |
| `Store.YAPickleDB.LRemValue` | ya_pickledb/pickledb.py:162-166 | returns True; the first occurrence of `value` is removed, `llen` drops by one, and `value` stays present only if it occurred twice |
| `Store.YAPickleDB.LPop` | ya_pickledb/pickledb.py:168-173 | returns the element that was at `pos`; the list loses exactly that element, is one shorter, and with the popped value is a permutation of the old list |
| `Store.YAPickleDB.LAppend` | ya_pickledb/pickledb.py:179-184 | returns True; the element at `pos` becomes old element `+ more`, the list keeps its length |
| `Store.YAPickleDB.DCreate` | ya_pickledb/pickledb.py:190-197 | a string name then holds an empty dict; a non-string name raises KeyStringError and changes nothing |
| `Store.YAPickleDB.DAdd` | ya_pickledb/pickledb.py:199-203 | returns True; the pair's key then maps to the pair's value, and the dict's keys grow by at most that key |
| `Store.YAPickleDB.DRem` | ya_pickledb/pickledb.py:213-217 | returns True; removes exactly the key, whatever its value |
| `Store.YAPickleDB.DPop` | ya_pickledb/pickledb.py:219-224 | returns the old value of `key` and removes just that key from the dict |
| `Store.YAPickleDB.DMerge` | ya_pickledb/pickledb.py:238-244 | returns True; dict 1 maps every key of dict 2 to dict 2's value and keeps its other pairs; its keys are the union; dict 2 is unchanged |
| `Scenarios.SetThenGet` | tests/test_ya_pickledb.py:9-13 | `set('key', 'value')` then `get('key')` yields `'value'` |
| `Scenarios.GetAllAfterDelDb` | tests/test_ya_pickledb.py:16-25 | after `deldb`, two sets, a `dcreate` and an `lcreate`, `getall` is exactly those four keys |
| `Scenarios.GetAfterRem` | tests/test_ya_pickledb.py:35-40 | `get` of a removed key is False |
| `Scenarios.AppendString` | tests/test_ya_pickledb.py:43-48 | appending `'value'` to `'value'` yields `'valuevalue'` |
| `Scenarios.ExistsAfterSet` | tests/test_ya_pickledb.py:51-64 | a key just set exists; `'not_key'` exists only if the loaded file had it |
| `Scenarios.LExistsAfterLAdd` | tests/test_ya_pickledb.py:67-82 | after `lcreate` and `ladd('value')`, `lexists('value')` holds and `lexists('not_value')` does not |
| `Scenarios.LRangeOfFour` | tests/test_ya_pickledb.py:85-94 | `lrange(1, 3)` of `[one, two, three, four]` is `[two, three]` |
| `Scenarios.DExistsAfterDAdd` | tests/test_ya_pickledb.py:97-112 | after `dcreate` and `dadd(('key', 'value'))`, `dexists('key')` holds and `dexists('not_key')` does not |
| `Scenarios.AutoDumpLog` | ya_pickledb/pickledb.py:69-104 | with auto-dump on, a successful `set` and `rem` each dump the map they produced; a rejected `set` and a `rem` of an absent key dump nothing |
| `TtlCache.TempObj.IsExpired` | ya_pickledb/cache.py:9-10 | an entry is expired strictly after its expiry instant, not at it |
| `TtlCache.NewTempObj` | ya_pickledb/cache.py:5-10 | an entry made at `now` with `max_age` is not expired up to `now + max_age` and expired strictly after it |
| `TtlCache.Find` | ya_pickledb/cache.py:19-25 | the index of the first entry with the key; None exactly when no entry has it |
| `TtlCache.Lookup` | ya_pickledb/cache.py:19-25 | the first matching entry, or None exactly when no entry matches |
| `TtlCache.Without` | ya_pickledb/cache.py:31-35 | no match: unchanged; else one shorter, with entries before the match in place and entries after it shifted down by one |
| `TtlCache.LookupAfterAdd` | ya_pickledb/cache.py:27-29 | appending never replaces: the first entry for a key stays the same, and the new entry is found only for a key that had none |
| `TtlCache.DeleteAfterAdd` | ya_pickledb/cache.py:27-35 | deleting a key just added, which had no entry before, restores the cache |
| `TtlCache.LookupAfterDelete` | ya_pickledb/cache.py:31-35 | deleting one key leaves the first entry of every other key unchanged |
| `TtlCache.Cache.constructor` | ya_pickledb/cache.py:16-17 | a new cache is empty |
| `TtlCache.Cache.GetByKey` | ya_pickledb/cache.py:19-25 | the front-to-back search with `break` returns the first matching entry, or None |
| `TtlCache.Cache.AddKeyToCache` | ya_pickledb/cache.py:27-29 | appends one entry at the end; earlier entries are untouched and an existing entry for the key stays the one found |
| `TtlCache.Cache.DeleteKey` | ya_pickledb/cache.py:31-35 | the search with `pop(i)` and `break` removes only the first matching entry; no match is a no-op |
| `TtlCache.Cache.IsKeyExpired` | ya_pickledb/cache.py:37-39 | False when the key has no entry; otherwise the expiry of its first entry at `now` |
| `TtlCache.Cache.GetCachedKeys` | ya_pickledb/cache.py:41-42 | one key per entry, in order, expired or not; a key is listed exactly when it has an entry |
| `TtlCache.ShadowedEntryScenario` | ya_pickledb/cache.py:27-39 | of two entries for one key, the older decides expiry until deleted, then the newer does; one key stays listed |

## Left out

- Writing and reading the file is not modelled: `_dump`'s worker thread, `Util.dump_db` (JSON through `safer`, under `db_lock`), `_loaddb` and `load`. These are file I/O through foreign libraries. A dump is a snapshot appended to the ghost log `dumps`. Loading becomes the constructor's `loaded` map.
- A failed write is not modelled. `Util.dump_db` raises `FileAccessError` (ya_pickledb/pickledb.py:263-264) inside the worker thread that `_dump` starts (ya_pickledb/pickledb.py:49-53), so no caller ever sees it, and `set` and the other mutators still return normally. When the error is raised at ya_pickledb/pickledb.py:259 (opening the file) or 260 (`json.dump`, for example on a value JSON cannot encode), the release at line 261 is skipped: `db_lock`, taken at line 258, stays held and the next dump waits on it forever. An error raised when the `with` block closes the file comes after the release, so the lock is free again. The model's dumps always succeed, and its error type has no `FileAccessError` case, since the store never raises one to its callers.
- Threads and locks are not modelled: `Thread`, `Lock`, the `dthread` join, and ya_pickledb/db_thread.py. Each dump is joined before the call returns, so a sequential model sees the same order of dumps.
- The `atexit` hook that dumps at process exit is process lifecycle and is not modelled.
- The `__getitem__`, `__setitem__` and `__delitem__` sugar are `Get`, `Set` and `Rem` and have no members of their own.
- ya_pickledb/__init__.py is not part of this model. It calls the constructor with two arguments, but the constructor declares three.
- A raised `KeyError`, `IndexError`, `ValueError`, `TypeError` or `AttributeError` is a precondition, not a modelled error. Examples: a missing name, a name holding the wrong kind, an index out of range, `lremvalue` of an absent value, `dget`/`dpop` of an absent key, `append` of unaddable values. `KeyStringError`, which the store raises itself, is modelled as `Raised(KeyStringError)`.
- `get`, `exists` and `rem` take string keys. The map only ever holds string keys, so a non-string key is never present.
- Negative indices and negative slice bounds are not modelled. Omitted bounds and bounds past the end are modelled.
- Floats and tuples are not modelled. Nested dict keys are strings.
- Python's cross-kind equality (`1 == True`) is not modelled. `lexists`, `lremvalue` and `dvals` use the model's structural equality of `Value`.
- Aliasing is not modelled. Python stores and returns the same list or dict object, so a list passed to `set` or returned by `lgetall` changes when the store changes it. Model values are immutable.
- The insertion order of keys is not modelled. `getall` and `dkeys` are sets.
- `Store.YAPickleDB.DVals`: returns the set of values. The source's view repeats a value once for each key that maps to it.
- `Store.YAPickleDB.LGetAll`: defined only when the name holds a list. The source returns whatever value is stored (ya_pickledb/pickledb.py:145).
- `Store.YAPickleDB.LGet`: defined only on lists. On a string, the source returns one character (ya_pickledb/pickledb.py:149).
- `Store.YAPickleDB.LRange`: defined only on lists. On a string, the source returns a substring (ya_pickledb/pickledb.py:153).
- `Store.YAPickleDB.DGetAll`: defined only when the name holds a dict. The source returns whatever value is stored (ya_pickledb/pickledb.py:211).
- `Store.YAPickleDB.DExists`: defined only on dicts. On a list, the source tests element membership, and on a string it tests for a substring (ya_pickledb/pickledb.py:236).
- `Store.YAPickleDB.DMerge`: `name2` must hold a dict. `dict.update` (ya_pickledb/pickledb.py:242) also accepts a list of two-element lists or of two-character strings.
- `Store.YAPickleDB.LExtend`: `more` is a sequence of values. `list.extend` (ya_pickledb/pickledb.py:139) takes any iterable, so a string argument appends its characters one by one.
- `Store.YAPickleDB.LExists`: defined on lists only. Python's `in` also works on strings (substring) and dicts (key).
- `Values.Plus`: only string + string, list + list and int + int. Mixed kinds such as `bool + int` are not modelled.
- `TtlCache.NewTempObj`: the clock counts whole ticks. Microsecond resolution and fractional `max_age` seconds are not modelled.
