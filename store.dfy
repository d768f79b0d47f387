/**
 * The key-value store of ya_pickledb: an in-memory map from string keys to
 * values, updated in place by every mutator, and handed to the persistence
 * layer after each mutation when auto-dump is on.
 *
 * Writing the file is not modelled; each request to write it is recorded as
 * the snapshot that would be written, in the ghost log `dumps`.
 */
module Store {
  import opened Wrappers
  import opened Values

  class YAPickleDB {
    /** The database: every key the store holds and its value. */
    var db: map<string, Value>
    /** Whether every mutation is followed by a dump. */
    var autoDump: bool
    /** The snapshots handed to the persistence layer, oldest first. */
    ghost var dumps: seq<map<string, Value>>

    /**
     * A store over the map read from its file (the empty map when the file
     * does not exist yet).
     */
    constructor (loaded: map<string, Value>, autoDump: bool)
      ensures db == loaded && this.autoDump == autoDump && dumps == []
    {
      db := loaded;
      this.autoDump := autoDump;
      dumps := [];
    }

    /** The dump log after one auto-dump request made from `before`. */
    ghost function Dumped(before: seq<map<string, Value>>): seq<map<string, Value>>
      reads this
    {
      if autoDump then before + [db] else before
    }

    /** Writes the current map to the file. */
    method Dump()
      modifies this`dumps
      ensures dumps == old(dumps) + [db]
    {
      dumps := dumps + [db];
    }

    /** Writes the current map to the file, whatever auto-dump says. */
    method Commit()
      modifies this`dumps
      ensures dumps == old(dumps) + [db]
    {
      Dump();
    }

    /** Writes the current map to the file only when auto-dump is on. */
    method AutoDumpDb()
      modifies this`dumps
      ensures dumps == Dumped(old(dumps))
    {
      if autoDump {
        Dump();
      }
    }

    // ---------------------------------------------------------------------
    // Readers
    // ---------------------------------------------------------------------

    /** The value stored under `key`, or `False` when there is none. */
    function Get(key: string): (r: Value)
      reads this
      ensures key in db ==> r == db[key]
      ensures key !in db ==> r == Bool(false)
    {
      if key in db then db[key] else Bool(false)
    }

    /** The keys of the database. */
    function GetAll(): (keys: set<string>)
      reads this
      ensures forall k :: k in keys <==> Exists(k)
    {
      db.Keys
    }

    /** Whether `key` is in the database. */
    function Exists(key: string): (b: bool)
      reads this
      ensures b <==> key in db
    {
      key in db
    }

    /**
     * With no name, the number of keys in the database; with a name, the
     * length of the string, list or dict stored under it.
     */
    function TotalKeys(name: Option<string>): (n: nat)
      reads this
      requires name.Some? ==> name.value in db && Sized(db[name.value])
      ensures name.None? ==> n == |GetAll()|
      ensures name.Some? ==> n == LLen(name.value)
    {
      match name
      case None => |db|
      case Some(k) => Len(db[k])
    }

    /** `name` holds a list. */
    predicate IsList(name: string)
      reads this
    {
      name in db && db[name].List?
    }

    /** `name` holds a dict. */
    predicate IsDict(name: string)
      reads this
    {
      name in db && db[name].Dict?
    }

    /** All the elements of the list `name`. */
    function LGetAll(name: string): (items: seq<Value>)
      reads this
      requires IsList(name)
      ensures |items| == LLen(name)
    {
      db[name].items
    }

    /** The element at `pos` of the list `name`. */
    function LGet(name: string, pos: nat): (v: Value)
      reads this
      requires IsList(name) && pos < |db[name].items|
      ensures LExists(name, v)
      ensures v == LGetAll(name)[pos]
    {
      db[name].items[pos]
    }

    /** The slice `start:end` of the list `name`; the list is not modified. */
    function LRange(name: string, start: Option<nat>, end: Option<nat>): (r: seq<Value>)
      reads this
      requires IsList(name)
      ensures |r| <= LLen(name)
      ensures forall v :: v in r ==> LExists(name, v)
      ensures start.Some? && end.Some? && start.value <= end.value <= LLen(name) ==>
                r == LGetAll(name)[start.value..end.value]
    {
      Slice(db[name].items, start, end)
    }

    /** Python's `len` of the value stored under `name`. */
    function LLen(name: string): (n: nat)
      reads this
      requires name in db && Sized(db[name])
      ensures db[name].List? ==> n == |db[name].items|
      ensures db[name].Dict? ==> n == |db[name].entries.Keys|
      ensures db[name].Str? ==> n == |db[name].s|
    {
      Len(db[name])
    }

    /** Whether `value` is an element of the list `name`. */
    function LExists(name: string, value: Value): (b: bool)
      reads this
      requires IsList(name)
      ensures b <==> value in LGetAll(name)
    {
      value in db[name].items
    }

    /** The value under `key` in the dict `name`. */
    function DGet(name: string, key: string): (v: Value)
      reads this
      requires IsDict(name) && key in db[name].entries
      ensures v in DVals(name)
    {
      db[name].entries[key]
    }

    /** All the pairs of the dict `name`. */
    function DGetAll(name: string): (d: map<string, Value>)
      reads this
      requires IsDict(name)
      ensures d.Keys == DKeys(name)
      ensures forall k :: k in d ==> DGet(name, k) == d[k]
    {
      db[name].entries
    }

    /** The keys of the dict `name`. */
    function DKeys(name: string): (keys: set<string>)
      reads this
      requires IsDict(name)
      ensures forall k :: k in keys <==> k in db[name].entries
      ensures |keys| == LLen(name)
    {
      db[name].entries.Keys
    }

    /** The values of the dict `name`, each one once. */
    function DVals(name: string): (vals: set<Value>)
      reads this
      requires IsDict(name)
      ensures forall v :: v in vals <==> exists k :: k in db[name].entries && db[name].entries[k] == v
    {
      db[name].entries.Values
    }

    /** Whether `key` is a key of the dict `name`. */
    function DExists(name: string, key: string): (b: bool)
      reads this
      requires IsDict(name)
      ensures b <==> key in DKeys(name)
    {
      key in db[name].entries
    }

    // ---------------------------------------------------------------------
    // Mutators of the top-level map
    // ---------------------------------------------------------------------

    /**
     * Stores `value` under `key`. A key that is not a string raises
     * KeyStringError and changes nothing.
     */
    method Set(key: Value, value: Value) returns (r: Result<bool>)
      modifies this`db, this`dumps
      ensures !key.Str? ==> r == Raised(KeyStringError) && db == old(db) && dumps == old(dumps)
      ensures key.Str? ==> r == Ok(true) && db == old(db)[key.s := value]
                           && dumps == Dumped(old(dumps))
      ensures key.Str? ==> Get(key.s) == value
      ensures forall k :: !(key.Str? && k == key.s) ==> Get(k) == old(Get(k))
    {
      if !key.Str? {
        return Raised(KeyStringError);
      }
      db := db[key.s := value];
      AutoDumpDb();
      return Ok(true);
    }

    /**
     * Deletes `key`. An absent key is reported with `false` and changes
     * nothing, not even the dump log.
     */
    method Rem(key: string) returns (removed: bool)
      modifies this`db, this`dumps
      ensures removed == old(Exists(key))
      ensures !removed ==> db == old(db) && dumps == old(dumps)
      ensures removed ==> db == old(db) - {key} && dumps == Dumped(old(dumps))
      ensures !Exists(key)
      ensures forall k :: k != key ==> Get(k) == old(Get(k))
      ensures TotalKeys(None) == if removed then old(TotalKeys(None)) - 1 else old(TotalKeys(None))
    {
      if key !in db {
        return false;
      }
      db := db - {key};
      AutoDumpDb();
      return true;
    }

    /** Replaces the value under `key` by `value + more`; returns true. */
    method Append(key: string, more: Value) returns (ok: bool)
      requires key in db && Addable(db[key], more)
      modifies this`db, this`dumps
      ensures db == old(db)[key := Plus(old(db)[key], more)]
      ensures dumps == Dumped(old(dumps))
      ensures Get(key) == Plus(old(Get(key)), more)
      ensures ok
    {
      db := db[key := Plus(db[key], more)];
      AutoDumpDb();
      ok := true;
    }

    /** Empties the database; returns true. */
    method DelDb() returns (ok: bool)
      modifies this`db, this`dumps
      ensures db == map[]
      ensures TotalKeys(None) == 0 && GetAll() == {}
      ensures dumps == Dumped(old(dumps))
      ensures ok
    {
      db := map[];
      AutoDumpDb();
      ok := true;
    }

    // ---------------------------------------------------------------------
    // Lists
    // ---------------------------------------------------------------------

    /**
     * Stores an empty list under `name`. A name that is not a string raises
     * KeyStringError and changes nothing.
     */
    method LCreate(name: Value) returns (r: Result<bool>)
      modifies this`db, this`dumps
      ensures !name.Str? ==> r == Raised(KeyStringError) && db == old(db) && dumps == old(dumps)
      ensures name.Str? ==> r == Ok(true) && db == old(db)[name.s := List([])]
                            && dumps == Dumped(old(dumps))
      ensures name.Str? ==> IsList(name.s) && LLen(name.s) == 0
    {
      if !name.Str? {
        return Raised(KeyStringError);
      }
      db := db[name.s := List([])];
      AutoDumpDb();
      return Ok(true);
    }

    /** Appends `value` at the end of the list `name`; returns true. */
    method LAdd(name: string, value: Value) returns (ok: bool)
      requires IsList(name)
      modifies this`db, this`dumps
      ensures db == old(db)[name := List(old(db)[name].items + [value])]
      ensures dumps == Dumped(old(dumps))
      ensures IsList(name) && LGetAll(name) == old(LGetAll(name)) + [value]
      ensures LLen(name) == old(LLen(name)) + 1
      ensures LExists(name, value)
      ensures ok
    {
      db := db[name := List(db[name].items + [value])];
      AutoDumpDb();
      ok := true;
    }

    /**
     * Appends the elements of `more`, in order, at the end of the list
     * `name`; returns true.
     */
    method LExtend(name: string, more: seq<Value>) returns (ok: bool)
      requires IsList(name)
      modifies this`db, this`dumps
      ensures db == old(db)[name := List(old(db)[name].items + more)]
      ensures dumps == Dumped(old(dumps))
      ensures IsList(name) && LGetAll(name) == old(LGetAll(name)) + more
      ensures LLen(name) == old(LLen(name)) + |more|
      ensures ok
    {
      db := db[name := List(db[name].items + more)];
      AutoDumpDb();
      ok := true;
    }

    /** Deletes `name` and returns the length its value had. */
    method LRemList(name: string) returns (n: nat)
      requires name in db && Sized(db[name])
      modifies this`db, this`dumps
      ensures n == old(LLen(name))
      ensures db == old(db) - {name} && !Exists(name)
      ensures dumps == Dumped(old(dumps))
    {
      n := Len(db[name]);
      db := db - {name};
      AutoDumpDb();
    }

    /** Removes the first occurrence of `value` from the list `name`; returns true. */
    method LRemValue(name: string, value: Value) returns (ok: bool)
      requires IsList(name) && LExists(name, value)
      modifies this`db, this`dumps
      ensures db == old(db)[name := List(RemoveFirst(old(db)[name].items, value))]
      ensures dumps == Dumped(old(dumps))
      ensures IsList(name) && LLen(name) == old(LLen(name)) - 1
      ensures LExists(name, value) <==> multiset(old(LGetAll(name)))[value] >= 2
      ensures ok
    {
      RemoveFirstKeepsDuplicates(db[name].items, value);
      db := db[name := List(RemoveFirst(db[name].items, value))];
      AutoDumpDb();
      ok := true;
    }

    /** Removes the element at `pos` of the list `name` and returns it. */
    method LPop(name: string, pos: nat) returns (v: Value)
      requires IsList(name) && pos < LLen(name)
      modifies this`db, this`dumps
      ensures v == old(LGet(name, pos))
      ensures db == old(db)[name := List(RemoveAt(old(db)[name].items, pos))]
      ensures dumps == Dumped(old(dumps))
      ensures IsList(name) && LLen(name) == old(LLen(name)) - 1
      ensures multiset(LGetAll(name)) + multiset{v} == multiset(old(LGetAll(name)))
    {
      v := db[name].items[pos];
      db := db[name := List(RemoveAt(db[name].items, pos))];
      AutoDumpDb();
    }

    /**
     * Replaces the element at `pos` of the list `name` by `element + more`;
     * returns true.
     */
    method LAppend(name: string, pos: nat, more: Value) returns (ok: bool)
      requires IsList(name) && pos < LLen(name) && Addable(db[name].items[pos], more)
      modifies this`db, this`dumps
      ensures db == old(db)[name := List(old(db)[name].items[pos := Plus(old(db)[name].items[pos], more)])]
      ensures dumps == Dumped(old(dumps))
      ensures IsList(name) && LLen(name) == old(LLen(name))
      ensures ok
    {
      var items := db[name].items;
      db := db[name := List(items[pos := Plus(items[pos], more)])];
      AutoDumpDb();
      ok := true;
    }

    // ---------------------------------------------------------------------
    // Dicts
    // ---------------------------------------------------------------------

    /**
     * Stores an empty dict under `name`. A name that is not a string raises
     * KeyStringError and changes nothing.
     */
    method DCreate(name: Value) returns (r: Result<bool>)
      modifies this`db, this`dumps
      ensures !name.Str? ==> r == Raised(KeyStringError) && db == old(db) && dumps == old(dumps)
      ensures name.Str? ==> r == Ok(true) && db == old(db)[name.s := Dict(map[])]
                            && dumps == Dumped(old(dumps))
      ensures name.Str? ==> IsDict(name.s) && DKeys(name.s) == {}
    {
      if !name.Str? {
        return Raised(KeyStringError);
      }
      db := db[name.s := Dict(map[])];
      AutoDumpDb();
      return Ok(true);
    }

    /** Sets `pair.0` to `pair.1` in the dict `name`; returns true. */
    method DAdd(name: string, pair: (string, Value)) returns (ok: bool)
      requires IsDict(name)
      modifies this`db, this`dumps
      ensures db == old(db)[name := Dict(old(db)[name].entries[pair.0 := pair.1])]
      ensures dumps == Dumped(old(dumps))
      ensures IsDict(name) && DExists(name, pair.0) && DGet(name, pair.0) == pair.1
      ensures DKeys(name) == old(DKeys(name)) + {pair.0}
      ensures ok
    {
      db := db[name := Dict(db[name].entries[pair.0 := pair.1])];
      AutoDumpDb();
      ok := true;
    }

    /** Deletes `name`, whatever its value; returns true. */
    method DRem(name: string) returns (ok: bool)
      requires name in db
      modifies this`db, this`dumps
      ensures db == old(db) - {name} && !Exists(name)
      ensures dumps == Dumped(old(dumps))
      ensures ok
    {
      db := db - {name};
      AutoDumpDb();
      ok := true;
    }

    /** Removes `key` from the dict `name` and returns its value. */
    method DPop(name: string, key: string) returns (v: Value)
      requires IsDict(name) && DExists(name, key)
      modifies this`db, this`dumps
      ensures v == old(DGet(name, key))
      ensures db == old(db)[name := Dict(old(db)[name].entries - {key})]
      ensures dumps == Dumped(old(dumps))
      ensures IsDict(name) && DKeys(name) == old(DKeys(name)) - {key}
    {
      v := db[name].entries[key];
      db := db[name := Dict(db[name].entries - {key})];
      AutoDumpDb();
    }

    /**
     * Copies every pair of the dict `name2` into the dict `name1`,
     * overwriting the values of keys the two share; returns true.
     */
    method DMerge(name1: string, name2: string) returns (ok: bool)
      requires IsDict(name1) && IsDict(name2)
      modifies this`db, this`dumps
      ensures db == old(db)[name1 := Dict(old(db)[name1].entries + old(db)[name2].entries)]
      ensures dumps == Dumped(old(dumps))
      ensures IsDict(name1) && IsDict(name2)
      ensures DKeys(name1) == old(DKeys(name1)) + old(DKeys(name2))
      ensures forall k :: k in old(DKeys(name2)) ==> DGet(name1, k) == old(DGet(name2, k))
      ensures forall k :: k in old(DKeys(name1)) && k !in old(DKeys(name2)) ==>
                DGet(name1, k) == old(DGet(name1, k))
      ensures name1 != name2 ==> db[name2] == old(db[name2])
      ensures ok
    {
      db := db[name1 := Dict(db[name1].entries + db[name2].entries)];
      AutoDumpDb();
      ok := true;
    }
  }
}
