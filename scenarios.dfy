/**
 * Callers of YAPickleDB that replay the repository's tests. Each test opens
 * a database file whose earlier contents are unknown, so every scenario
 * starts from an arbitrary loaded map.
 */
module Scenarios {
  import opened Wrappers
  import opened Values
  import opened Store

  /** `set` then `get` of the same key yields the value set. */
  method SetThenGet(loaded: map<string, Value>) returns (x: Value)
    ensures x == Str("value")
  {
    var db := new YAPickleDB(loaded, false);
    var _ := db.Set(Str("key"), Str("value"));
    x := db.Get("key");
  }

  /** After `deldb`, the keys are exactly the ones set and created afterwards. */
  method GetAllAfterDelDb(loaded: map<string, Value>) returns (keys: set<string>)
    ensures keys == {"key2", "key1", "dict1", "list1"}
  {
    var db := new YAPickleDB(loaded, false);
    var _ := db.DelDb();
    var _ := db.Set(Str("key1"), Str("value1"));
    var _ := db.Set(Str("key2"), Str("value2"));
    var _ := db.DCreate(Str("dict1"));
    var _ := db.LCreate(Str("list1"));
    keys := db.GetAll();
  }

  /** `get` of a removed key yields `False`. */
  method GetAfterRem(loaded: map<string, Value>) returns (x: Value)
    ensures x == Bool(false)
  {
    var db := new YAPickleDB(loaded, false);
    var _ := db.Set(Str("key"), Str("value"));
    var _ := db.Rem("key");
    x := db.Get("key");
  }

  /** `append` concatenates onto a string value. */
  method AppendString(loaded: map<string, Value>) returns (x: Value)
    ensures x == Str("valuevalue")
  {
    var db := new YAPickleDB(loaded, false);
    var _ := db.Set(Str("key"), Str("value"));
    var _ := db.Append("key", Str("value"));
    x := db.Get("key");
  }

  /** `exists` holds for a key just set and fails for a key never set. */
  method ExistsAfterSet(loaded: map<string, Value>) returns (present: bool, other: bool)
    ensures present
    ensures other == ("not_key" in loaded)
  {
    var db := new YAPickleDB(loaded, false);
    var _ := db.Set(Str("key"), Str("value"));
    present := db.Exists("key");
    other := db.Exists("not_key");
    var _ := db.Rem("key");
  }

  /** A value added to a fresh list is in it; another value is not. */
  method LExistsAfterLAdd(loaded: map<string, Value>) returns (present: bool, other: bool)
    ensures present && !other
  {
    var db := new YAPickleDB(loaded, false);
    var _ := db.LCreate(Str("list"));
    var _ := db.LAdd("list", Str("value"));
    present := db.LExists("list", Str("value"));
    other := db.LExists("list", Str("not_value"));
    var _ := db.LRemList("list");
  }

  /** Elements 1 and 2 of a list built by four appends to the empty list. */
  lemma SecondAndThird(a: Value, b: Value, c: Value, d: Value)
    ensures ([] + [a] + [b] + [c] + [d])[1..3] == [b, c]
  {
  }

  /** `lrange(1, 3)` of a four-element list yields its second and third elements. */
  method LRangeOfFour(loaded: map<string, Value>) returns (x: seq<Value>)
    ensures x == [Str("two"), Str("three")]
  {
    var db := new YAPickleDB(loaded, false);
    var _ := db.LCreate(Str("list"));
    var _ := db.LAdd("list", Str("one"));
    var _ := db.LAdd("list", Str("two"));
    var _ := db.LAdd("list", Str("three"));
    var _ := db.LAdd("list", Str("four"));
    SecondAndThird(Str("one"), Str("two"), Str("three"), Str("four"));
    x := db.LRange("list", Some(1), Some(3));
  }

  /** A key added to a fresh dict exists in it; another key does not. */
  method DExistsAfterDAdd(loaded: map<string, Value>) returns (present: bool, other: bool)
    ensures present && !other
  {
    var db := new YAPickleDB(loaded, false);
    var _ := db.DCreate(Str("dict"));
    var _ := db.DAdd("dict", ("key", Str("value")));
    present := db.DExists("dict", "key");
    other := db.DExists("dict", "not_key");
    var _ := db.DRem("dict");
  }

  /**
   * With auto-dump on, each successful mutation requests exactly one dump
   * of the map it produced; a rejected `set` and a `rem` of an absent key
   * request none.
   */
  method AutoDumpLog(loaded: map<string, Value>) returns (ghost log: seq<map<string, Value>>)
    requires "absent" !in loaded
    ensures |log| == 2
    ensures log[0] == loaded["a" := Int(1)]
    ensures log[1] == loaded["a" := Int(1)] - {"a"}
  {
    var db := new YAPickleDB(loaded, true);
    var _ := db.Set(Str("a"), Int(1));
    var _ := db.Set(Int(7), Int(2));
    var _ := db.Rem("absent");
    var _ := db.Rem("a");
    log := db.dumps;
  }
}
