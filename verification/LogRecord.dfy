/** A caller's log fields on a record that already has attributes of its own: colliding
    names are renamed on the way in and given back on the way out (logging_config.py). */
module LogRecord {
  import opened Results

  const FIELD_KEYS := "_log_field_keys"
  const DROPPED: set<string> := {"color_message"}
  const EXTRA := "extra_"

  /** A record: its attributes, and where each caller field was written. The second sits in
      the record's own dict under `FIELD_KEYS`. */
  datatype Record<V> = Record(attributes: map<string, V>, names: map<string, string>)

  /** The names a new attribute may not take: the record's, the one that keeps the field
      names, and those of every record. */
  function Taken<V>(r: Record<V>, attrs: set<string>): set<string> {
    r.attributes.Keys + {FIELD_KEYS} + attrs
  }

  // ---- A free name ----

  function Prefixed(key: string, n: nat): string {
    if n == 0 then key else EXTRA + Prefixed(key, n - 1)
  }

  ghost function AtLeast(taken: set<string>, length: nat): set<string> {
    set k | k in taken && |k| >= length
  }

  /** The taken names that are long enough to be met again: one fewer each turn. */
  lemma FewerLeft(taken: set<string>, key: string)
    requires key in taken
    ensures |AtLeast(taken, |EXTRA + key|)| < |AtLeast(taken, |key|)|
  {
    var now, later := AtLeast(taken, |key|), AtLeast(taken, |EXTRA + key|);
    assert later <= now - {key};
    SubsetSize(later, now - {key});
  }

  /** The least number of prefixes that frees the name. */
  ghost function Prefixes(key: string, taken: set<string>): (n: nat)
    ensures Prefixed(key, n) !in taken
    ensures forall m :: 0 <= m < n ==> Prefixed(key, m) in taken
    decreases |AtLeast(taken, |key|)|
  {
    if key !in taken then 0
    else
      FewerLeft(taken, key);
      var n := Prefixes(EXTRA + key, taken);
      assert forall m: nat :: Prefixed(EXTRA + key, m) == Prefixed(key, m + 1) by {
        forall m: nat ensures Prefixed(EXTRA + key, m) == Prefixed(key, m + 1) { PrefixedMore(key, m); }
      }
      assert forall m :: 0 <= m < n + 1 ==> Prefixed(key, m) in taken by {
        forall m | 0 <= m < n + 1 ensures Prefixed(key, m) in taken {
          if m > 0 { assert Prefixed(EXTRA + key, m - 1) == Prefixed(key, m); }
        }
      }
      n + 1
  }

  lemma {:induction false} PrefixedMore(key: string, m: nat)
    ensures Prefixed(EXTRA + key, m) == Prefixed(key, m + 1)
  {
    if m > 0 {
      PrefixedMore(key, m - 1);
    }
  }

  method FreeKey(key: string, taken: set<string>) returns (free: string)
    ensures free == Prefixed(key, Prefixes(key, taken)) && free !in taken
  {
    free := key;
    ghost var n := 0;
    while free in taken
      invariant free == Prefixed(key, n) && n <= Prefixes(key, taken)
      decreases |AtLeast(taken, |free|)|
    {
      FewerLeft(taken, free);
      free := EXTRA + free;
      n := n + 1;
    }
  }

  // ---- Writing and reading the fields ----

  /** A caller's fields in the order they come, each name once. */
  predicate Fields<V>(extra: seq<(string, V)>) {
    forall i, j :: 0 <= i < j < |extra| ==> extra[i].0 != extra[j].0
  }

  function AsMap<V>(extra: seq<(string, V)>, count: nat): map<string, V>
    requires count <= |extra|
  {
    if count == 0 then map[] else AsMap(extra, count - 1)[extra[count - 1].0 := extra[count - 1].1]
  }

  lemma {:induction false} AsMapHas<V>(extra: seq<(string, V)>, count: nat)
    requires Fields(extra) && count <= |extra|
    ensures forall i :: 0 <= i < count ==>
              extra[i].0 in AsMap(extra, count) && AsMap(extra, count)[extra[i].0] == extra[i].1
    ensures forall i :: count <= i < |extra| ==> extra[i].0 !in AsMap(extra, count)
  {
    if count > 0 {
      AsMapHas(extra, count - 1);
    }
  }

  ghost function Own<V>(r: Record<V>): set<string> {
    set name | name in r.names :: r.names[name]
  }

  /** Each field has an attribute of its own, which is no attribute of any other record. */
  ghost predicate Held<V>(r: Record<V>, base: map<string, V>, attrs: set<string>, name: string, value: V) {
    && name in r.names
    && r.names[name] !in base && r.names[name] !in attrs && r.names[name] != FIELD_KEYS
    && r.names[name] in r.attributes && r.attributes[r.names[name]] == value
  }

  /** Every field is held, no two under one name. */
  ghost predicate FieldsHeld<V>(r: Record<V>, base: map<string, V>, attrs: set<string>, fields: map<string, V>) {
    && r.names.Keys == fields.Keys
    && (forall name :: name in fields ==> Held(r, base, attrs, name, fields[name]))
    && (forall a, b :: a in r.names && b in r.names && r.names[a] == r.names[b] ==> a == b)
  }

  /** The attributes are the record's own, as they were, and those of the fields. */
  ghost predicate OthersKept<V>(r: Record<V>, base: map<string, V>) {
    && (forall k :: k in base ==> k in r.attributes && r.attributes[k] == base[k])
    && (forall k :: k in r.attributes ==> k in base || k in Own(r))
  }

  ghost predicate Holds<V>(r: Record<V>, base: map<string, V>, attrs: set<string>, fields: map<string, V>) {
    FieldsHeld(r, base, attrs, fields) && OthersKept(r, base)
  }

  /** `makeRecord`: a field whose name is taken is written under a free one. */
  method MakeRecord<V>(made: map<string, V>, attrs: set<string>, extra: seq<(string, V)>) returns (r: Record<V>)
    requires Fields(extra)
    ensures Holds(r, made - {FIELD_KEYS}, attrs, AsMap(extra, |extra|))
  {
    var base := made - {FIELD_KEYS};
    r := Record(base, map[]);
    for i := 0 to |extra|
      invariant Holds(r, base, attrs, AsMap(extra, i))
    {
      var (key, value) := extra[i];
      var free := FreeKey(key, Taken(r, attrs));
      AsMapHas(extra, i);
      OneMoreField(r, base, attrs, AsMap(extra, i), key, value, free);
      r := Record(r.attributes[free := value], r.names[key := free]);
    }
  }

  lemma OwnOneMore<V>(r: Record<V>, key: string, value: V, free: string)
    requires key !in r.names
    ensures Own(Record(r.attributes[free := value], r.names[key := free])) == Own(r) + {free}
  {
    var after := Record(r.attributes[free := value], r.names[key := free]);
    forall k | k in Own(r) + {free} ensures k in Own(after) {
      if k == free {
        assert after.names[key] == k;
      } else {
        var name :| name in r.names && r.names[name] == k;
        assert after.names[name] == k;
      }
    }
  }

  lemma HeldStays<V>(r: Record<V>, base: map<string, V>, attrs: set<string>, name: string, held: V, key: string,
                     value: V, free: string)
    requires Held(r, base, attrs, name, held) && free !in Taken(r, attrs) && name != key
    ensures Held(Record(r.attributes[free := value], r.names[key := free]), base, attrs, name, held)
  {
  }

  lemma FieldsStay<V>(r: Record<V>, base: map<string, V>, attrs: set<string>, fields: map<string, V>,
                      key: string, value: V, free: string, name: string)
    requires FieldsHeld(r, base, attrs, fields) && key !in fields && free !in Taken(r, attrs) && name in fields
    ensures Held(Record(r.attributes[free := value], r.names[key := free]), base, attrs, name, fields[name])
    ensures r.names[name] != free
  {
    assert Held(r, base, attrs, name, fields[name]);
    HeldStays(r, base, attrs, name, fields[name], key, value, free);
  }

  /** One field more under a free name: all are held still, no two under one name. */
  lemma OneMoreHeld<V>(r: Record<V>, base: map<string, V>, attrs: set<string>, fields: map<string, V>,
                       key: string, value: V, free: string)
    requires FieldsHeld(r, base, attrs, fields) && key !in fields && free !in Taken(r, attrs) && free !in base
    ensures FieldsHeld(Record(r.attributes[free := value], r.names[key := free]), base, attrs, fields[key := value])
  {
    var after := Record(r.attributes[free := value], r.names[key := free]);
    assert after.names.Keys == fields[key := value].Keys;
    forall name | name in fields ensures Held(after, base, attrs, name, fields[name]) && r.names[name] != free {
      FieldsStay(r, base, attrs, fields, key, value, free, name);
    }
    assert Held(after, base, attrs, key, value);
  }

  /** The record's own attributes stay, and no other name is used. */
  lemma OthersStay<V>(r: Record<V>, base: map<string, V>, key: string, value: V, free: string)
    requires OthersKept(r, base) && key !in r.names && free !in base
    ensures OthersKept(Record(r.attributes[free := value], r.names[key := free]), base)
  {
    OwnOneMore(r, key, value, free);
  }

  lemma OneMoreField<V>(r: Record<V>, base: map<string, V>, attrs: set<string>, fields: map<string, V>,
                        key: string, value: V, free: string)
    requires Holds(r, base, attrs, fields) && key !in fields && free !in Taken(r, attrs)
    ensures Holds(Record(r.attributes[free := value], r.names[key := free]), base, attrs, fields[key := value])
  {
    OneMoreHeld(r, base, attrs, fields, key, value, free);
    OthersStay(r, base, key, value, free);
  }

  /** `_extras`: attributes no record has of its own, then the caller's fields by their own names. */
  ghost function Extras<V>(r: Record<V>, attrs: set<string>): map<string, V> {
    var other := map k | k in r.attributes && k !in attrs && k !in DROPPED && k !in Own(r)
        && k != FIELD_KEYS :: r.attributes[k];
    var fields := map name | name in r.names && r.names[name] in r.attributes
        && name !in DROPPED :: r.attributes[r.names[name]];
    other + fields
  }

  /** What the record's maker added beside a record's own attributes. */
  ghost function Added<V>(base: map<string, V>, attrs: set<string>): map<string, V> {
    map k | k in base && k !in attrs && k !in DROPPED && k != FIELD_KEYS :: base[k]
  }

  lemma NotOwn<V>(r: Record<V>, base: map<string, V>, attrs: set<string>, fields: map<string, V>, k: string)
    requires Holds(r, base, attrs, fields)
    ensures k in r.attributes && k !in Own(r) <==> k in base
  {
    assert forall name :: name in fields ==> Held(r, base, attrs, name, fields[name]);
  }

  /** However the names collide, with the record's or with each other's renamed forms, a line
      carries every caller field but the dropped ones under its own name with its own value,
      and beside them every attribute the record's maker added. */
  lemma ExtrasGiveBack<V>(r: Record<V>, base: map<string, V>, attrs: set<string>, fields: map<string, V>)
    requires Holds(r, base, attrs, fields)
    ensures Extras(r, attrs) == Added(base, attrs) + (fields - DROPPED)
  {
    var got, wanted := Extras(r, attrs), Added(base, attrs) + (fields - DROPPED);
    forall k ensures k in got <==> k in wanted
             ensures k in got && k in wanted ==> got[k] == wanted[k]
    {
      NotOwn(r, base, attrs, fields, k);
      if k in fields { assert Held(r, base, attrs, k, fields[k]); }
    }
  }
}
