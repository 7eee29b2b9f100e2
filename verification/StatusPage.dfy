/** Bringing a status page's stored items into the admin API's shapes
    (015_status_page_item_shapes.py). */
module StatusPage {
  import opened Results
  import opened Uuids

  /** A stored JSON value. */
  datatype Json =
    | Null
    | Bool(b: bool)
    | Num(n: real)
    | Str(s: string)
    | Arr(items: seq<Json>)
    | Obj(fields: map<string, Json>)

  /** What the migration takes from its platform: `int(text, 16)` on odd texts, which
      characters are refused in plain text, and the order an object lists its keys in. */
  datatype Platform = Platform(lenient: Lenient, refused: char -> bool, keyOrder: set<string> -> seq<string>)

  const CHECK_TYPES := {"ping", "http", "tcp", "json", "dns", "mysql", "postgres", "synthetic"}
  const SORT_BY := {"manual", "name", "status", "latency", "uptime"}
  const SORT_DIRECTIONS := {"asc", "desc"}
  const MAX_GROUP_CHECKS := 1000
  const MAX_TAGS := 50
  const MAX_TAG_LENGTH := 100
  const MAX_TEXT_LENGTH := 255

  /** `raw.get(key)`. */
  function Get(fields: map<string, Json>, key: string): Json {
    if key in fields then fields[key] else Null
  }

  predicate Truthy(v: Json) {
    match v
    case Null => false
    case Bool(b) => b
    case Num(n) => n != 0.0
    case Str(s) => s != ""
    case Arr(items) => items != []
    case Obj(fields) => fields != map[]
  }

  predicate IsText(v: Json, minLength: nat, maxLength: nat, p: Platform) {
    v.Str? && minLength <= |v.s| <= maxLength && forall i :: 0 <= i < |v.s| ==> !p.refused(v.s[i])
  }

  function OneOf(v: Json, allowed: set<string>, default: string): string {
    if v.Str? && v.s in allowed then v.s else default
  }

  function UuidOf(v: Json, p: Platform): Option<string> {
    if v.Str? then Uuid(v.s, p.lenient) else None
  }

  // ---- A filter ----

  predicate IsSet(key: string, v: Json) {
    Truthy(v) || (key == "search" && v == Str(""))
  }

  predicate AreTags(v: Json, p: Platform) {
    v.Arr? && |v.items| <= MAX_TAGS && forall i :: 0 <= i < |v.items| ==> IsText(v.items[i], 0, MAX_TAG_LENGTH, p)
  }

  /** The value a field is stored with, or None when it is not one it takes. */
  function FilterValue(key: string, v: Json, p: Platform): Option<Json> {
    if key == "agent_id" then
      if v.Str? && StoredUuid(v.s, p.lenient).Some? then Some(Str(StoredUuid(v.s, p.lenient).value)) else None
    else if key == "check_type" then
      if v.Str? && v.s in CHECK_TYPES then Some(v) else None
    else if key == "tags" then
      if AreTags(v, p) then Some(v) else None
    else if IsText(v, 0, MAX_TEXT_LENGTH, p) then Some(v) else None
  }

  const FILTER_FIELDS := ["agent_id", "check_type", "tags", "search"]

  /** The filter with the fields from one of `FILTER_FIELDS` on fixed, over those before it. */
  function FilterFrom(raw: map<string, Json>, at: nat, fixed: map<string, Json>, p: Platform): Option<map<string, Json>>
    requires at <= |FILTER_FIELDS|
    decreases |FILTER_FIELDS| - at
  {
    if at == |FILTER_FIELDS| then Some(fixed)
    else
      var key := FILTER_FIELDS[at];
      var v := Get(raw, key);
      if !IsSet(key, v) then FilterFrom(raw, at + 1, fixed, p)
      else if FilterValue(key, v, p).None? then None
      else FilterFrom(raw, at + 1, fixed[key := FilterValue(key, v, p).value], p)
  }

  function Filter(raw: map<string, Json>, p: Platform): Option<map<string, Json>> {
    FilterFrom(raw, 0, map["tags" := Arr([])], p)
  }

  // ---- A group and its checks ----

  function Listed(v: Json, p: Platform): seq<Json> {
    match v
    case Arr(items) => items
    case Obj(fields) => var keys := p.keyOrder(fields.Keys); seq(|keys|, i requires 0 <= i < |keys| => Str(keys[i]))
    case _ => []
  }

  /** The canonical ids among the values, each once, in the order they first come. */
  function Ids(values: seq<Json>, p: Platform): seq<string> {
    if values == [] then []
    else
      var before := Ids(values[..|values| - 1], p);
      match UuidOf(values[|values| - 1], p)
      case None => before
      case Some(id) => if id in before then before else before + [id]
  }

  function Checks(v: Json, p: Platform): seq<string> {
    var ids := Ids(Listed(v, p), p);
    if |ids| <= MAX_GROUP_CHECKS then ids else ids[..MAX_GROUP_CHECKS]
  }

  function Strings(ids: seq<string>): Json {
    Arr(seq(|ids|, i requires 0 <= i < |ids| => Str(ids[i])))
  }

  function Name(v: Json, p: Platform): string {
    if IsText(v, 1, MAX_TEXT_LENGTH, p) then v.s else "Group"
  }

  function GroupHead(raw: map<string, Json>, order: nat, p: Platform): map<string, Json> {
    map[
      "type" := Str("group"),
      "name" := Str(Name(Get(raw, "name"), p)),
      "order" := Num(order as real),
      "collapsed" := Bool(Get(raw, "collapsed") == Bool(true)),
      "sort_by" := Str(OneOf(Get(raw, "sort_by"), SORT_BY, "manual")),
      "sort_direction" := Str(OneOf(Get(raw, "sort_direction"), SORT_DIRECTIONS, "asc"))]
  }

  function Group(raw: map<string, Json>, order: nat, p: Platform): map<string, Json> {
    var head := GroupHead(raw, order, p);
    var filter := Get(raw, "filter");
    if filter.Obj? then
      var fixed := Filter(filter.fields, p);
      if fixed.None? then head["checks" := Arr([])] else head["filter" := Obj(fixed.value)]
    else head["checks" := Strings(Checks(Get(raw, "checks"), p))]
  }

  function CheckItem(id: string, order: nat): map<string, Json> {
    map["type" := Str("check"), "check_id" := Str(id), "order" := Num(order as real)]
  }

  /** The item a raw one becomes at a place, if any. */
  function Item(raw: Json, order: nat, p: Platform): Option<map<string, Json>> {
    if !raw.Obj? then None
    else if Get(raw.fields, "type") == Str("check") then
      match UuidOf(Get(raw.fields, "check_id"), p) case None => None case Some(id) => Some(CheckItem(id, order))
    else if Get(raw.fields, "type") == Str("group") then Some(Group(raw.fields, order, p))
    else None
  }

  function Normalized(items: seq<Json>, p: Platform): seq<Json> {
    if items == [] then []
    else
      var before := Normalized(items[..|items| - 1], p);
      match Item(items[|items| - 1], |before|, p)
      case None => before
      case Some(item) => before + [Obj(item)]
  }

  /** Goes through the stored items and rebuilds those that are known, each under the next number. */
  method Normalize(items: Json, p: Platform) returns (fixed: seq<Json>)
    ensures fixed == Normalized(if items.Arr? then items.items else [], p)
  {
    var raws := if items.Arr? then items.items else [];
    fixed := [];
    for i := 0 to |raws|
      invariant fixed == Normalized(raws[..i], p)
    {
      assert raws[..i + 1][..i] == raws[..i];
      var raw := raws[i];
      if raw.Obj? {
        if Get(raw.fields, "type") == Str("check") {
          var id := UuidOf(Get(raw.fields, "check_id"), p);
          if id.Some? { fixed := fixed + [Obj(CheckItem(id.value, |fixed|))]; }
        } else if Get(raw.fields, "type") == Str("group") {
          fixed := fixed + [Obj(Group(raw.fields, |fixed|, p))];
        }
      }
    }
    assert raws[..|raws|] == raws;
  }

  // ---- Doing it again changes nothing ----

  lemma FilterValueAgain(key: string, v: Json, p: Platform)
    requires IsSet(key, v) && FilterValue(key, v, p).Some?
    ensures FilterValue(key, FilterValue(key, v, p).value, p) == FilterValue(key, v, p)
    ensures IsSet(key, FilterValue(key, v, p).value)
  {
    if key == "agent_id" { UuidIsIdempotent(v.s, p.lenient); }
  }

  /** What each field of a fixed filter is. */
  ghost predicate FixedFrom(raw: map<string, Json>, at: nat, fixed: map<string, Json>, start: map<string, Json>,
                            p: Platform)
    requires at <= |FILTER_FIELDS|
  {
    && (forall i :: at <= i < |FILTER_FIELDS| && IsSet(FILTER_FIELDS[i], Get(raw, FILTER_FIELDS[i])) ==>
          FilterValue(FILTER_FIELDS[i], Get(raw, FILTER_FIELDS[i]), p) == Some(Get(fixed, FILTER_FIELDS[i]))
          && FILTER_FIELDS[i] in fixed)
    && (forall key :: (exists i :: at <= i < |FILTER_FIELDS| && FILTER_FIELDS[i] == key && IsSet(key, Get(raw, key)))
          || ((key in fixed <==> key in start) && Get(fixed, key) == Get(start, key)))
  }

  lemma FieldsDiffer(i: nat, j: nat)
    requires i < |FILTER_FIELDS| && j < |FILTER_FIELDS| && i != j
    ensures FILTER_FIELDS[i] != FILTER_FIELDS[j]
  {
    assert "agent_id"[0] == 'a' && "check_type"[0] == 'c' && "tags"[0] == 't' && "search"[0] == 's';
  }

  /** Which filters are kept: those whose every set field has a value it takes. */
  lemma {:induction false} FilterIsKept(raw: map<string, Json>, at: nat, start: map<string, Json>, p: Platform)
    requires at <= |FILTER_FIELDS|
    ensures FilterFrom(raw, at, start, p).Some? <==>
              forall i :: at <= i < |FILTER_FIELDS| && IsSet(FILTER_FIELDS[i], Get(raw, FILTER_FIELDS[i])) ==>
                FilterValue(FILTER_FIELDS[i], Get(raw, FILTER_FIELDS[i]), p).Some?
    decreases |FILTER_FIELDS| - at
  {
    if at < |FILTER_FIELDS| {
      var key := FILTER_FIELDS[at];
      var v := Get(raw, key);
      if !IsSet(key, v) {
        FilterIsKept(raw, at + 1, start, p);
      } else if FilterValue(key, v, p).Some? {
        FilterIsKept(raw, at + 1, start[key := FilterValue(key, v, p).value], p);
      }
    }
  }

  lemma {:induction false} FilterFromMeans(raw: map<string, Json>, at: nat, start: map<string, Json>, p: Platform)
    requires at <= |FILTER_FIELDS| && FilterFrom(raw, at, start, p).Some?
    ensures FixedFrom(raw, at, FilterFrom(raw, at, start, p).value, start, p)
    decreases |FILTER_FIELDS| - at
  {
    if at < |FILTER_FIELDS| {
      var key := FILTER_FIELDS[at];
      var v := Get(raw, key);
      forall j: nat | at < j < |FILTER_FIELDS| ensures FILTER_FIELDS[j] != key { FieldsDiffer(at, j); }
      if !IsSet(key, v) {
        FilterFromMeans(raw, at + 1, start, p);
      } else {
        FilterFromMeans(raw, at + 1, start[key := FilterValue(key, v, p).value], p);
      }
    }
  }

  lemma FieldAgain(raw: map<string, Json>, fixed: map<string, Json>, i: nat, p: Platform)
    requires i < |FILTER_FIELDS| && Filter(raw, p) == Some(fixed)
    ensures IsSet(FILTER_FIELDS[i], Get(fixed, FILTER_FIELDS[i])) ==>
              FilterValue(FILTER_FIELDS[i], Get(fixed, FILTER_FIELDS[i]), p) == Some(Get(fixed, FILTER_FIELDS[i]))
    ensures IsSet(FILTER_FIELDS[i], Get(fixed, FILTER_FIELDS[i])) <==>
              IsSet(FILTER_FIELDS[i], Get(raw, FILTER_FIELDS[i]))
              && !(FILTER_FIELDS[i] == "tags" && Get(fixed, "tags") == Arr([]))
  {
    var key := FILTER_FIELDS[i];
    FilterFromMeans(raw, 0, map["tags" := Arr([])], p);
    if IsSet(key, Get(raw, key)) {
      FilterValueAgain(key, Get(raw, key), p);
    } else {
      forall j: nat | j < |FILTER_FIELDS| && FILTER_FIELDS[j] == key ensures !IsSet(key, Get(raw, key)) {}
      assert Get(fixed, key) == Get(map["tags" := Arr([])], key);
    }
  }

  /** A fixed filter is kept as it is. */
  lemma FilterAgain(raw: map<string, Json>, p: Platform)
    requires Filter(raw, p).Some?
    ensures Filter(Filter(raw, p).value, p) == Filter(raw, p)
  {
    var start := map["tags" := Arr([])];
    var fixed := Filter(raw, p).value;
    FilterFromMeans(raw, 0, start, p);
    FilterIsKept(fixed, 0, start, p);
    forall i: nat | i < |FILTER_FIELDS| && IsSet(FILTER_FIELDS[i], Get(fixed, FILTER_FIELDS[i]))
      ensures FilterValue(FILTER_FIELDS[i], Get(fixed, FILTER_FIELDS[i]), p).Some?
    {
      FieldAgain(raw, fixed, i, p);
    }
    FilterFromMeans(fixed, 0, start, p);
    var again := Filter(fixed, p).value;
    forall key ensures (key in again <==> key in fixed) && Get(again, key) == Get(fixed, key) {
      if i: nat :| i < |FILTER_FIELDS| && FILTER_FIELDS[i] == key {
        FieldAgain(raw, fixed, i, p);
        forall j: nat | j < |FILTER_FIELDS| && j != i ensures FILTER_FIELDS[j] != key { FieldsDiffer(i, j); }
      }
    }
    assert again == fixed by {
      forall key ensures key in again <==> key in fixed
                 ensures key in again && key in fixed ==> again[key] == fixed[key]
      {
        assert Get(again, key) == Get(fixed, key);
      }
    }
  }

  // ---- Checks again ----

  /** Canonical ids, each once. */
  ghost predicate AreIds(ids: seq<string>, p: Platform) {
    && (forall i :: 0 <= i < |ids| ==> Uuid(ids[i], p.lenient) == Some(ids[i]))
    && (forall i, j :: 0 <= i < j < |ids| ==> ids[i] != ids[j])
  }

  lemma {:induction false} IdsAreCanonical(values: seq<Json>, p: Platform)
    ensures AreIds(Ids(values, p), p)
  {
    if values != [] {
      var init, last := values[..|values| - 1], values[|values| - 1];
      IdsAreCanonical(init, p);
      if UuidOf(last, p).Some? {
        UuidIsIdempotent(last.s, p.lenient);
      }
    }
  }

  /** Every id kept is that of a value. */
  lemma {:induction false} IdIsOfAValue(values: seq<Json>, id: string, p: Platform) returns (at: nat)
    requires id in Ids(values, p)
    ensures at < |values| && UuidOf(values[at], p) == Some(id)
  {
    var init, last := values[..|values| - 1], values[|values| - 1];
    if id in Ids(init, p) {
      at := IdIsOfAValue(init, id, p);
    } else {
      at := |init|;
    }
  }

  /** No value's id is left out. */
  lemma {:induction false} IdIsKept(values: seq<Json>, at: nat, p: Platform)
    requires at < |values| && UuidOf(values[at], p).Some?
    ensures UuidOf(values[at], p).value in Ids(values, p)
  {
    if at < |values| - 1 {
      IdIsKept(values[..|values| - 1], at, p);
    }
  }

  lemma StringsGrow(ids: seq<string>, id: string)
    ensures Strings(ids + [id]).items == Strings(ids).items + [Str(id)]
  {
  }

  lemma AllButLastAreIds(ids: seq<string>, p: Platform)
    requires AreIds(ids, p) && ids != []
    ensures AreIds(ids[..|ids| - 1], p) && ids[|ids| - 1] !in ids[..|ids| - 1]
    ensures ids[..|ids| - 1] + [ids[|ids| - 1]] == ids
  {
  }

  lemma {:induction false} IdsAgain(ids: seq<string>, p: Platform)
    requires AreIds(ids, p)
    ensures Ids(Strings(ids).items, p) == ids
  {
    if ids == [] {
      assert Strings(ids).items == [];
    } else {
      var init, last := ids[..|ids| - 1], ids[|ids| - 1];
      AllButLastAreIds(ids, p);
      assert UuidOf(Str(last), p) == Some(last);
      IdsAgain(init, p);
      StringsGrow(init, last);
      IdsGrow(Strings(init).items, Str(last), p);
    }
  }

  lemma IdsGrow(values: seq<Json>, v: Json, p: Platform)
    requires UuidOf(v, p).Some?
    ensures Ids(values + [v], p) ==
              if UuidOf(v, p).value in Ids(values, p) then Ids(values, p) else Ids(values, p) + [UuidOf(v, p).value]
  {
    assert (values + [v])[..|values + [v]| - 1] == values;
  }

  lemma ChecksAgain(v: Json, p: Platform)
    ensures Checks(Strings(Checks(v, p)), p) == Checks(v, p) && AreIds(Checks(v, p), p)
        && |Checks(v, p)| <= MAX_GROUP_CHECKS
  {
    IdsAreCanonical(Listed(v, p), p);
    IdsAgain(Checks(v, p), p);
  }

  // ---- Groups and items again ----

  /** A head with its filter or its checks added is read as the same head. */
  lemma HeadAgain(raw: map<string, Json>, order: nat, p: Platform, key: string, v: Json)
    requires key == "filter" || key == "checks"
    ensures GroupHead(GroupHead(raw, order, p)[key := v], order, p) == GroupHead(raw, order, p)
  {
    var head := GroupHead(raw, order, p);
    var more := head[key := v];
    assert Get(more, "name") == head["name"];
    assert Get(more, "collapsed") == head["collapsed"];
    assert Get(more, "sort_by") == head["sort_by"];
    assert Get(more, "sort_direction") == head["sort_direction"];
  }

  lemma HeadAlone(raw: map<string, Json>, order: nat, p: Platform, key: string, v: Json)
    requires key == "filter" || key == "checks"
    ensures var more := GroupHead(raw, order, p)[key := v];
            && Get(more, key) == v && Get(more, "type") == Str("group") && Get(more, "order") == Num(order as real)
            && (key == "checks" ==> Get(more, "filter") == Null)
  {
  }

  lemma GroupAgain(raw: map<string, Json>, order: nat, p: Platform)
    ensures Group(Group(raw, order, p), order, p) == Group(raw, order, p)
    ensures Get(Group(raw, order, p), "type") == Str("group")
        && Get(Group(raw, order, p), "order") == Num(order as real)
  {
    var filter := Get(raw, "filter");
    if filter.Obj? && Filter(filter.fields, p).Some? {
      var v := Obj(Filter(filter.fields, p).value);
      HeadAgain(raw, order, p, "filter", v);
      HeadAlone(raw, order, p, "filter", v);
      FilterAgain(filter.fields, p);
    } else {
      var v := if filter.Obj? then Arr([]) else Strings(Checks(Get(raw, "checks"), p));
      HeadAgain(raw, order, p, "checks", v);
      HeadAlone(raw, order, p, "checks", v);
      if filter.Obj? {
        assert Strings(Checks(v, p)) == v;
      } else {
        ChecksAgain(Get(raw, "checks"), p);
      }
    }
  }

  lemma ItemAgain(raw: Json, order: nat, p: Platform)
    requires Item(raw, order, p).Some?
    ensures Item(Obj(Item(raw, order, p).value), order, p) == Item(raw, order, p)
    ensures Get(Item(raw, order, p).value, "order") == Num(order as real)
  {
    if Get(raw.fields, "type") == Str("check") {
      CheckItemAgain(Get(raw.fields, "check_id").s, order, p);
    } else {
      GroupAgain(raw.fields, order, p);
    }
  }

  lemma CheckItemAgain(text: string, order: nat, p: Platform)
    requires Uuid(text, p.lenient).Some?
    ensures Item(Obj(CheckItem(Uuid(text, p.lenient).value, order)), order, p)
        == Some(CheckItem(Uuid(text, p.lenient).value, order))
  {
    UuidIsIdempotent(text, p.lenient);
    var item := CheckItem(Uuid(text, p.lenient).value, order);
    assert Get(item, "type") == Str("check") && Get(item, "check_id") == Str(Uuid(text, p.lenient).value);
  }

  /** Normalising what is normalised changes nothing, whatever was stored. */
  lemma {:induction false} NormalizeIsIdempotent(items: seq<Json>, p: Platform)
    ensures Normalized(Normalized(items, p), p) == Normalized(items, p)
  {
    if items != [] {
      var init, last := items[..|items| - 1], items[|items| - 1];
      var before, fixed := Normalized(init, p), Normalized(items, p);
      NormalizeIsIdempotent(init, p);
      if Item(last, |before|, p).Some? {
        ItemAgain(last, |before|, p);
        assert fixed[..|fixed| - 1] == before;
      }
    }
  }

  /** The items are numbered 0, 1, 2 and so on, in order. */
  lemma {:induction false} NumberedInOrder(items: seq<Json>, p: Platform)
    ensures forall i :: 0 <= i < |Normalized(items, p)| ==>
              var item := Normalized(items, p)[i]; item.Obj? && Get(item.fields, "order") == Num(i as real)
  {
    if items != [] {
      var init, last := items[..|items| - 1], items[|items| - 1];
      NumberedInOrder(init, p);
      if Item(last, |Normalized(init, p)|, p).Some? {
        ItemAgain(last, |Normalized(init, p)|, p);
      }
    }
  }

  /** Whether the render draws something for an item: a check with a UUID, or a group. */
  predicate IsKnown(raw: Json, p: Platform) {
    raw.Obj? && (Get(raw.fields, "type") == Str("group")
        || (Get(raw.fields, "type") == Str("check") && UuidOf(Get(raw.fields, "check_id"), p).Some?))
  }

  function KnownIn(items: seq<Json>, p: Platform): nat {
    if items == [] then 0 else KnownIn(items[..|items| - 1], p) + if IsKnown(items[|items| - 1], p) then 1 else 0
  }

  /** A known item and the one it becomes: a group, or a check of the same UUID. */
  ghost predicate SameItem(raw: Json, fixed: Json, p: Platform) {
    && raw.Obj? && fixed.Obj? && Get(fixed.fields, "type") == Get(raw.fields, "type")
    && (Get(raw.fields, "type") == Str("check") ==>
          UuidOf(Get(fixed.fields, "check_id"), p) == UuidOf(Get(raw.fields, "check_id"), p)
          && UuidOf(Get(raw.fields, "check_id"), p).Some?)
  }

  lemma KnownItemIsKept(raw: Json, order: nat, p: Platform)
    requires IsKnown(raw, p)
    ensures Item(raw, order, p).Some? && SameItem(raw, Obj(Item(raw, order, p).value), p)
  {
    if Get(raw.fields, "type") == Str("check") {
      UuidIsIdempotent(Get(raw.fields, "check_id").s, p.lenient);
    } else {
      GroupAgain(raw.fields, order, p);
    }
  }

  /** Every known item is kept at the place its order among them gives it, and nothing is added. */
  lemma {:induction false} KnownItemsKeepTheirOrder(items: seq<Json>, i: nat, p: Platform)
    requires i < |items| && IsKnown(items[i], p)
    ensures |Normalized(items, p)| == KnownIn(items, p) && KnownIn(items[..i], p) < KnownIn(items, p)
    ensures SameItem(items[i], Normalized(items, p)[KnownIn(items[..i], p)], p)
  {
    var init, last := items[..|items| - 1], items[|items| - 1];
    CountsKnown(items, p);
    CountsKnown(init, p);
    if i < |init| {
      assert init[..i] == items[..i];
      KnownItemsKeepTheirOrder(init, i, p);
    } else {
      assert items[..i] == init;
      KnownItemIsKept(last, |Normalized(init, p)|, p);
    }
  }

  lemma {:induction false} CountsKnown(items: seq<Json>, p: Platform)
    ensures |Normalized(items, p)| == KnownIn(items, p)
  {
    if items != [] {
      CountsKnown(items[..|items| - 1], p);
    }
  }

  // ---- The shapes the admin API stores ----

  const HEAD_KEYS := {"type", "name", "order", "collapsed", "sort_by", "sort_direction"}

  /** A filter as it is stored: tags always, an agent's canonical id, a check type and a search
      text where they are set, and nothing else. */
  predicate FilterInShape(f: map<string, Json>, p: Platform) {
    && f.Keys <= {"agent_id", "check_type", "tags", "search"}
    && "tags" in f && AreTags(f["tags"], p)
    && ("agent_id" in f ==> f["agent_id"].Str? && Uuid(f["agent_id"].s, p.lenient) == Some(f["agent_id"].s))
    && ("check_type" in f ==> f["check_type"].Str? && f["check_type"].s in CHECK_TYPES)
    && ("search" in f ==> IsText(f["search"], 0, MAX_TEXT_LENGTH, p))
  }

  ghost predicate ChecksInShape(v: Json, p: Platform) {
    v.Arr? && |v.items| <= MAX_GROUP_CHECKS
    && (forall i :: 0 <= i < |v.items| ==> v.items[i].Str? && Uuid(v.items[i].s, p.lenient) == Some(v.items[i].s))
    && (forall i, j :: 0 <= i < j < |v.items| ==> v.items[i] != v.items[j])
  }

  predicate HeadInShape(group: map<string, Json>, order: nat, p: Platform) {
    && HEAD_KEYS <= group.Keys
    && group["type"] == Str("group") && group["order"] == Num(order as real)
    && IsText(group["name"], 1, MAX_TEXT_LENGTH, p) && group["collapsed"].Bool?
    && group["sort_by"].Str? && group["sort_by"].s in SORT_BY
    && group["sort_direction"].Str? && group["sort_direction"].s in SORT_DIRECTIONS
  }

  /** A group as it is stored: one that filters or one that lists checks. */
  ghost predicate GroupInShape(group: map<string, Json>, order: nat, p: Platform) {
    && HeadInShape(group, order, p)
    && (|| (group.Keys == HEAD_KEYS + {"filter"} && group["filter"].Obj? && FilterInShape(group["filter"].fields, p))
        || (group.Keys == HEAD_KEYS + {"checks"} && ChecksInShape(group["checks"], p)))
  }

  lemma GroupTextIsText(p: Platform)
    requires forall c :: c in "Group" ==> !p.refused(c)
    ensures IsText(Str("Group"), 1, MAX_TEXT_LENGTH, p)
  {
  }

  lemma HeadComesInShape(raw: map<string, Json>, order: nat, p: Platform, key: string, v: Json)
    requires key == "filter" || key == "checks"
    requires forall c :: c in "Group" ==> !p.refused(c)
    ensures HeadInShape(GroupHead(raw, order, p)[key := v], order, p)
    ensures GroupHead(raw, order, p)[key := v].Keys == HEAD_KEYS + {key}
  {
    GroupTextIsText(p);
  }

  /** A head in shape is read as itself. */
  lemma HeadReadAsItself(group: map<string, Json>, order: nat, p: Platform, key: string)
    requires HeadInShape(group, order, p) && group.Keys == HEAD_KEYS + {key} && key !in HEAD_KEYS
    ensures GroupHead(group, order, p)[key := group[key]] == group
  {
    var head := GroupHead(group, order, p);
    assert head.Keys == HEAD_KEYS;
    forall k | k in HEAD_KEYS ensures head[k] == group[k] {
      assert k == "type" || k == "name" || k == "order" || k == "collapsed" || k == "sort_by" || k == "sort_direction";
    }
  }

  lemma FieldOfShape(f: map<string, Json>, i: nat, p: Platform)
    requires FilterInShape(f, p) && i < |FILTER_FIELDS| && IsSet(FILTER_FIELDS[i], Get(f, FILTER_FIELDS[i]))
    ensures FilterValue(FILTER_FIELDS[i], Get(f, FILTER_FIELDS[i]), p) == Some(Get(f, FILTER_FIELDS[i]))
  {
    if FILTER_FIELDS[i] == "agent_id" { UuidIsIdempotent(f["agent_id"].s, p.lenient); }
  }

  /** A filter in shape is kept as it is. */
  lemma ShapeFilterIsKept(f: map<string, Json>, p: Platform)
    requires FilterInShape(f, p)
    ensures Filter(f, p) == Some(f)
  {
    var start := map["tags" := Arr([])];
    FilterIsKept(f, 0, start, p);
    forall i: nat | i < |FILTER_FIELDS| && IsSet(FILTER_FIELDS[i], Get(f, FILTER_FIELDS[i]))
      ensures FilterValue(FILTER_FIELDS[i], Get(f, FILTER_FIELDS[i]), p) == Some(Get(f, FILTER_FIELDS[i]))
    {
      FieldOfShape(f, i, p);
    }
    FilterFromMeans(f, 0, start, p);
    var fixed := Filter(f, p).value;
    forall key ensures (key in fixed <==> key in f) && Get(fixed, key) == Get(f, key) {
      if i: nat :| i < |FILTER_FIELDS| && FILTER_FIELDS[i] == key {
        ShapeField(f, fixed, start, i, p);
      } else {
        assert key !in start by { assert FILTER_FIELDS[2] == "tags"; }
        assert FILTER_FIELDS[0] == "agent_id" && FILTER_FIELDS[1] == "check_type" && FILTER_FIELDS[3] == "search";
      }
    }
    SameFields(fixed, f);
  }

  lemma SameFields(a: map<string, Json>, b: map<string, Json>)
    requires forall key :: (key in a <==> key in b) && Get(a, key) == Get(b, key)
    ensures a == b
  {
    forall key | key in a ensures a[key] == b[key] {
      assert Get(a, key) == Get(b, key);
    }
  }

  lemma ShapeField(f: map<string, Json>, fixed: map<string, Json>, start: map<string, Json>, i: nat, p: Platform)
    requires FilterInShape(f, p) && start == map["tags" := Arr([])] && FixedFrom(f, 0, fixed, start, p)
        && i < |FILTER_FIELDS|
    ensures (FILTER_FIELDS[i] in fixed <==> FILTER_FIELDS[i] in f)
        && Get(fixed, FILTER_FIELDS[i]) == Get(f, FILTER_FIELDS[i])
  {
    var key := FILTER_FIELDS[i];
    if IsSet(key, Get(f, key)) {
      FieldOfShape(f, i, p);
    } else {
      assert (key in fixed <==> key in start) && Get(fixed, key) == Get(start, key);
    }
  }

  lemma KeptField(raw: map<string, Json>, fixed: map<string, Json>, i: nat, p: Platform)
    requires Filter(raw, p) == Some(fixed) && i < |FILTER_FIELDS| && FILTER_FIELDS[i] in fixed
    ensures (IsSet(FILTER_FIELDS[i], Get(raw, FILTER_FIELDS[i]))
             && FilterValue(FILTER_FIELDS[i], Get(raw, FILTER_FIELDS[i]), p) == Some(fixed[FILTER_FIELDS[i]]))
            || (FILTER_FIELDS[i] == "tags" && fixed["tags"] == Arr([]))
  {
    var key, start := FILTER_FIELDS[i], map["tags" := Arr([])];
    FilterFromMeans(raw, 0, start, p);
    if !IsSet(key, Get(raw, key)) {
      assert (key in fixed <==> key in start) && Get(fixed, key) == Get(start, key);
    }
  }

  lemma KeptKeys(raw: map<string, Json>, p: Platform)
    requires Filter(raw, p).Some?
    ensures Filter(raw, p).value.Keys <= {"agent_id", "check_type", "tags", "search"} && "tags" in Filter(raw, p).value
  {
    var fixed, start := Filter(raw, p).value, map["tags" := Arr([])];
    FilterFromMeans(raw, 0, start, p);
    forall key | key in fixed ensures key in {"agent_id", "check_type", "tags", "search"} {
      if !exists i :: 0 <= i < |FILTER_FIELDS| && FILTER_FIELDS[i] == key && IsSet(key, Get(raw, key)) {
        assert key in start;
      }
    }
    assert FILTER_FIELDS[2] == "tags";
    if !IsSet("tags", Get(raw, "tags")) {
      assert "tags" in fixed <==> "tags" in start;
    }
  }

  /** A filter kept comes out in shape. */
  lemma KeptFilterInShape(raw: map<string, Json>, p: Platform)
    requires Filter(raw, p).Some?
    ensures FilterInShape(Filter(raw, p).value, p)
  {
    var fixed := Filter(raw, p).value;
    KeptKeys(raw, p);
    if "agent_id" in fixed {
      assert FILTER_FIELDS[0] == "agent_id";
      KeptField(raw, fixed, 0, p);
      UuidIsIdempotent(Get(raw, "agent_id").s, p.lenient);
    }
    if "check_type" in fixed {
      assert FILTER_FIELDS[1] == "check_type";
      KeptField(raw, fixed, 1, p);
    }
    assert FILTER_FIELDS[2] == "tags";
    KeptField(raw, fixed, 2, p);
    if "search" in fixed {
      assert FILTER_FIELDS[3] == "search";
      KeptField(raw, fixed, 3, p);
    }
  }

  /** Checks in shape are kept as they are. */
  lemma ShapeChecksAreKept(v: Json, p: Platform)
    requires ChecksInShape(v, p)
    ensures Strings(Checks(v, p)) == v
  {
    var ids := seq(|v.items|, i requires 0 <= i < |v.items| => v.items[i].s);
    assert forall i :: 0 <= i < |ids| ==> v.items[i] == Str(ids[i]);
    assert Strings(ids) == v;
    IdsAgain(ids, p);
  }

  lemma ChecksComeInShape(v: Json, p: Platform)
    ensures ChecksInShape(Strings(Checks(v, p)), p)
  {
    ChecksAgain(v, p);
    StringsListed(Checks(v, p), p);
  }

  /** Every group comes out in the shape the admin API stores. */
  lemma GroupComesInShape(raw: map<string, Json>, order: nat, p: Platform)
    requires forall c :: c in "Group" ==> !p.refused(c)
    ensures GroupInShape(Group(raw, order, p), order, p)
  {
    var filter := Get(raw, "filter");
    if filter.Obj? && Filter(filter.fields, p).Some? {
      HeadComesInShape(raw, order, p, "filter", Obj(Filter(filter.fields, p).value));
      KeptFilterInShape(filter.fields, p);
    } else {
      var v := if filter.Obj? then Arr([]) else Strings(Checks(Get(raw, "checks"), p));
      HeadComesInShape(raw, order, p, "checks", v);
      if !filter.Obj? { ChecksComeInShape(Get(raw, "checks"), p); }
    }
  }

  lemma ShapeGroupIsKept(group: map<string, Json>, order: nat, p: Platform)
    requires GroupInShape(group, order, p)
    ensures Group(group, order, p) == group
  {
    if group.Keys == HEAD_KEYS + {"filter"} {
      HeadReadAsItself(group, order, p, "filter");
      ShapeFilterIsKept(group["filter"].fields, p);
    } else {
      assert "filter" !in HEAD_KEYS + {"checks"};
      HeadReadAsItself(group, order, p, "checks");
      ShapeChecksAreKept(group["checks"], p);
    }
  }

  /** The groups the migration leaves alone are exactly those in the shape the admin API
      stores, under their place's number. */
  lemma UnchangedExactlyInShape(raw: map<string, Json>, order: nat, p: Platform)
    requires forall c :: c in "Group" ==> !p.refused(c)
    ensures Group(raw, order, p) == raw <==> GroupInShape(raw, order, p)
  {
    if GroupInShape(raw, order, p) {
      ShapeGroupIsKept(raw, order, p);
    }
    GroupComesInShape(raw, order, p);
  }

  // ---- What a group shows ----

  /** A check the page's database knows. `tagged` and `found` say whether it matches a list of
      tags or a search. */
  datatype Check = Check(id: nat, agent: nat, kind: string, tagged: seq<Json> -> bool, found: string -> bool)

  /** Whether a field of a filter has a value a query can be made with. */
  predicate Queryable(key: string, v: Json, p: Platform) {
    !Truthy(v) ||
    (if key == "agent_id" then v.Str? && Parse(v.s, p.lenient).Some?
     else if key == "tags" then v.Arr? && forall i :: 0 <= i < |v.items| ==> v.items[i].Str?
     else v.Str?)
  }

  /** Whether the check passes a field; an empty value is no condition. */
  predicate Passes(key: string, v: Json, c: Check, p: Platform)
    requires Queryable(key, v, p)
  {
    !Truthy(v) ||
    (if key == "agent_id" then Parse(v.s, p.lenient) == Some(c.agent)
     else if key == "check_type" then v.s == c.kind
     else if key == "tags" then c.tagged(v.items)
     else c.found(v.s))
  }

  predicate CanBeListed(v: Json) {
    v.Str? || v.Null?
  }

  /** Whether the page can be drawn with this group: its filter, when the key is there, is an
      object whose fields can be queried; without one its checks, when the key is there, can
      be gone through and each is a string, or a null, which no check has for its id. */
  ghost predicate Drawable(group: map<string, Json>, p: Platform) {
    if "filter" in group then
      group["filter"].Obj?
      && forall i :: 0 <= i < |FILTER_FIELDS|
          ==> Queryable(FILTER_FIELDS[i], Get(group["filter"].fields, FILTER_FIELDS[i]), p)
    else if "checks" in group then
      (group["checks"].Arr? || group["checks"].Obj?)
      && forall i :: 0 <= i < |Listed(group["checks"], p)| ==> CanBeListed(Listed(group["checks"], p)[i])
    else true
  }

  /** Whether a group that can be drawn shows the check. */
  ghost predicate Shows(group: map<string, Json>, c: Check, p: Platform)
    requires Drawable(group, p)
  {
    if "filter" in group then
      forall i :: 0 <= i < |FILTER_FIELDS|
          ==> Passes(FILTER_FIELDS[i], Get(group["filter"].fields, FILTER_FIELDS[i]), c, p)
    else if "checks" in group then
      exists i :: 0 <= i < |Listed(group["checks"], p)| && Listed(group["checks"], p)[i].Str?
                  && Parse(Listed(group["checks"], p)[i].s, p.lenient) == Some(c.id)
    else false
  }

  /** A value a field takes can be queried, and passes the checks the raw value passed. */
  lemma KeptFieldMeansTheSame(key: string, v: Json, c: Check, p: Platform)
    requires key in FILTER_FIELDS && IsSet(key, v) && FilterValue(key, v, p).Some?
    ensures Queryable(key, v, p) && Queryable(key, FilterValue(key, v, p).value, p)
    ensures Passes(key, FilterValue(key, v, p).value, c, p) == Passes(key, v, c, p)
  {
    if key == "agent_id" { UuidIsIdempotent(v.s, p.lenient); }
  }

  /** A kept filter shows exactly what it showed. */
  lemma KeptFilterShowsTheSame(raw: map<string, Json>, fixed: map<string, Json>, c: Check, i: nat, p: Platform)
    requires Filter(raw, p) == Some(fixed) && i < |FILTER_FIELDS|
    ensures Queryable(FILTER_FIELDS[i], Get(raw, FILTER_FIELDS[i]), p)
        && Queryable(FILTER_FIELDS[i], Get(fixed, FILTER_FIELDS[i]), p)
    ensures Passes(FILTER_FIELDS[i], Get(fixed, FILTER_FIELDS[i]), c, p)
        == Passes(FILTER_FIELDS[i], Get(raw, FILTER_FIELDS[i]), c, p)
  {
    var key := FILTER_FIELDS[i];
    FilterFromMeans(raw, 0, map["tags" := Arr([])], p);
    if IsSet(key, Get(raw, key)) {
      KeptFieldMeansTheSame(key, Get(raw, key), c, p);
    } else {
      assert Get(fixed, key) == Get(map["tags" := Arr([])], key);
    }
  }

  lemma StringsListed(ids: seq<string>, p: Platform)
    ensures Listed(Strings(ids), p) == Strings(ids).items && |Strings(ids).items| == |ids|
    ensures forall i :: 0 <= i < |ids| ==> Strings(ids).items[i] == Str(ids[i])
  {
  }

  /** A listing group shows only checks the raw value listed. */
  lemma ListedShowsNoMore(v: Json, c: Check, p: Platform) returns (at: nat)
    requires exists i :: 0 <= i < |Checks(v, p)| && Parse(Checks(v, p)[i], p.lenient) == Some(c.id)
    ensures at < |Listed(v, p)| && Listed(v, p)[at].Str? && Parse(Listed(v, p)[at].s, p.lenient) == Some(c.id)
  {
    var i :| 0 <= i < |Checks(v, p)| && Parse(Checks(v, p)[i], p.lenient) == Some(c.id);
    var id := Checks(v, p)[i];
    var j := IdIsOfAValue(Listed(v, p), id, p);
    UuidIsIdempotent(Listed(v, p)[j].s, p.lenient);
    at := j;
  }

  /** Every group comes out one the page can be drawn with. */
  lemma FixedIsDrawable(raw: map<string, Json>, order: nat, p: Platform, c: Check)
    ensures Drawable(Group(raw, order, p), p)
  {
    var filter := Get(raw, "filter");
    if filter.Obj? && Filter(filter.fields, p).Some? {
      forall i: nat | i < |FILTER_FIELDS|
        ensures Queryable(FILTER_FIELDS[i], Get(Filter(filter.fields, p).value, FILTER_FIELDS[i]), p)
      {
        KeptFilterShowsTheSame(filter.fields, Filter(filter.fields, p).value, c, i, p);
      }
    } else if !filter.Obj? {
      StringsListed(Checks(Get(raw, "checks"), p), p);
    }
  }

  /** A group the page could be drawn with comes out showing no check it did not show. */
  lemma NeverWidens(raw: map<string, Json>, order: nat, c: Check, p: Platform)
    ensures Drawable(Group(raw, order, p), p)
    ensures Drawable(raw, p) && Shows(Group(raw, order, p), c, p) ==> Shows(raw, c, p)
  {
    FixedIsDrawable(raw, order, p, c);
    if !Drawable(raw, p) { return; }
    var group := Group(raw, order, p);
    var filter := Get(raw, "filter");
    if filter.Obj? {
      if Filter(filter.fields, p).Some? {
        var fixed := Filter(filter.fields, p).value;
        assert group["filter"] == Obj(fixed);
        if Shows(group, c, p) {
          forall i: nat | i < |FILTER_FIELDS|
              ensures Passes(FILTER_FIELDS[i], Get(filter.fields, FILTER_FIELDS[i]), c, p) {
            KeptFilterShowsTheSame(filter.fields, fixed, c, i, p);
          }
        }
      }
    } else if Shows(group, c, p) {
      StringsListed(Checks(Get(raw, "checks"), p), p);
      var at := ListedShowsNoMore(Get(raw, "checks"), c, p);
    }
  }

  /** A filter that is an object and cannot be queried is one the migration cannot take either. */
  lemma UnqueriedIsNotKept(raw: map<string, Json>, order: nat, c: Check, p: Platform)
    requires Get(raw, "filter").Obj? && !Drawable(raw, p)
    ensures Group(raw, order, p) == GroupHead(raw, order, p)["checks" := Arr([])]
  {
    var filter := Get(raw, "filter").fields;
    if Filter(filter, p).Some? {
      var i: nat :| i < |FILTER_FIELDS| && !Queryable(FILTER_FIELDS[i], Get(filter, FILTER_FIELDS[i]), p);
      KeptFilterShowsTheSame(filter, Filter(filter, p).value, c, i, p);
    }
  }

  // ---- Which checks a list names, read off the list itself ----

  /** The number a value is a text for. */
  function Named(v: Json, p: Platform): Option<nat> {
    if v.Str? then Parse(v.s, p.lenient) else None
  }

  /** The different ids the values name. */
  ghost function AllIds(values: seq<Json>, p: Platform): set<string> {
    set v | v in values && UuidOf(v, p).Some? :: UuidOf(v, p).value
  }

  /** Some value of the list is a text for the number, with fewer than the most that are kept
      named before it. */
  ghost predicate ListsWithin(values: seq<Json>, number: nat, p: Platform) {
    exists i :: 0 <= i < |values| && Named(values[i], p) == Some(number) && |AllIds(values[..i], p)| < MAX_GROUP_CHECKS
  }

  /** Whether a listing group's raw value names the check early enough. */
  ghost predicate Lists(raw: map<string, Json>, c: Check, p: Platform) {
    ListsWithin(Listed(Get(raw, "checks"), p), c.id, p)
  }

  lemma NamedIsId(v: Json, p: Platform)
    requires Named(v, p).Some?
    ensures UuidOf(v, p) == Some(Canonical(Named(v, p).value))
    ensures Parse(UuidOf(v, p).value, p.lenient) == Named(v, p)
  {
    UuidIsIdempotent(v.s, p.lenient);
  }

  lemma OneMoreValue(values: seq<Json>, v: Json, p: Platform)
    ensures AllIds(values + [v], p) == AllIds(values, p) + if UuidOf(v, p).Some? then {UuidOf(v, p).value} else {}
  {
    var more := AllIds(values + [v], p);
    forall id | id in AllIds(values, p) ensures id in more {
      var w :| w in values && UuidOf(w, p) == Some(id);
      assert w in values + [v];
    }
    if UuidOf(v, p).Some? { assert v in values + [v]; }
  }

  ghost predicate EachOnce(all: set<string>, ids: seq<string>) {
    |all| == |ids| && forall id :: id in all <==> id in ids
  }

  lemma OneMoreId(all: set<string>, ids: seq<string>, id: string)
    requires EachOnce(all, ids)
    ensures EachOnce(all + {id}, if id in ids then ids else ids + [id])
  {
    if id in ids { assert all + {id} == all; }
  }

  /** The ids kept, before the cut, are the different ones named, each once. */
  lemma {:induction false} IdsAreAll(values: seq<Json>, p: Platform)
    ensures EachOnce(AllIds(values, p), Ids(values, p))
  {
    if values != [] {
      var init, last := values[..|values| - 1], values[|values| - 1];
      assert values == init + [last];
      IdsAreAll(init, p);
      OneMoreValue(init, last, p);
      match UuidOf(last, p)
      case None => assert AllIds(values, p) == AllIds(init, p);
      case Some(id) => OneMoreId(AllIds(init, p), Ids(init, p), id);
    }
  }

  lemma {:induction false} IdsOfPrefix(values: seq<Json>, i: nat, p: Platform)
    requires i <= |values|
    ensures Ids(values[..i], p) <= Ids(values, p)
  {
    if i == |values| {
      assert values[..i] == values;
    } else {
      IdsOfPrefix(values[..|values| - 1], i, p);
      assert values[..|values| - 1][..i] == values[..i];
    }
  }

  /** Where the k-th id comes first. */
  lemma {:induction false} FirstCome(values: seq<Json>, k: nat, p: Platform) returns (i: nat)
    requires k < |Ids(values, p)|
    ensures i < |values| && UuidOf(values[i], p) == Some(Ids(values, p)[k]) && |Ids(values[..i], p)| == k
  {
    var init := values[..|values| - 1];
    if k < |Ids(init, p)| {
      i := FirstCome(init, k, p);
      assert init[..i] == values[..i];
    } else {
      i := |init|;
    }
  }

  /** The id of the i-th value stands at most as far along as there are numbers before it. */
  lemma PlaceOfId(values: seq<Json>, i: nat, p: Platform) returns (k: nat)
    requires i < |values| && UuidOf(values[i], p).Some?
    ensures k < |Ids(values, p)| && k <= |Ids(values[..i], p)| && Ids(values, p)[k] == UuidOf(values[i], p).value
  {
    var before, id := Ids(values[..i], p), UuidOf(values[i], p).value;
    assert values[..i + 1] == values[..i] + [values[i]];
    IdsGrow(values[..i], values[i], p);
    IdsOfPrefix(values, i + 1, p);
    if id in before {
      k :| 0 <= k < |before| && before[k] == id;
    } else {
      k := |before|;
    }
    assert Ids(values[..i + 1], p)[k] == id;
  }

  lemma PlaceWithin(values: seq<Json>, i: nat, p: Platform) returns (k: nat)
    requires i < |values| && UuidOf(values[i], p).Some? && |AllIds(values[..i], p)| < MAX_GROUP_CHECKS
    ensures k < |Ids(values, p)| && k < MAX_GROUP_CHECKS && Ids(values, p)[k] == UuidOf(values[i], p).value
  {
    IdsAreAll(values[..i], p);
    k := PlaceOfId(values, i, p);
    if k == |Ids(values[..i], p)| { assert |Ids(values[..i], p)| < MAX_GROUP_CHECKS; }
  }

  lemma WithinIsKept(v: Json, number: nat, i: nat, p: Platform) returns (k: nat)
    requires i < |Listed(v, p)| && Named(Listed(v, p)[i], p) == Some(number)
    requires |AllIds(Listed(v, p)[..i], p)| < MAX_GROUP_CHECKS
    ensures k < |Checks(v, p)| && Parse(Checks(v, p)[k], p.lenient) == Some(number)
  {
    NamedIsId(Listed(v, p)[i], p);
    k := PlaceWithin(Listed(v, p), i, p);
  }

  lemma KeptIsWithin(v: Json, number: nat, k: nat, p: Platform)
    requires k < |Checks(v, p)| && Parse(Checks(v, p)[k], p.lenient) == Some(number)
    ensures ListsWithin(Listed(v, p), number, p)
  {
    var values := Listed(v, p);
    var i := FirstCome(values, k, p);
    NamedIsId(values[i], p);
    IdsAreAll(values[..i], p);
    assert Named(values[i], p) == Some(number);
  }

  /** The checks kept name a number exactly when the list names it early enough. */
  lemma KeptExactlyWithin(v: Json, number: nat, p: Platform)
    ensures (exists k :: 0 <= k < |Checks(v, p)| && Parse(Checks(v, p)[k], p.lenient) == Some(number))
       <==> ListsWithin(Listed(v, p), number, p)
  {
    if k :| 0 <= k < |Checks(v, p)| && Parse(Checks(v, p)[k], p.lenient) == Some(number) {
      KeptIsWithin(v, number, k, p);
    }
    if ListsWithin(Listed(v, p), number, p) {
      var i :| 0 <= i < |Listed(v, p)| && Named(Listed(v, p)[i], p) == Some(number)
          && |AllIds(Listed(v, p)[..i], p)| < MAX_GROUP_CHECKS;
      var k := WithinIsKept(v, number, i, p);
    }
  }

  /** Exactly when a group comes out showing a check it did not show before: its filter is not
      an object, its checks name the check with fewer than a thousand others before it, and the
      page could not be drawn with it, because the `filter` key is there (null, say) or because
      its checks hold something else than strings and nulls. */
  lemma WidensExactly(raw: map<string, Json>, order: nat, c: Check, p: Platform)
    ensures Drawable(Group(raw, order, p), p)
    ensures Shows(Group(raw, order, p), c, p) && !(Drawable(raw, p) && Shows(raw, c, p)) <==>
              && !Get(raw, "filter").Obj?
              && Lists(raw, c, p)
              && ("filter" in raw || exists i :: 0 <= i < |Listed(Get(raw, "checks"), p)|
                                                 && !CanBeListed(Listed(Get(raw, "checks"), p)[i]))
  {
    FixedIsDrawable(raw, order, p, c);
    if Drawable(raw, p) {
      NeverWidens(raw, order, c, p);
    } else if Get(raw, "filter").Obj? {
      UnqueriedIsNotKept(raw, order, c, p);
    } else {
      StringsListed(Checks(Get(raw, "checks"), p), p);
      if !Get(raw, "checks").Arr? && !Get(raw, "checks").Obj? { UnlistedHoldsNoId(raw, p); }
    }
    if !Get(raw, "filter").Obj? {
      GroupShowsItsChecks(raw, order, c, p);
    }
  }

  lemma UnlistedHoldsNoId(raw: map<string, Json>, p: Platform)
    requires !Get(raw, "checks").Arr? && !Get(raw, "checks").Obj?
    ensures Listed(Get(raw, "checks"), p) == []
  {
  }

  /** A group without an object for a filter comes out showing what its checks name. */
  lemma GroupShowsItsChecks(raw: map<string, Json>, order: nat, c: Check, p: Platform)
    requires !Get(raw, "filter").Obj? && Drawable(Group(raw, order, p), p)
    ensures Shows(Group(raw, order, p), c, p) <==> Lists(raw, c, p)
  {
    KeptExactlyWithin(Get(raw, "checks"), c.id, p);
    StringsListed(Checks(Get(raw, "checks"), p), p);
  }

  /** A group with a null filter breaks its page; normalised, it shows the check it lists. */
  lemma NullFilterWidens(c: Check, id: string, p: Platform)
    requires Uuid(id, p.lenient) == Some(id) && Parse(id, p.lenient) == Some(c.id)
    ensures var raw := map["filter" := Null, "checks" := Arr([Str(id)])];
            !Drawable(raw, p) && Drawable(Group(raw, 0, p), p) && Shows(Group(raw, 0, p), c, p)
  {
    var raw := map["filter" := Null, "checks" := Arr([Str(id)])];
    assert Get(raw, "checks") == Strings([id]);
    IdsAgain([id], p);
    assert Listed(Get(raw, "checks"), p)[..0] == [];
    assert AllIds([], p) == {};
    assert Lists(raw, c, p);
    WidensExactly(raw, 0, c, p);
  }
}
