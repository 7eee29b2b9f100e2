/** Pairing what a schema comparison removes and adds into renames
    (verify_migration_chain.py). */
module Renames {
  import opened Results

  /** What an object is apart from its name: its kind, table, columns and uniqueness. */
  datatype Key = Key(what: string, table: string, cols: string, unique: Option<bool>)

  /** An operation of the comparison; only removed and added constraints, indexes and foreign
      keys have a key. */
  datatype Op =
    | Remove(key: Key, name: string)
    | Add(key: Key, name: string)
    | Other(text: string)

  /** One rename, as it is reported. */
  datatype Line = Line(what: string, table: string, cols: string, db: string, model: string)

  function LineOf(remove: Op, add: Op): Line
    requires remove.Remove? && add.Add?
  {
    Line(add.key.what, add.key.table, add.key.cols, remove.name, add.name)
  }

  /** A removal and an addition of one object under two names. */
  predicate IsRename(ops: seq<Op>, pair: (nat, nat)) {
    && pair.0 < |ops| && pair.1 < |ops|
    && ops[pair.0].Remove? && ops[pair.1].Add?
    && ops[pair.0].key == ops[pair.1].key && ops[pair.0].name != ops[pair.1].name
  }

  /** The operations from a place on that are in no pair, in their order. */
  function Unpaired(ops: seq<Op>, paired: set<nat>, from: nat): seq<Op>
    requires from <= |ops|
    decreases |ops| - from
  {
    if from == |ops| then []
    else (if from in paired then [] else [ops[from]]) + Unpaired(ops, paired, from + 1)
  }

  /** The places from one on that are in no pair. */
  function Free(n: nat, paired: set<nat>, from: nat): set<nat> {
    set i | from <= i < n && i !in paired
  }

  lemma {:induction false} FreeSize(n: nat)
    ensures |Free(n, {}, 0)| == n
  {
    if n == 0 {
      assert Free(n, {}, 0) == {};
    } else {
      FreeSize(n - 1);
      assert Free(n, {}, 0) == Free(n - 1, {}, 0) + {n - 1};
    }
  }

  lemma FreeFrom(n: nat, paired: set<nat>, from: nat)
    requires from < n
    ensures |Free(n, paired, from)| == |Free(n, paired, from + 1)| + (if from in paired then 0 else 1)
  {
    var later := Free(n, paired, from + 1);
    if from in paired {
      assert Free(n, paired, from) == later;
    } else {
      assert Free(n, paired, from) == later + {from};
    }
  }

  lemma {:induction false} UnpairedSize(ops: seq<Op>, paired: set<nat>, from: nat)
    requires from <= |ops|
    ensures |Unpaired(ops, paired, from)| == |Free(|ops|, paired, from)|
    decreases |ops| - from
  {
    if from == |ops| {
      assert Free(|ops|, paired, from) == {};
    } else {
      UnpairedSize(ops, paired, from + 1);
      FreeFrom(|ops|, paired, from);
    }
  }

  lemma RestSize(ops: seq<Op>, paired: set<nat>)
    requires paired <= Free(|ops|, {}, 0)
    ensures |Unpaired(ops, paired, 0)| + |paired| == |ops|
  {
    FreeSize(|ops|);
    UnpairedSize(ops, paired, 0);
    assert Free(|ops|, {}, 0) == Free(|ops|, paired, 0) + paired;
  }

  // ---- The two loops ----

  /** The places of the removals among the first operations, by key. */
  function Removals(ops: seq<Op>, upTo: nat): map<Key, seq<nat>>
    requires upTo <= |ops|
  {
    if upTo == 0 then map[]
    else
      var before, op := Removals(ops, upTo - 1), ops[upTo - 1];
      if op.Remove? then before[op.key := Of(before, op.key) + [upTo - 1]] else before
  }

  function Of(removed: map<Key, seq<nat>>, key: Key): seq<nat> {
    if key in removed then removed[key] else []
  }

  /** The removals still to be paired, and the pairs made. */
  datatype Pairing = Pairing(removed: map<Key, seq<nat>>, pairs: seq<(nat, nat)>)

  /** Whether the operation is paired with the first removal of its key. */
  predicate Pairs(ops: seq<Op>, p: Pairing, i: nat)
    requires i < |ops|
  {
    ops[i].Add? && Of(p.removed, ops[i].key) != []
    && Of(p.removed, ops[i].key)[0] < |ops|
    && var other := ops[Of(p.removed, ops[i].key)[0]]; other.Remove? && other.name != ops[i].name
  }

  function PairOne(ops: seq<Op>, p: Pairing, i: nat): Pairing
    requires i < |ops|
  {
    if !Pairs(ops, p, i) then p
    else
      var waiting := Of(p.removed, ops[i].key);
      Pairing(p.removed[ops[i].key := waiting[1..]], p.pairs + [(waiting[0], i)])
  }

  function PairUp(ops: seq<Op>, upTo: nat): Pairing
    requires upTo <= |ops|
  {
    if upTo == 0 then Pairing(Removals(ops, |ops|), []) else PairOne(ops, PairUp(ops, upTo - 1), upTo - 1)
  }

  /** The places in the pairs. */
  function Places(pairs: seq<(nat, nat)>): set<nat> {
    if pairs == [] then {} else Places(pairs[..|pairs| - 1]) + {pairs[|pairs| - 1].0, pairs[|pairs| - 1].1}
  }

  // ---- What they keep ----

  /** The places of a key are of its removals, each once, in order. */
  ghost predicate OfKey(ops: seq<Op>, key: Key, waiting: seq<nat>) {
    && (forall n :: 0 <= n < |waiting| ==> waiting[n] < |ops| && ops[waiting[n]].Remove? && ops[waiting[n]].key == key)
    && (forall m, n :: 0 <= m < n < |waiting| ==> waiting[m] < waiting[n])
  }

  lemma OneRemoval(ops: seq<Op>, key: Key, upTo: nat)
    requires 0 < upTo <= |ops|
    ensures Of(Removals(ops, upTo), key) == Of(Removals(ops, upTo - 1), key)
              + if ops[upTo - 1].Remove? && ops[upTo - 1].key == key then [upTo - 1] else []
  {
  }

  /** The places are of the key, and each of its removals so far has its place among them. */
  ghost predicate AllOfKey(ops: seq<Op>, key: Key, waiting: seq<nat>, upTo: nat)
    requires upTo <= |ops|
  {
    && OfKey(ops, key, waiting)
    && (forall n :: 0 <= n < |waiting| ==> waiting[n] < upTo)
    && (forall j :: 0 <= j < upTo && ops[j].Remove? && ops[j].key == key ==> j in waiting)
  }

  lemma OneMoreOfKey(ops: seq<Op>, key: Key, waiting: seq<nat>, i: nat)
    requires i < |ops| && AllOfKey(ops, key, waiting, i)
    ensures AllOfKey(ops, key, waiting + if ops[i].Remove? && ops[i].key == key then [i] else [], i + 1)
  {
    assert waiting + [] == waiting;
  }

  lemma {:induction false} RemovalsAreOfKey(ops: seq<Op>, upTo: nat, key: Key)
    requires upTo <= |ops|
    ensures AllOfKey(ops, key, Of(Removals(ops, upTo), key), upTo)
  {
    if upTo > 0 {
      RemovalsAreOfKey(ops, upTo - 1, key);
      OneRemoval(ops, key, upTo);
      OneMoreOfKey(ops, key, Of(Removals(ops, upTo - 1), key), upTo - 1);
    }
  }

  /** What is waiting for a key, after some operations: its removals that are in no pair. */
  ghost predicate Waiting(ops: seq<Op>, p: Pairing, key: Key) {
    && OfKey(ops, key, Of(p.removed, key))
    && (forall n :: 0 <= n < |Of(p.removed, key)| ==> Of(p.removed, key)[n] !in Places(p.pairs))
    && (forall j :: 0 <= j < |ops| && ops[j].Remove? && ops[j].key == key && j !in Places(p.pairs) ==>
          j in Of(p.removed, key))
  }

  lemma OnePlaceMore(pairs: seq<(nat, nat)>, pair: (nat, nat))
    ensures Places(pairs + [pair]) == Places(pairs) + {pair.0, pair.1}
  {
    assert (pairs + [pair])[..|pairs|] == pairs;
  }

  /** Pairing the first of a key leaves the others of it waiting. */
  lemma FirstGone(ops: seq<Op>, p: Pairing, i: nat)
    requires i < |ops| && ops[i].Add? && Waiting(ops, p, ops[i].key) && Of(p.removed, ops[i].key) != []
    ensures var waiting := Of(p.removed, ops[i].key);
            Waiting(ops, Pairing(p.removed[ops[i].key := waiting[1..]], p.pairs + [(waiting[0], i)]), ops[i].key)
  {
    var waiting := Of(p.removed, ops[i].key);
    OnePlaceMore(p.pairs, (waiting[0], i));
    forall n | 0 <= n < |waiting[1..]| ensures waiting[1..][n] == waiting[n + 1] && waiting[n + 1] != waiting[0] {}
    forall j | j in waiting && j != waiting[0] ensures j in waiting[1..] {
      var n :| 0 <= n < |waiting| && waiting[n] == j;
      assert waiting[1..][n - 1] == j;
    }
  }

  /** The removals of another key wait on. */
  lemma OthersWaitOn(ops: seq<Op>, p: Pairing, i: nat, j: nat, waiting: seq<nat>, key: Key)
    requires i < |ops| && j < |ops| && ops[i].Add? && ops[j].Remove? && ops[j].key == ops[i].key != key
    requires Waiting(ops, p, key)
    ensures Waiting(ops, Pairing(p.removed[ops[i].key := waiting], p.pairs + [(j, i)]), key)
  {
    OnePlaceMore(p.pairs, (j, i));
    assert Of(p.removed[ops[i].key := waiting], key) == Of(p.removed, key);
  }

  lemma PairKeepsWaiting(ops: seq<Op>, p: Pairing, i: nat, key: Key)
    requires i < |ops| && ops[i].Add? && Waiting(ops, p, key) && Waiting(ops, p, ops[i].key)
    ensures Waiting(ops, PairOne(ops, p, i), key)
  {
    if Pairs(ops, p, i) {
      var waiting := Of(p.removed, ops[i].key);
      if key == ops[i].key {
        FirstGone(ops, p, i);
      } else {
        OthersWaitOn(ops, p, i, waiting[0], waiting[1..], key);
      }
    }
  }

  lemma {:induction false} AlwaysWaiting(ops: seq<Op>, upTo: nat, key: Key)
    requires upTo <= |ops|
    ensures Waiting(ops, PairUp(ops, upTo), key)
  {
    if upTo == 0 {
      RemovalsAreOfKey(ops, |ops|, key);
    } else {
      AlwaysWaiting(ops, upTo - 1, key);
      if ops[upTo - 1].Add? {
        AlwaysWaiting(ops, upTo - 1, ops[upTo - 1].key);
        PairKeepsWaiting(ops, PairUp(ops, upTo - 1), upTo - 1, key);
      }
    }
  }

  /** Only adds passed and removals are in pairs, two places to each. */
  ghost predicate PlacesAreUsed(ops: seq<Op>, pairs: seq<(nat, nat)>, upTo: nat) {
    && (forall j :: j in Places(pairs) ==> j < |ops| && (ops[j].Remove? || (ops[j].Add? && j < upTo)))
    && |Places(pairs)| == 2 * |pairs|
  }

  lemma TwoMore(places: set<nat>, j: nat, i: nat)
    requires j !in places && i !in places && i != j
    ensures |places + {j, i}| == |places| + 2
  {
    assert places + {j, i} == places + {j} + {i};
  }

  lemma PairKeepsUsed(ops: seq<Op>, pairs: seq<(nat, nat)>, j: nat, i: nat)
    requires PlacesAreUsed(ops, pairs, i) && j < |ops| && i < |ops| && ops[j].Remove? && ops[i].Add?
        && j !in Places(pairs)
    ensures PlacesAreUsed(ops, pairs + [(j, i)], i + 1)
  {
    OnePlaceMore(pairs, (j, i));
    TwoMore(Places(pairs), j, i);
  }

  lemma {:induction false} TwoPlacesEach(ops: seq<Op>, upTo: nat)
    requires upTo <= |ops|
    ensures PlacesAreUsed(ops, PairUp(ops, upTo).pairs, upTo)
  {
    if upTo > 0 {
      TwoPlacesEach(ops, upTo - 1);
      var p, i := PairUp(ops, upTo - 1), upTo - 1;
      if Pairs(ops, p, i) {
        FirstIsFree(ops, i, ops[i].key);
        PairKeepsUsed(ops, p.pairs, Of(p.removed, ops[i].key)[0], i);
      }
    }
  }

  lemma FirstIsFree(ops: seq<Op>, upTo: nat, key: Key)
    requires upTo <= |ops| && Of(PairUp(ops, upTo).removed, key) != []
    ensures var p := PairUp(ops, upTo);
            var j := Of(p.removed, key)[0]; j < |ops| && ops[j].Remove? && ops[j].key == key && j !in Places(p.pairs)
  {
    AlwaysWaiting(ops, upTo, key);
  }

  /** Every pair is a rename. */
  lemma {:induction false} PairsAreRenames(ops: seq<Op>, upTo: nat, n: nat)
    requires upTo <= |ops| && n < |PairUp(ops, upTo).pairs|
    ensures IsRename(ops, PairUp(ops, upTo).pairs[n])
  {
    var p := PairUp(ops, upTo - 1);
    if n < |p.pairs| {
      PairsAreRenames(ops, upTo - 1, n);
    } else {
      AlwaysWaiting(ops, upTo - 1, ops[upTo - 1].key);
    }
  }

  /** Nothing is lost or doubled: each operation is in one line, as one of two, or left as it is. */
  lemma EachOperationOnce(ops: seq<Op>)
    ensures var pairs := PairUp(ops, |ops|).pairs;
            |Unpaired(ops, Places(pairs), 0)| + 2 * |pairs| == |ops|
  {
    TwoPlacesEach(ops, |ops|);
    RestSize(ops, Places(PairUp(ops, |ops|).pairs));
  }

  // ---- Names on both sides ----

  /** The names a key's removals have, in order. */
  function RemovedNames(ops: seq<Op>, key: Key, upTo: nat): seq<string>
    requires upTo <= |ops|
  {
    if upTo == 0 then []
    else
      var op := ops[upTo - 1];
      RemovedNames(ops, key, upTo - 1) + if op.Remove? && op.key == key then [op.name] else []
  }

  /** The names a key's additions have, in order. */
  function AddedNames(ops: seq<Op>, key: Key, upTo: nat): seq<string>
    requires upTo <= |ops|
  {
    if upTo == 0 then []
    else
      var op := ops[upTo - 1];
      AddedNames(ops, key, upTo - 1) + if op.Add? && op.key == key then [op.name] else []
  }

  predicate OnBothSides(ops: seq<Op>, key: Key, name: string) {
    name in RemovedNames(ops, key, |ops|) && name in AddedNames(ops, key, |ops|)
  }

  /** The place of the first name that is also among the others; the length when none is. */
  function FirstShared(names: seq<string>, others: seq<string>): (h: nat)
    ensures h <= |names|
    ensures forall n :: 0 <= n < h ==> names[n] !in others
    ensures h < |names| ==> names[h] in others
  {
    if names == [] then 0 else if names[0] in others then 0 else 1 + FirstShared(names[1..], others)
  }

  /** The additions that meet the removals before the first shared one are of no removed name,
      and those that meet that one, if there is one, are all of its name. */
  predicate Apart(removed: seq<string>, added: seq<string>, h: nat)
    requires h <= |removed|
  {
    && (forall j :: 0 <= j < |added| && j < h ==> added[j] !in removed)
    && (h < |removed| ==> forall j :: h <= j < |added| ==> added[j] == removed[h])
  }

  lemma {:induction false} NamesOfRemovals(ops: seq<Op>, key: Key, upTo: nat)
    requires upTo <= |ops|
    ensures NamesAt(ops, Of(Removals(ops, upTo), key)) == RemovedNames(ops, key, upTo)
  {
    if upTo > 0 {
      NamesOfRemovals(ops, key, upTo - 1);
      NamesAppend(ops, Of(Removals(ops, upTo - 1), key), upTo - 1);
      OneRemoval(ops, key, upTo);
    }
  }

  /** A key's removals and their names, place by place. */
  lemma NamesOnce(ops: seq<Op>, key: Key)
    ensures OfKey(ops, key, Of(Removals(ops, |ops|), key))
    ensures |Of(Removals(ops, |ops|), key)| == |RemovedNames(ops, key, |ops|)|
    ensures forall q :: 0 <= q < |Of(Removals(ops, |ops|), key)| ==>
              ops[Of(Removals(ops, |ops|), key)[q]].name == RemovedNames(ops, key, |ops|)[q]
  {
    RemovalsAreOfKey(ops, |ops|, key);
    NamesOfRemovals(ops, key, |ops|);
    var all := Of(Removals(ops, |ops|), key);
    forall q | 0 <= q < |all| ensures ops[all[q]].name == RemovedNames(ops, key, |ops|)[q] {
      assert NamesAt(ops, all)[q] == ops[all[q]].name;
    }
  }

  function NamesAt(ops: seq<Op>, places: seq<nat>): seq<string> {
    seq(|places|, n requires 0 <= n < |places| =>
      if places[n] < |ops| && !ops[places[n]].Other? then ops[places[n]].name else "")
  }

  lemma NamesAppend(ops: seq<Op>, places: seq<nat>, i: nat)
    requires i < |ops|
    ensures NamesAt(ops, places + [i]) == NamesAt(ops, places) + if ops[i].Other? then [""] else [ops[i].name]
  {
  }

  lemma {:induction false} AddedName(ops: seq<Op>, key: Key, upTo: nat, i: nat)
    requires i < upTo <= |ops| && ops[i].Add? && ops[i].key == key
    ensures ops[i].name in AddedNames(ops, key, upTo)
  {
    if i < upTo - 1 {
      AddedName(ops, key, upTo - 1, i);
    }
  }

  /** Whether a pair is of the key and takes a name that is on both sides. */
  predicate TakesShared(ops: seq<Op>, key: Key, pair: (nat, nat)) {
    && pair.0 < |ops| && pair.1 < |ops| && ops[pair.0].Remove? && ops[pair.1].Add? && ops[pair.1].key == key
    && (OnBothSides(ops, key, ops[pair.0].name) || OnBothSides(ops, key, ops[pair.1].name))
  }

  predicate AnyTakesShared(ops: seq<Op>, key: Key, pairs: seq<(nat, nat)>) {
    exists n :: 0 <= n < |pairs| && TakesShared(ops, key, pairs[n])
  }

  lemma OnePairMore(ops: seq<Op>, key: Key, pairs: seq<(nat, nat)>, pair: (nat, nat))
    ensures AnyTakesShared(ops, key, pairs + [pair]) <==> AnyTakesShared(ops, key, pairs) || TakesShared(ops, key, pair)
  {
    var more := pairs + [pair];
    if n :| 0 <= n < |pairs| && TakesShared(ops, key, pairs[n]) { assert TakesShared(ops, key, more[n]); }
    if TakesShared(ops, key, pair) { assert TakesShared(ops, key, more[|pairs|]); }
  }

  /** No pair takes a shared name exactly when the additions met so far are apart, and then each
      removal before the first shared one waits for its addition. */
  ghost predicate ApartWith(ops: seq<Op>, key: Key, pairs: seq<(nat, nat)>, waiting: seq<nat>, all: seq<nat>,
                            removed: seq<string>, added: seq<string>, h: nat)
    requires h <= |all| == |removed|
  {
    && (!AnyTakesShared(ops, key, pairs) <==> Apart(removed, added, h))
    && (!AnyTakesShared(ops, key, pairs) ==> waiting == all[if |added| < h then |added| else h..])
  }

  ghost predicate ApartSoFar(ops: seq<Op>, key: Key, upTo: nat, h: nat)
    requires upTo <= |ops|
  {
    var p, all, removed := PairUp(ops, upTo), Of(Removals(ops, |ops|), key), RemovedNames(ops, key, |ops|);
    h <= |all| == |removed|
        && ApartWith(ops, key, p.pairs, Of(p.removed, key), all, removed, AddedNames(ops, key, upTo), h)
  }

  /** A pair made of the next removal, before the first shared one or that one itself. */
  lemma PairedWith(ops: seq<Op>, key: Key, pairs: seq<(nat, nat)>, pair: (nat, nat), all: seq<nat>,
                   removed: seq<string>, added: seq<string>, name: string, h: nat)
    requires h <= |all| == |removed| && Apart(removed, added, h) && !AnyTakesShared(ops, key, pairs)
    requires if |added| < h then TakesShared(ops, key, pair) <==> name in removed
             else h < |removed| && TakesShared(ops, key, pair) && name != removed[h]
    ensures ApartWith(ops, key, pairs + [pair], if |added| < h then all[|added| + 1..] else all[h + 1..], all,
                      removed, added + [name], h)
  {
    OnePairMore(ops, key, pairs, pair);
    ApartOneMore(removed, added, name, h);
  }

  lemma UnpairedWith(ops: seq<Op>, key: Key, pairs: seq<(nat, nat)>, waiting: seq<nat>, all: seq<nat>,
                     removed: seq<string>, added: seq<string>, name: string, h: nat)
    requires h <= |all| == |removed| && !AnyTakesShared(ops, key, pairs) && |added| >= h
    requires ApartWith(ops, key, pairs, waiting, all, removed, added, h) && (h < |removed| ==> name == removed[h])
    ensures ApartWith(ops, key, pairs, waiting, all, removed, added + [name], h)
  {
    ApartOneMore(removed, added, name, h);
  }

  /** An operation that adds nothing of the key changes nothing for it. */
  lemma OtherStep(ops: seq<Op>, key: Key, upTo: nat, h: nat)
    requires 0 < upTo <= |ops| && ApartSoFar(ops, key, upTo - 1, h)
    requires !(ops[upTo - 1].Add? && ops[upTo - 1].key == key)
    ensures ApartSoFar(ops, key, upTo, h)
  {
    var p, i := PairUp(ops, upTo - 1), upTo - 1;
    assert AddedNames(ops, key, upTo) == AddedNames(ops, key, upTo - 1);
    if Pairs(ops, p, i) {
      OnePairMore(ops, key, p.pairs, (Of(p.removed, ops[i].key)[0], i));
    }
  }

  /** Once a pair has taken a shared name, it stays so. */
  lemma SharedStays(ops: seq<Op>, key: Key, upTo: nat, h: nat)
    requires 0 < upTo <= |ops| && ops[upTo - 1].Add? && ops[upTo - 1].key == key
    requires ApartSoFar(ops, key, upTo - 1, h)
    requires AnyTakesShared(ops, key, PairUp(ops, upTo - 1).pairs)
    ensures ApartSoFar(ops, key, upTo, h)
  {
    var p, i := PairUp(ops, upTo - 1), upTo - 1;
    if Pairs(ops, p, i) { OnePairMore(ops, key, p.pairs, (Of(p.removed, key)[0], i)); }
    NotApartStays(RemovedNames(ops, key, |ops|), AddedNames(ops, key, upTo - 1), ops[i].name, h);
  }

  /** With no removal left to wait, nothing is paired. */
  lemma NothingMet(ops: seq<Op>, key: Key, upTo: nat, h: nat)
    requires 0 < upTo <= |ops| && ops[upTo - 1].Add? && ops[upTo - 1].key == key
    requires h == |RemovedNames(ops, key, |ops|)| && ApartSoFar(ops, key, upTo - 1, h)
    requires !AnyTakesShared(ops, key, PairUp(ops, upTo - 1).pairs) && |AddedNames(ops, key, upTo - 1)| >= h
    ensures ApartSoFar(ops, key, upTo, h)
  {
    var p, all := PairUp(ops, upTo - 1), Of(Removals(ops, |ops|), key);
    assert PairUp(ops, upTo) == p;
    UnpairedWith(ops, key, p.pairs, Of(p.removed, key), all, RemovedNames(ops, key, |ops|),
                 AddedNames(ops, key, upTo - 1), ops[upTo - 1].name, h);
  }

  /** The q-th removal of a key. */
  predicate IsRemoval(ops: seq<Op>, key: Key, j: nat, name: string) {
    j < |ops| && ops[j].Remove? && ops[j].key == key && ops[j].name == name
  }

  lemma NameAt(ops: seq<Op>, key: Key, q: nat)
    requires q < |RemovedNames(ops, key, |ops|)|
    ensures |Of(Removals(ops, |ops|), key)| == |RemovedNames(ops, key, |ops|)|
    ensures IsRemoval(ops, key, Of(Removals(ops, |ops|), key)[q], RemovedNames(ops, key, |ops|)[q])
  {
    NamesOnce(ops, key);
  }

  /** The removal the next addition of a key meets, and what comes of it. */
  lemma Meets(ops: seq<Op>, key: Key, upTo: nat, all: seq<nat>, q: nat, name: string)
    requires 0 < upTo <= |ops| && ops[upTo - 1].Add? && ops[upTo - 1].key == key
    requires q < |all| && IsRemoval(ops, key, all[q], name)
    requires Of(PairUp(ops, upTo - 1).removed, key) == all[q..]
    ensures var p, i := PairUp(ops, upTo - 1), upTo - 1;
            if name == ops[i].name then PairUp(ops, upTo) == p
            else
              && PairUp(ops, upTo).pairs == p.pairs + [(all[q], i)]
              && Of(PairUp(ops, upTo).removed, key) == all[q + 1..]
  {
    assert all[q..][0] == all[q] && all[q..][1..] == all[q + 1..];
  }

  /** What an addition leaves, once its pair is made or not. */
  lemma AddedOne(ops: seq<Op>, key: Key, upTo: nat, h: nat, pairs: seq<(nat, nat)>, waiting: seq<nat>)
    requires 0 < upTo <= |ops| && ops[upTo - 1].Add? && ops[upTo - 1].key == key
    requires PairUp(ops, upTo).pairs == pairs && Of(PairUp(ops, upTo).removed, key) == waiting
    requires h <= |Of(Removals(ops, |ops|), key)| == |RemovedNames(ops, key, |ops|)|
    requires ApartWith(ops, key, pairs, waiting, Of(Removals(ops, |ops|), key), RemovedNames(ops, key, |ops|),
                       AddedNames(ops, key, upTo - 1) + [ops[upTo - 1].name], h)
    ensures ApartSoFar(ops, key, upTo, h)
  {
  }

  /** A pair of a removal and an addition of the key takes a shared name when either is one. */
  lemma TakesOne(ops: seq<Op>, key: Key, j: nat, i: nat, name: string)
    requires IsRemoval(ops, key, j, name) && i < |ops| && ops[i].Add? && ops[i].key == key
    ensures TakesShared(ops, key, (j, i)) <==> OnBothSides(ops, key, name) || OnBothSides(ops, key, ops[i].name)
  {
  }

  /** A removal that is not shared is paired with the addition it waits for. */
  lemma UnsharedMet(ops: seq<Op>, key: Key, upTo: nat, h: nat)
    requires 0 < upTo <= |ops| && ops[upTo - 1].Add? && ops[upTo - 1].key == key
    requires h == FirstShared(RemovedNames(ops, key, |ops|), AddedNames(ops, key, |ops|))
    requires ApartSoFar(ops, key, upTo - 1, h) && !AnyTakesShared(ops, key, PairUp(ops, upTo - 1).pairs)
    requires |AddedNames(ops, key, upTo - 1)| < h
    ensures ApartSoFar(ops, key, upTo, h)
  {
    var p, i, q := PairUp(ops, upTo - 1), upTo - 1, |AddedNames(ops, key, upTo - 1)|;
    var all, removed, added := Of(Removals(ops, |ops|), key), RemovedNames(ops, key, |ops|), AddedNames(ops, key, i);
    NameAt(ops, key, q);
    AddedName(ops, key, |ops|, i);
    assert removed[q] !in AddedNames(ops, key, |ops|);
    Meets(ops, key, upTo, all, q, removed[q]);
    TakesOne(ops, key, all[q], i, removed[q]);
    PairedWith(ops, key, p.pairs, (all[q], i), all, removed, added, ops[i].name, h);
    AddedOne(ops, key, upTo, h, p.pairs + [(all[q], i)], all[q + 1..]);
  }

  /** The shared removal is paired with the first addition of another name. */
  lemma SharedMet(ops: seq<Op>, key: Key, upTo: nat, h: nat)
    requires 0 < upTo <= |ops| && ops[upTo - 1].Add? && ops[upTo - 1].key == key
    requires h == FirstShared(RemovedNames(ops, key, |ops|), AddedNames(ops, key, |ops|))
    requires ApartSoFar(ops, key, upTo - 1, h) && !AnyTakesShared(ops, key, PairUp(ops, upTo - 1).pairs)
    requires h <= |AddedNames(ops, key, upTo - 1)| && h < |RemovedNames(ops, key, |ops|)|
    ensures ApartSoFar(ops, key, upTo, h)
  {
    var p, i := PairUp(ops, upTo - 1), upTo - 1;
    var all, removed, added := Of(Removals(ops, |ops|), key), RemovedNames(ops, key, |ops|), AddedNames(ops, key, i);
    NameAt(ops, key, h);
    Meets(ops, key, upTo, all, h, removed[h]);
    if ops[i].name == removed[h] {
      UnpairedWith(ops, key, p.pairs, all[h..], all, removed, added, ops[i].name, h);
      AddedOne(ops, key, upTo, h, p.pairs, all[h..]);
    } else {
      assert OnBothSides(ops, key, removed[h]);
      TakesOne(ops, key, all[h], i, removed[h]);
      PairedWith(ops, key, p.pairs, (all[h], i), all, removed, added, ops[i].name, h);
      AddedOne(ops, key, upTo, h, p.pairs + [(all[h], i)], all[h + 1..]);
    }
  }

  /** An addition of the key meets the first removal waiting, if any. */
  lemma AddStep(ops: seq<Op>, key: Key, upTo: nat, h: nat)
    requires 0 < upTo <= |ops| && ops[upTo - 1].Add? && ops[upTo - 1].key == key
    requires h == FirstShared(RemovedNames(ops, key, |ops|), AddedNames(ops, key, |ops|))
    requires ApartSoFar(ops, key, upTo - 1, h)
    ensures ApartSoFar(ops, key, upTo, h)
  {
    if AnyTakesShared(ops, key, PairUp(ops, upTo - 1).pairs) { SharedStays(ops, key, upTo, h); }
    else if |AddedNames(ops, key, upTo - 1)| < h { UnsharedMet(ops, key, upTo, h); }
    else if h < |RemovedNames(ops, key, |ops|)| { SharedMet(ops, key, upTo, h); }
    else { NothingMet(ops, key, upTo, h); }
  }

  lemma NotApartStays(removed: seq<string>, added: seq<string>, name: string, h: nat)
    requires h <= |removed| && !Apart(removed, added, h)
    ensures !Apart(removed, added + [name], h)
  {
    var more := added + [name];
    if j :| 0 <= j < |added| && j < h && added[j] in removed {
      assert more[j] in removed;
    } else {
      var j :| h <= j < |added| && added[j] != removed[h];
      assert more[j] != removed[h];
    }
  }

  lemma ApartOneMore(removed: seq<string>, added: seq<string>, name: string, h: nat)
    requires h <= |removed| && Apart(removed, added, h)
    ensures Apart(removed, added + [name], h) <==>
              if |added| < h then name !in removed else h < |removed| ==> name == removed[h]
  {
    var more := added + [name];
    assert more[|added|] == name;
    assert forall j :: 0 <= j < |added| ==> more[j] == added[j];
  }

  lemma {:induction false} AlwaysApartSoFar(ops: seq<Op>, key: Key, upTo: nat)
    requires upTo <= |ops|
    ensures ApartSoFar(ops, key, upTo, FirstShared(RemovedNames(ops, key, |ops|), AddedNames(ops, key, |ops|)))
  {
    var h := FirstShared(RemovedNames(ops, key, |ops|), AddedNames(ops, key, |ops|));
    NamesOnce(ops, key);
    if upTo > 0 {
      AlwaysApartSoFar(ops, key, upTo - 1);
      if ops[upTo - 1].Add? && ops[upTo - 1].key == key {
        AddStep(ops, key, upTo, h);
      } else {
        OtherStep(ops, key, upTo, h);
      }
    }
  }

  /** Exactly when no rename of a key is made of a name that is on both sides. With the removed
      names and the added names in order, and h the place of the first removed name that is
      also added: the first h additions are of no removed name, and every later one is of the
      h-th removed name, if there is one. */
  lemma NoSharedNameIsPaired(ops: seq<Op>, key: Key)
    ensures var removed, added := RemovedNames(ops, key, |ops|), AddedNames(ops, key, |ops|);
            !AnyTakesShared(ops, key, PairUp(ops, |ops|).pairs) <==> Apart(removed, added, FirstShared(removed, added))
  {
    AlwaysApartSoFar(ops, key, |ops|);
  }

  /** An add that is in no pair had no removal waiting for it, or one of its own name first. */
  lemma {:induction false} LeftForAReason(ops: seq<Op>, upTo: nat, i: nat)
    requires i < upTo <= |ops| && ops[i].Add? && i !in Places(PairUp(ops, upTo).pairs)
    ensures Of(PairUp(ops, upTo).removed, ops[i].key) == [] || ops[i].name in RemovedNames(ops, ops[i].key, |ops|)
  {
    var p := PairUp(ops, upTo - 1);
    if Pairs(ops, p, upTo - 1) {
      OnePlaceMore(p.pairs, (Of(p.removed, ops[upTo - 1].key)[0], upTo - 1));
    }
    if i < upTo - 1 {
      LeftForAReason(ops, upTo - 1, i);
    } else {
      AlwaysWaiting(ops, i, ops[i].key);
      if Of(p.removed, ops[i].key) != [] {
        RemovedName(ops, ops[i].key, |ops|, Of(p.removed, ops[i].key)[0]);
      }
    }
  }

  lemma {:induction false} RemovedName(ops: seq<Op>, key: Key, upTo: nat, j: nat)
    requires j < upTo <= |ops| && ops[j].Remove? && ops[j].key == key
    ensures ops[j].name in RemovedNames(ops, key, upTo)
  {
    if j < upTo - 1 {
      RemovedName(ops, key, upTo - 1, j);
    }
  }

  /** When a removal and an addition that could be one rename are both left, the addition's name
      is on both sides. */
  lemma NoRenameIsMissed(ops: seq<Op>, i: nat, j: nat)
    requires i < |ops| && j < |ops| && ops[i].Add? && ops[j].Remove? && ops[i].key == ops[j].key
    requires i !in Places(PairUp(ops, |ops|).pairs) && j !in Places(PairUp(ops, |ops|).pairs)
    ensures OnBothSides(ops, ops[i].key, ops[i].name)
  {
    LeftForAReason(ops, |ops|, i);
    AlwaysWaiting(ops, |ops|, ops[i].key);
    AddedName(ops, ops[i].key, |ops|, i);
  }

  /** Where a name is on both sides a rename can be made of it all the same: one that is there
      both before and after is reported as renamed, and its addition is left. */
  lemma NameOnBothSidesIsPaired(key: Key)
    ensures var ops := [Remove(key, "a"), Add(key, "a"), Add(key, "b")];
            PairUp(ops, 3).pairs == [(0, 2)] && Unpaired(ops, {0, 2}, 0) == [Add(key, "a")]
  {
    var ops := [Remove(key, "a"), Add(key, "a"), Add(key, "b")];
    var none: seq<nat> := [];
    assert Removals(ops, 0) == map[] && none + [0] == [0];
    assert Removals(ops, 1) == map[key := [0]];
    assert Removals(ops, 2) == map[key := [0]];
    assert Removals(ops, 3) == map[key := [0]];
    var start := Pairing(map[key := [0]], []);
    assert PairUp(ops, 0) == start;
    assert PairUp(ops, 1) == start;
    assert PairUp(ops, 2) == start;
    assert "a"[0] != "b"[0];
    assert Pairs(ops, start, 2);
    assert PairUp(ops, 3).pairs == [(0, 2)];
    assert Unpaired(ops, {0, 2}, 3) == [];
    assert Unpaired(ops, {0, 2}, 2) == [];
    assert Unpaired(ops, {0, 2}, 1) == [Add(key, "a")];
  }

  /** Renames as single lines, and the other operations unchanged and in their order. */
  method Renames(ops: seq<Op>) returns (lines: seq<Line>, rest: seq<Op>)
    ensures |rest| + 2 * |lines| == |ops|
    ensures |lines| == |PairUp(ops, |ops|).pairs|
    ensures forall n :: 0 <= n < |lines| ==>
              var pair := PairUp(ops, |ops|).pairs[n];
              IsRename(ops, pair) && lines[n] == LineOf(ops[pair.0], ops[pair.1])
    ensures rest == Unpaired(ops, Places(PairUp(ops, |ops|).pairs), 0)
  {
    var removed: map<Key, seq<nat>> := map[];
    for i := 0 to |ops|
      invariant removed == Removals(ops, i)
    {
      if ops[i].Remove? {
        removed := removed[ops[i].key := Of(removed, ops[i].key) + [i]];
      }
    }
    var paired: set<nat> := {};
    lines := [];
    ghost var pairs: seq<(nat, nat)> := [];
    for i := 0 to |ops|
      invariant PairUp(ops, i) == Pairing(removed, pairs) && paired == Places(pairs) && |lines| == |pairs|
      invariant forall n :: 0 <= n < |pairs| ==>
                  IsRename(ops, pairs[n]) && lines[n] == LineOf(ops[pairs[n].0], ops[pairs[n].1])
    {
      var op := ops[i];
      if op.Add? && Of(removed, op.key) != [] {
        AlwaysWaiting(ops, i, op.key);
        var j := Of(removed, op.key)[0];
        if ops[j].name != op.name {
          OnePlaceMore(pairs, (j, i));
          removed := removed[op.key := Of(removed, op.key)[1..]];
          paired := paired + {i, j};
          lines := lines + [LineOf(ops[j], op)];
          pairs := pairs + [(j, i)];
        }
      }
    }
    EachOperationOnce(ops);
    rest := Unpaired(ops, paired, 0);
  }
}
