/** The reporter's two SQLite tables: pending rows and dead letters
    (reporter.py and dead_letter.py). */
module Store {
  import opened Results

  /** A pending row, under its AUTOINCREMENT id. */
  datatype Stored = Stored(created: int, checks: seq<CheckResult>)

  type Pending = map<nat, Stored>

  /** A dead-lettered batch; the table lists them in id order. */
  datatype Letter = Letter(created: int, checks: seq<CheckResult>)

  /** A pending batch read back for replay. */
  datatype StoredBatch = StoredBatch(id: nat, created: int, checks: seq<CheckResult>)

  // ---- ORDER BY created_at (equal times in row order) ----

  predicate NotAfter(rows: Pending, a: nat, b: nat)
    requires a in rows && b in rows
  {
    rows[a].created < rows[b].created || (rows[a].created == rows[b].created && a <= b)
  }

  predicate IsOldest(rows: Pending, a: nat) {
    a in rows && forall b :: b in rows ==> NotAfter(rows, a, b)
  }

  lemma {:induction false} OldestExists(rows: Pending)
    requires rows != map[]
    ensures exists a :: IsOldest(rows, a)
    decreases |rows|
  {
    var x :| x in rows;
    var others := rows - {x};
    if rows.Keys == {x} {
      assert IsOldest(rows, x);
    } else {
      assert rows == others[x := rows[x]];
      assert exists b :: b in rows.Keys && b != x;
      OldestExists(others);
      var a :| IsOldest(others, a);
      assert forall b :: b in rows ==> b == x || b in others;
      assert IsOldest(rows, if NotAfter(rows, x, a) then x else a);
    }
  }

  lemma OldestIsUnique(rows: Pending, a: nat, b: nat)
    requires IsOldest(rows, a) && IsOldest(rows, b)
    ensures a == b
  {
    assert NotAfter(rows, a, b) && NotAfter(rows, b, a);
  }

  function Oldest(rows: Pending): (a: nat)
    requires rows != map[]
    ensures IsOldest(rows, a)
  {
    OldestExists(rows);
    assert forall a, b :: IsOldest(rows, a) && IsOldest(rows, b) ==> a == b by {
      forall a, b | IsOldest(rows, a) && IsOldest(rows, b) ensures a == b { OldestIsUnique(rows, a, b); }
    }
    var a: nat :| a in rows && IsOldest(rows, a); a
  }

  /** The ids of the n oldest rows, oldest first. */
  function OldestIds(rows: Pending, n: nat): (ids: seq<nat>)
    ensures |ids| == Min(n, |rows|)
    ensures forall i :: 0 <= i < |ids| ==> ids[i] in rows
    ensures forall i, j :: 0 <= i < j < |ids| ==> ids[i] != ids[j]
    decreases n
  {
    if n == 0 || rows == map[] then []
    else
      var a := Oldest(rows);
      assert rows == (rows - {a})[a := rows[a]];
      [a] + OldestIds(rows - {a}, n - 1)
  }

  /** They come oldest first. */
  lemma {:induction false} OldestInOrder(rows: Pending, n: nat, i: nat, j: nat)
    requires i < j < |OldestIds(rows, n)|
    ensures NotAfter(rows, OldestIds(rows, n)[i], OldestIds(rows, n)[j])
    decreases n
  {
    if i > 0 {
      OldestInOrder(rows - {Oldest(rows)}, n - 1, i - 1, j - 1);
    }
  }

  /** No row left out is older than one of them. */
  lemma {:induction false} OldestFirst(rows: Pending, n: nat, a: nat, b: nat)
    requires a in OldestIds(rows, n) && b in rows && b !in OldestIds(rows, n)
    ensures NotAfter(rows, a, b)
    decreases n
  {
    var first := Oldest(rows);
    if a != first {
      assert b in rows - {first};
      OldestFirst(rows - {first}, n - 1, a, b);
    }
  }

  function AsSet<T(==)>(s: seq<T>): set<T> {
    set x | x in s
  }

  // ---- The pending table ----

  function Excess(rows: Pending, cap: int): nat {
    if |rows| > cap then |rows| - cap else 0
  }

  /** The ids the cap takes from a table. */
  function Victims(rows: Pending, cap: int): set<nat> {
    AsSet(OldestIds(rows, Excess(rows, cap)))
  }

  /** INSERT, then prune the oldest rows over the cap. */
  function AfterStore(rows: Pending, id: nat, now: int, checks: seq<CheckResult>, cap: int): Pending {
    var all := rows[id := Stored(now, checks)];
    all - Victims(all, cap)
  }

  /** The rows a read past the held ones can return. */
  function Unheld(rows: Pending, held: set<nat>): Pending {
    rows - held
  }

  /** SQL's LIMIT: a negative one is none. */
  function Window(rows: Pending, limit: int): nat {
    if limit < 0 then |rows| else limit
  }

  /** The oldest rows not held, as batches to replay. */
  function ReadPending(rows: Pending, held: set<nat>, limit: int): (batches: seq<StoredBatch>)
    ensures |batches| == Min(Window(Unheld(rows, held), limit), |Unheld(rows, held)|)
    ensures forall i :: 0 <= i < |batches| ==>
              Current(rows, batches[i]) && batches[i].id in rows && batches[i].id !in held
    ensures forall i, j :: 0 <= i < j < |batches| ==> batches[i].id != batches[j].id
  {
    var free := Unheld(rows, held);
    var ids := OldestIds(free, Window(free, limit));
    seq(|ids|, i requires 0 <= i < |ids| => StoredBatch(ids[i], free[ids[i]].created, free[ids[i]].checks))
  }

  /** Whether a batch read earlier still is what its row holds, if the row is there. */
  predicate Current(rows: Pending, b: StoredBatch) {
    b.id in rows ==> rows[b.id] == Stored(b.created, b.checks)
  }

  /** UPDATE of one row: without the row, nothing. */
  function AfterRewrite(rows: Pending, id: nat, checks: seq<CheckResult>): Pending {
    if id in rows then rows[id := rows[id].(checks := checks)] else rows
  }

  // ---- The dead letters ----

  /** INSERT, then prune the oldest letters over the cap. */
  function AfterLetter(letters: seq<Letter>, letter: Letter, cap: int): seq<Letter> {
    var all := letters + [letter];
    if |all| <= cap then all else all[Min(|all| - cap, |all|)..]
  }

  function LostLetters(letters: seq<Letter>, letter: Letter, cap: int): seq<Letter> {
    var all := letters + [letter];
    if |all| <= cap then [] else all[..Min(|all| - cap, |all|)]
  }

  // ---- Where results are ----

  ghost predicate InPending(rows: Pending, r: CheckResult) {
    exists id :: id in rows && r in rows[id].checks
  }

  ghost predicate InLetters(letters: seq<Letter>, r: CheckResult) {
    exists i :: 0 <= i < |letters| && r in letters[i].checks
  }

  /** The results of the rows a cap takes. */
  ghost function Pruned(rows: Pending, cap: int): set<CheckResult> {
    set id, r | id in Victims(rows, cap) && id in rows && r in rows[id].checks :: r
  }

  /** The results of the letters a cap takes. */
  ghost function Lost(letters: seq<Letter>, letter: Letter, cap: int): set<CheckResult> {
    var lost := LostLetters(letters, letter, cap);
    set l, r | l in lost && r in l.checks :: r
  }

  /** A store keeps every result there was and the new ones, but for what its cap took. */
  lemma StoreConserves(rows: Pending, id: nat, now: int, checks: seq<CheckResult>, cap: int, r: CheckResult)
    requires id !in rows
    ensures var all := rows[id := Stored(now, checks)];
            InPending(AfterStore(rows, id, now, checks, cap), r) || r in Pruned(all, cap)
            <==> InPending(rows, r) || r in checks
  {
    var all := rows[id := Stored(now, checks)];
    var kept := AfterStore(rows, id, now, checks, cap);
    var victims := Victims(all, cap);
    if i :| i in rows && r in rows[i].checks {
      assert i in all && all[i] == rows[i];
      assert i in victims || (i in kept && kept[i] == all[i]);
    }
    if r in checks {
      assert id in all && all[id].checks == checks;
      assert id in victims || (id in kept && kept[id] == all[id]);
    }
    if i :| i in all && r in all[i].checks {
      assert i == id || i in rows;
    }
  }

  /** The pending table is within its cap after every store. */
  lemma StoreKeepsCap(rows: Pending, id: nat, now: int, checks: seq<CheckResult>, cap: nat)
    ensures |AfterStore(rows, id, now, checks, cap)| <= cap
  {
    var all := rows[id := Stored(now, checks)];
    var ids := OldestIds(all, Excess(all, cap));
    SeqSetSize(ids);
    assert AsSet(ids) <= all.Keys;
    assert (all - AsSet(ids)).Keys == all.Keys - AsSet(ids);
  }

  lemma {:induction false} SeqSetSize(ids: seq<nat>)
    requires forall i, j :: 0 <= i < j < |ids| ==> ids[i] != ids[j]
    ensures |AsSet(ids)| == |ids|
  {
    if ids == [] {
    } else {
      SeqSetSize(ids[1..]);
      assert AsSet(ids) == {ids[0]} + AsSet(ids[1..]);
    }
  }

  lemma LettersOf(a: seq<Letter>, b: seq<Letter>, r: CheckResult)
    ensures InLetters(a + b, r) <==> InLetters(a, r) || InLetters(b, r)
  {
    var all := a + b;
    if i :| 0 <= i < |a| && r in a[i].checks { assert all[i] == a[i]; }
    if i :| 0 <= i < |b| && r in b[i].checks { assert all[|a| + i] == b[i]; }
  }

  /** A dead letter keeps every result there was and its own, but for what the cap took. */
  lemma LetterConserves(letters: seq<Letter>, letter: Letter, cap: int, r: CheckResult)
    ensures InLetters(AfterLetter(letters, letter, cap), r) || r in Lost(letters, letter, cap)
       <==> InLetters(letters, r) || r in letter.checks
    ensures cap >= 0 ==> |AfterLetter(letters, letter, cap)| <= cap
  {
    var kept, lost := AfterLetter(letters, letter, cap), LostLetters(letters, letter, cap);
    assert letters + [letter] == lost + kept;
    LettersOf(letters, [letter], r);
    LettersOf(lost, kept, r);
    assert InLetters([letter], r) <==> r in letter.checks by { assert [letter][0] == letter; }
    assert InLetters(lost, r) <==> r in Lost(letters, letter, cap) by {
      if i :| 0 <= i < |lost| && r in lost[i].checks { assert lost[i] in lost; }
    }
  }
}
