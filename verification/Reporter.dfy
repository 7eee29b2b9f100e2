/** The reporter object (reporter.py): the batch in memory, the rows in its database, and
    the methods that move results between them, each run without interruption. What the
    interleavings keep is proved of the steps in `Protocol`, which use the same functions.
    Local storage is on, the database takes every write, and the reporter keeps running. */
module Reporting {
  import opened Results
  import opened Splitting
  import opened Store
  import opened Protocol
  import Conservation

  /** The server from its n-th POST on. */
  function From(server: Server, n: nat): Server {
    (k: nat, part: seq<CheckResult>) => server(n + k, part)
  }

  /** The dead letters after the permanently refused parts of a split have joined them. */
  function LettersAfter(letters: seq<Letter>, posted: seq<Post>, created: int, cap: int): seq<Letter> {
    if posted == [] then letters
    else
      var last := posted[|posted| - 1];
      var before := LettersAfter(letters, posted[..|posted| - 1], created, cap);
      if last.outcome == Permanent then AfterLetter(before, Letter(created, last.part), cap) else before
  }

  /** A combined POST of several rows stays within the batch size, and takes every row that
      still fits. */
  lemma {:induction false} GroupsStayWithin(rest: seq<StoredBatch>, batchSize: int, n: nat, size: nat)
    requires 1 <= n <= |rest| && size == |Combined(rest[..n])|
    requires n > 1 ==> size <= batchSize
    ensures var m := Grown(rest, batchSize, n, size);
            && (m > 1 ==> |Combined(rest[..m])| <= batchSize)
            && (m < |rest| ==> |Combined(rest[..m + 1])| > batchSize)
    decreases |rest| - n
  {
    if n < |rest| {
      CombinedOneMore(rest, n);
      if size + |rest[n].checks| <= batchSize {
        GroupsStayWithin(rest, batchSize, n + 1, size + |rest[n].checks|);
      }
    }
  }

  lemma {:induction false} CombinedOneMore(rest: seq<StoredBatch>, n: nat)
    requires n < |rest|
    ensures Combined(rest[..n + 1]) == Combined(rest[..n]) + rest[n].checks
  {
    if n == 0 {
      assert rest[..1] == [rest[0]] && rest[..0] == [];
    } else {
      assert rest[..n + 1][1..] == rest[1..][..n] && rest[..n][1..] == rest[1..][..n - 1];
      CombinedOneMore(rest[1..], n - 1);
      assert rest[0].checks + (Combined(rest[1..][..n - 1]) + rest[n].checks)
          == (rest[0].checks + Combined(rest[1..][..n - 1])) + rest[n].checks;
    }
  }

  lemma {:induction false} PostsAreAnswers(s: Split, server: Server)
    requires forall i :: 0 <= i < |s.posted| ==> s.posted[i].outcome == server(i, s.posted[i].part)
    ensures forall i :: 0 <= i < |Run(s, server).posted| ==>
              Run(s, server).posted[i].outcome == server(i, Run(s, server).posted[i].part)
    decreases Cost(s.work)
  {
    if s.work == [] {
    } else if s.stop.Some? {
      PostsAreAnswers(SetAside(s), server);
    } else {
      var outcome := server(|s.posted|, s.work[0]);
      AnsweredCost(s, outcome);
      PostsAreAnswers(Answered(s, outcome), server);
    }
  }

  lemma TransientPost(batch: seq<CheckResult>, server: Server) returns (i: nat)
    requires |batch| != 1 && Outcome(Run(Start(batch), server)) == Transient
    ensures i < |Run(Start(batch), server).posted| && Run(Start(batch), server).posted[i].outcome == Transient
  {
    StartTracks(batch);
    RunTracks(batch, Start(batch), server);
    i :| 0 <= i < |Run(Start(batch), server).posted| && Run(Start(batch), server).posted[i].outcome == Transient;
  }

  /** A split that ended at a transient failure met one at one of its POSTs. */
  lemma TransientWasMet(batch: seq<CheckResult>, server: Server, base: nat, posts: nat)
    requires |batch| != 1
    requires Outcome(Run(Start(batch), From(server, base))) == Transient
    requires posts == base + |Run(Start(batch), From(server, base)).posted|
    ensures exists n, part :: base <= n < posts && server(n, part) == Transient
  {
    var late := From(server, base);
    var i := TransientPost(batch, late);
    PostsAreAnswers(Start(batch), late);
    var part := Run(Start(batch), late).posted[i].part;
    assert late(i, part) == server(base + i, part);
  }

  /** What one delivery of a batch comes to: the parts it was posted in after the whole, the
      POSTs refused for good, what it left unsent, and the outcome it reports. */
  datatype DeliveryReport = DeliveryReport(outcome: Delivery, parts: seq<Post>, refused: seq<Post>,
      unsent: seq<CheckResult>)

  function Delivered(batch: seq<CheckResult>, server: Server, post: nat): DeliveryReport {
    match server(post, batch)
    case Sent => DeliveryReport(Sent, [], [], [])
    case Permanent => DeliveryReport(Permanent, [], [Post(batch, Permanent)], [])
    case Transient => DeliveryReport(Transient, [], [], batch)
    case TooLarge =>
      if |batch| == 1 then DeliveryReport(TooLarge, [], [], batch)
      else
        var end := Run(Start(batch), From(server, post + 1));
        DeliveryReport(Outcome(end), end.posted, end.posted, Unsent(end))
  }

  lemma PruneIs(rows: Pending, cap: int)
    ensures rows - Victims(rows, cap) == if |rows| > cap then rows - AsSet(OldestIds(rows, |rows| - cap)) else rows
    ensures (rows - Victims(rows, cap)).Keys <= rows.Keys
  {
    assert OldestIds(rows, 0) == [];
  }

  lemma OneLetter(letters: seq<Letter>, batch: seq<CheckResult>, created: int, cap: int)
    ensures LettersAfter(letters, [Post(batch, Permanent)], created, cap)
        == AfterLetter(letters, Letter(created, batch), cap)
  {
    assert [Post(batch, Permanent)][..0] == [];
  }

  /** The loop's variables once the first part of the work has its answer. */
  method TakeAnswer(work: seq<seq<CheckResult>>, untried: seq<CheckResult>, refused: seq<CheckResult>, sent: nat,
                    permanent: bool,
                    posted: seq<Post>, outcome: Delivery)
    returns (left: seq<seq<CheckResult>>, back: seq<CheckResult>, alone: seq<CheckResult>, count: nat,
        stop: Option<Delivery>,
             condemned: bool, all: seq<Post>)
    requires work != []
    ensures Split(left, back, alone, count, stop, condemned, all)
         == Answered(Split(work, untried, refused, sent, None, permanent, posted), outcome)
  {
    var part := work[0];
    left, back, alone, count, stop, condemned := work[1..], untried, refused, sent, None, permanent;
    all := posted + [Post(part, outcome)];
    match outcome {
      case Sent => count := sent + |part|;
      case Permanent => condemned := true;
      case TooLarge =>
        if |part| > 1 {
          left := Halves(part) + left;
        } else {
          alone := refused + part;
          if |alone| >= 2 && sent == 0 { stop := Some(TooLarge); }
        }
      case Transient =>
        back, stop := untried + part, Some(Transient);
    }
  }

  class Reporter {
    const server: Server
    var posts: nat                       // POSTs made so far
    var clock: int                       // the time it is

    var batchSize: int
    var maxQueueSize: int
    var maxFilesPerBatch: int
    var maxStoredBatches: int
    var maxDeadLetters: int

    var currentBatch: seq<CheckResult>
    var sizeHeld: set<nat>
    var pending: Pending
    var nextId: nat
    var letters: seq<Letter>

    ghost predicate Valid()
      reads this
    {
      forall id :: id in pending ==> id < nextId
    }

    constructor (server: Server)
      ensures Valid() && this.server == server && posts == 0
      ensures currentBatch == [] && pending == map[] && letters == [] && sizeHeld == {}
    {
      this.server := server;
      posts, clock, nextId := 0, 0, 0;
      batchSize, maxQueueSize, maxFilesPerBatch, maxStoredBatches, maxDeadLetters := 500, 5000, 5, 10000, 1000;
      currentBatch, sizeHeld, pending, letters := [], {}, map[], [];
    }

    // ---- The batch in memory ----

    method AddResult(result: CheckResult)
      modifies this`currentBatch
      ensures currentBatch == AfterAdd(old(currentBatch), result, maxQueueSize)
    {
      if |currentBatch| >= maxQueueSize {
        currentBatch := SliceFrom(currentBatch, -(maxQueueSize - 1));
      }
      currentBatch := currentBatch + [result];
    }

    /** The whole batch in one delivery; the memory holds none of it afterwards. */
    method Flush() returns (success: bool)
      requires Valid()
      modifies this`currentBatch, this`posts, this`letters, this`pending, this`nextId
      ensures Valid() && currentBatch == []
      ensures old(currentBatch) == [] ==> success && posts == old(posts)
      ensures old(currentBatch) != [] ==>
                success == (Delivered(old(currentBatch), server, old(posts)).outcome == Sent)
      ensures old(currentBatch) != []
          ==> StoredFrom(old(currentBatch), old(posts), old(pending), old(nextId), old(letters))
    {
      if currentBatch == [] { return true; }
      var batch := currentBatch;
      currentBatch := [];
      var outcome := Deliver(batch);
      success := outcome == Sent;
    }

    // ---- The server and the tables ----

    method PostBatch(batch: seq<CheckResult>) returns (outcome: Delivery)
      modifies this`posts
      ensures outcome == server(old(posts), batch) && posts == old(posts) + 1
    {
      outcome := server(posts, batch);
      posts := posts + 1;
    }

    method DeadLetterBatch(batch: seq<CheckResult>, created: int)
      modifies this`letters
      ensures letters == AfterLetter(old(letters), Letter(created, batch), maxDeadLetters)
    {
      letters := letters + [Letter(created, batch)];
      if |letters| > maxDeadLetters {
        letters := letters[Min(|letters| - maxDeadLetters, |letters|)..];
      }
    }

    method StoreBatch(batch: seq<CheckResult>)
      requires Valid()
      modifies this`pending, this`nextId
      ensures Valid() && nextId == old(nextId) + 1
      ensures pending == AfterStore(old(pending), old(nextId), clock, batch, maxStoredBatches)
    {
      var all := pending[nextId := Stored(clock, batch)];
      PruneIs(all, maxStoredBatches);
      pending := if |all| > maxStoredBatches then all - AsSet(OldestIds(all, |all| - maxStoredBatches)) else all;
      nextId := nextId + 1;
      assert pending.Keys <= all.Keys;
    }

    /** The rows a replay pass starts from. */
    method ReadStoredReports() returns (batches: seq<StoredBatch>)
      modifies this`sizeHeld
      ensures batches == ReadPending(pending, sizeHeld, maxFilesPerBatch)
      ensures sizeHeld == if ReadPending(pending, old(sizeHeld), maxFilesPerBatch) == [] then {} else old(sizeHeld)
    {
      batches := ReadPending(pending, sizeHeld, maxFilesPerBatch);
      if batches == [] {
        sizeHeld := {};
        batches := ReadPending(pending, sizeHeld, maxFilesPerBatch);
      }
    }

    method DeleteStored(id: nat)
      requires Valid()
      modifies this`pending
      ensures Valid() && pending == old(pending) - {id}
    {
      pending := pending - {id};
    }

    method RewriteStored(id: nat, checks: seq<CheckResult>)
      requires Valid()
      modifies this`pending
      ensures Valid() && pending == AfterRewrite(old(pending), id, checks)
    {
      if id in pending { pending := pending[id := pending[id].(checks := checks)]; }
    }

    /** The row keeps its time; without the row nothing moves. */
    method MoveToDeadLetters(id: nat)
      requires Valid()
      modifies this`letters, this`pending
      ensures Valid() && pending == old(pending) - {id}
      ensures letters == if id in old(pending)
                         then AfterLetter(old(letters), Letter(old(pending)[id].created, old(pending)[id].checks),
                             maxDeadLetters)
                         else old(letters)
    {
      if id !in pending {
        assert pending - {id} == pending;
        return;
      }
      DeadLetterBatch(pending[id].checks, pending[id].created);
      pending := pending - {id};
    }

    // ---- Sending ----

    /** The loop of `SendInParts`: it is `Run`, and the parts refused for good are
        dead-lettered as it meets them. */
    method PostParts(batch: seq<CheckResult>, created: int)
      returns (untried: seq<CheckResult>, refused: seq<CheckResult>, sent: nat, stop: Option<Delivery>, permanent: bool,
               posted: seq<Post>)
      modifies this`posts, this`letters
      ensures Run(Start(batch), From(server, old(posts))) == Split([], untried, refused, sent, stop, permanent, posted)
      ensures posts == old(posts) + |posted|
      ensures letters == LettersAfter(old(letters), posted, created, maxDeadLetters)
    {
      var work: seq<seq<CheckResult>> := Halves(batch);
      untried, refused, sent, permanent, posted := [], [], 0, false, [];
      stop := None;
      ghost var rest := From(server, posts);
      ghost var s := Start(batch);
      while work != []
        invariant s == Split(work, untried, refused, sent, stop, permanent, posted)
        invariant Run(s, rest) == Run(Start(batch), rest)
        invariant posts == old(posts) + |posted|
        invariant letters == LettersAfter(old(letters), posted, created, maxDeadLetters)
        decreases Cost(work)
      {
        RunOn(s, rest);
        if stop.Some? {
          work, untried := work[1..], untried + work[0];
          s := SetAside(s);
        } else {
          var part := work[0];
          var outcome := PostPart(part, posted, created, old(letters));
          assert outcome == rest(|posted|, part);
          s := Answered(s, outcome);
          work, untried, refused, sent, stop, permanent, posted :=
            TakeAnswer(work, untried, refused, sent, permanent, posted, outcome);
        }
      }
      RunOver(s, rest);
    }

    /** The POST of one part, dead-lettered when it is refused for good. */
    method PostPart(part: seq<CheckResult>, ghost posted: seq<Post>, created: int, ghost before: seq<Letter>)
        returns (outcome: Delivery)
      requires letters == LettersAfter(before, posted, created, maxDeadLetters)
      modifies this`posts, this`letters
      ensures outcome == server(old(posts), part) && posts == old(posts) + 1
      ensures letters == LettersAfter(before, posted + [Post(part, outcome)], created, maxDeadLetters)
    {
      outcome := PostBatch(part);
      assert (posted + [Post(part, outcome)])[..|posted|] == posted;
      if outcome == Permanent { DeadLetterBatch(part, created); }
    }

    /** A refused batch in halves, each split again while it is still refused. */
    method SendInParts(batch: seq<CheckResult>, created: int)
        returns (got: Delivery, unsent: seq<CheckResult>, posted: seq<Post>)
      modifies this`posts, this`letters
      ensures |batch| == 1 ==> got == TooLarge && unsent == batch && posted == []
      ensures |batch| != 1 ==> var end := Run(Start(batch), From(server, old(posts)));
                               got == Outcome(end) && unsent == Unsent(end) && posted == end.posted
      ensures posts == old(posts) + |posted|
      ensures letters == LettersAfter(old(letters), posted, created, maxDeadLetters)
    {
      if |batch| == 1 { return TooLarge, batch, []; }
      var untried, refused, sent, stop, permanent, all := PostParts(batch, created);
      RunOver(Split([], untried, refused, sent, stop, permanent, all), server);
      posted, unsent := all, untried + refused;
      got := if stop == Some(Transient) then Transient
             else if unsent != [] then TooLarge
             else if permanent then Permanent else Sent;
    }

    /** What a delivery left in the tables, as `Delivered` says. */
    ghost predicate StoredFrom(batch: seq<CheckResult>, post: nat, rows: Pending, id: nat, before: seq<Letter>)
      reads this
    {
      var d := Delivered(batch, server, post);
      && posts == post + 1 + |d.parts|
      && letters == LettersAfter(before, d.refused, clock, maxDeadLetters)
      && (d.unsent == [] ==> pending == rows && nextId == id)
      && (d.unsent != [] ==> pending == AfterStore(rows, id, clock, d.unsent, maxStoredBatches) && nextId == id + 1)
    }

    /** POST a batch: what the server does not take is stored as one row or dead-lettered. */
    method Deliver(batch: seq<CheckResult>) returns (outcome: Delivery)
      requires Valid() && batch != []
      modifies this`posts, this`letters, this`pending, this`nextId
      ensures Valid() && outcome == Delivered(batch, server, old(posts)).outcome
      ensures StoredFrom(batch, old(posts), old(pending), old(nextId), old(letters))
    {
      outcome := PostBatch(batch);
      if outcome == Sent { return; }
      if outcome == Permanent {
        DeadLetterBatch(batch, clock);
        OneLetter(old(letters), batch, clock, maxDeadLetters);
        return;
      }
      var unsent := batch;
      if outcome == TooLarge {
        var posted;
        outcome, unsent, posted := SendInParts(batch, clock);
      }
      if unsent != [] { StoreBatch(unsent); }
    }

    // ---- Replaying ----

    /** Whether every batch is dealt with: its row gone, or held back by a size refusal. */
    ghost predicate DealtWith(batches: seq<StoredBatch>)
      reads this
    {
      forall b :: b in batches ==> b.id !in pending || b.id in sizeHeld
    }

    ghost predicate Copies(batches: seq<StoredBatch>)
      reads this
    {
      forall b :: b in batches ==> Current(pending, b)
    }

    /** The rows of no batch here, as they were. */
    ghost predicate OthersUntouched(batches: seq<StoredBatch>, before: Pending)
      reads this
    {
      && pending.Keys <= before.Keys
      && forall id :: id in before && (forall b :: b in batches ==> b.id != id)
          ==> id in pending && pending[id] == before[id]
    }

    /** Whether one of the POSTs from the given one on met a transient failure. */
    ghost predicate MetTransient(post: nat)
      reads this
    {
      exists n, part :: post <= n < posts && server(n, part) == Transient
    }

    /** One stored row over the request size limit, in halves: what is left of it stays in
        its own row, and a row a size refusal left is held. */
    method ReplayInParts(stored: StoredBatch) returns (ok: bool)
      requires Valid() && Current(pending, stored)
      modifies this`posts, this`letters, this`pending, this`sizeHeld
      ensures Valid() && OthersUntouched([stored], old(pending)) && old(posts) <= posts
      ensures sizeHeld == old(sizeHeld) || sizeHeld == old(sizeHeld) + {stored.id}
      ensures ok ==> DealtWith([stored])
      ensures !ok ==> MetTransient(old(posts))
      ensures |stored.checks| == 1 ==> ok && pending == old(pending) && stored.id in sizeHeld
      ensures |stored.checks| != 1 ==>
                var end := Run(Start(stored.checks), From(server, old(posts)));
                && (ok <==> Outcome(end) != Transient)
                && (stored.id in old(pending) && Unsent(end) != [] ==>
                      stored.id in pending && pending[stored.id] == Stored(stored.created, Unsent(end)))
                && letters == LettersAfter(old(letters), end.posted, stored.created, maxDeadLetters)
    {
      var got, unsent, posted := SendInParts(stored.checks, stored.created);
      if unsent == [] {
        DeleteStored(stored.id);
      } else if unsent != stored.checks {
        RewriteStored(stored.id, unsent);
      }
      if got == TooLarge {
        sizeHeld := sizeHeld + {stored.id};
      }
      assert stored in [stored];
      if got == Transient { TransientWasMet(stored.checks, server, old(posts), posts); }
      return got != Transient;
    }

    /** Replay stored batches as one POST, and one by one when that is refused. */
    method ReplayGroup(group: seq<StoredBatch>) returns (ok: bool)
      requires Valid() && group != [] && Conservation.Distinct(group) && Copies(group)
      modifies this`posts, this`letters, this`pending, this`sizeHeld
      ensures Valid() && OthersUntouched(group, old(pending)) && old(sizeHeld) <= sizeHeld && old(posts) <= posts
      ensures ok ==> DealtWith(group)
      ensures !ok ==> MetTransient(old(posts))
      decreases |group|, 0
    {
      var combined := Combined(group);
      var outcome := PostBatch(combined);
      if outcome == Sent {
        for i := 0 to |group|
          invariant Valid() && OthersUntouched(group, old(pending)) && sizeHeld == old(sizeHeld) && old(posts) <= posts
          invariant forall k :: 0 <= k < i ==> group[k].id !in pending
        {
          assert group[i] in group;
          DeleteStored(group[i].id);
        }
        return true;
      }
      if outcome == TooLarge && |group| == 1 {
        assert group == [group[0]];
        ok := ReplayInParts(group[0]);
        return;
      }
      if outcome == Transient {
        assert server(old(posts), combined) == Transient;
        return false;
      }
      if |group| > 1 {
        for i := 0 to |group|
          invariant Valid() && OthersUntouched(group, old(pending)) && old(sizeHeld) <= sizeHeld && old(posts) <= posts
          invariant forall k :: 0 <= k < i ==> group[k].id !in pending || group[k].id in sizeHeld
          invariant forall k :: i <= k < |group| ==> Current(pending, group[k])
        {
          assert group[i..i + 1] == [group[i]];
          ok := ReplaySlice(group, i, i + 1, [group[i]]);
          if !ok { return; }
        }
        return true;
      }
      assert group == [group[0]];
      MoveToDeadLetters(group[0].id);
      return true;
    }

    /** Some consecutive batches of a longer list; the later ones stay as they were read. */
    method ReplaySlice(ghost batches: seq<StoredBatch>, ghost from: nat, ghost to: nat, group: seq<StoredBatch>)
        returns (ok: bool)
      requires Valid() && from < to <= |batches| && group == batches[from..to]
      requires Conservation.Distinct(batches)
      requires forall k :: from <= k < |batches| ==> Current(pending, batches[k])
      modifies this`posts, this`letters, this`pending, this`sizeHeld
      ensures Valid() && OthersUntouched(batches, old(pending)) && old(sizeHeld) <= sizeHeld && old(posts) <= posts
      ensures ok ==> forall k :: from <= k < to ==> batches[k].id !in pending || batches[k].id in sizeHeld
      ensures !ok ==> MetTransient(old(posts))
      ensures forall k :: to <= k < |batches| ==> Current(pending, batches[k])
      decreases |group|, 1
    {
      ghost var rows := pending;
      assert forall b :: b in group ==> b in batches;
      assert forall j :: 0 <= j < |group| ==> group[j] == batches[from + j];
      ok := ReplayGroup(group);
      forall k | to <= k < |batches| ensures Current(pending, batches[k]) {
        assert Current(rows, batches[k]);
        assert forall b :: b in group ==> b.id != batches[k].id;
      }
      if ok {
        forall k | from <= k < to ensures batches[k].id !in pending || batches[k].id in sizeHeld {
          assert group[k - from] in group;
        }
      }
    }

    /** One fetch of stored batches, combined up to the batch size per POST. */
    method ReplayPending(batches: seq<StoredBatch>) returns (complete: bool)
      requires Valid() && Conservation.Distinct(batches) && Copies(batches)
      modifies this`posts, this`letters, this`pending, this`sizeHeld
      ensures Valid() && OthersUntouched(batches, old(pending)) && old(sizeHeld) <= sizeHeld && old(posts) <= posts
      ensures complete ==> DealtWith(batches)
      ensures !complete ==> MetTransient(old(posts))
    {
      var group: seq<StoredBatch>, size: nat := [], 0;
      ghost var start := 0;
      for i := 0 to |batches|
        invariant 0 <= start <= i && group == batches[start..i] && (group == [] ==> start == i)
        invariant Valid() && OthersUntouched(batches, old(pending)) && old(sizeHeld) <= sizeHeld && old(posts) <= posts
        invariant group != []
            ==> GroupLength(batches[start..], batchSize) == Grown(batches[start..], batchSize, i - start, size)
        invariant group == [] ==> size == 0
        invariant forall k :: 0 <= k < start ==> batches[k].id !in pending || batches[k].id in sizeHeld
        invariant forall k :: start <= k < |batches| ==> Current(pending, batches[k])
      {
        var stored := batches[i];
        if group != [] && size + |stored.checks| > batchSize {
          assert |group| == GroupLength(batches[start..], batchSize);
          var ok := ReplaySlice(batches, start, i, group);
          if !ok { return false; }
          group, size, start := [], 0, i;
        }
        group, size := group + [stored], size + |stored.checks|;
      }
      if group != [] {
        complete := ReplaySlice(batches, start, |batches|, group);
      } else {
        complete := true;
      }
    }

    /** One replay pass. When the server meets it with no transient failure, no row it read
        is left waiting, whatever the server made of each. */
    method ReplayPass() returns (read: seq<StoredBatch>, complete: bool)
      requires Valid()
      modifies this`posts, this`letters, this`pending, this`sizeHeld
      ensures Valid() && old(posts) <= posts
      ensures var held := if ReadPending(old(pending), old(sizeHeld), maxFilesPerBatch) == [] then {}
          else old(sizeHeld);
              read == ReadPending(old(pending), held, maxFilesPerBatch)
      ensures !MetTransient(old(posts)) ==> complete
      ensures complete ==> DealtWith(read)
      ensures OthersUntouched(read, old(pending))
    {
      read := ReadStoredReports();
      complete := ReplayPending(read);
    }
  }
}
