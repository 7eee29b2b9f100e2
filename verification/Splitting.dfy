/** How the reporter sends a batch the request size limit refused: in halves, each
    split again while it is still refused (reporter.py, `_send_in_parts`). */
module Splitting {
  import opened Results

  /** How a POST ends: taken, refused for good, refused for its size, or to be tried again. */
  datatype Delivery = Sent | Permanent | TooLarge | Transient

  /** One POST of a part and its outcome. */
  datatype Post = Post(part: seq<CheckResult>, outcome: Delivery)

  /** The server, as the reporter meets it: the outcome of the n-th POST of a run.
      Nothing is asked of it, so every history of answers is some `Server`. */
  type Server = (nat, seq<CheckResult>) -> Delivery

  /** The variables of the splitting loop, and the POSTs it has made. */
  datatype Split = Split(
    work: seq<seq<CheckResult>>,
    untried: seq<CheckResult>,
    refused: seq<CheckResult>,
    sent: nat,
    stop: Option<Delivery>,
    permanent: bool,
    posted: seq<Post>)

  function Halves(batch: seq<CheckResult>): seq<seq<CheckResult>> {
    [batch[..|batch| / 2], batch[|batch| / 2..]]
  }

  function Start(batch: seq<CheckResult>): Split {
    Split(Halves(batch), [], [], 0, None, false, [])
  }

  /** The loop's turn on the first part of the work, once the server has answered. */
  function Answered(s: Split, outcome: Delivery): Split
    requires s.work != []
  {
    var part := s.work[0];
    var rest := s.(work := s.work[1..], posted := s.posted + [Post(part, outcome)]);
    match outcome
    case Sent => rest.(sent := s.sent + |part|)
    case Permanent => rest.(permanent := true)
    case TooLarge =>
      if |part| > 1 then rest.(work := Halves(part) + rest.work)
      else
        var refused := s.refused + part;
        rest.(refused := refused, stop := if |refused| >= 2 && s.sent == 0 then Some(TooLarge) else s.stop)
    case Transient => rest.(untried := s.untried + part, stop := Some(Transient))
  }

  /** The turn of a stopped loop: the part is not posted. */
  function SetAside(s: Split): Split
    requires s.work != []
  {
    s.(work := s.work[1..], untried := s.untried + s.work[0])
  }

  /** How many POSTs a part can still cost. */
  function PartCost(part: seq<CheckResult>): nat {
    if |part| <= 1 then 1 else 2 * |part| - 1
  }

  function Cost(work: seq<seq<CheckResult>>): nat {
    if work == [] then 0 else PartCost(work[0]) + Cost(work[1..])
  }

  lemma CostOfHalves(part: seq<CheckResult>, work: seq<seq<CheckResult>>)
    requires |part| > 1
    ensures Cost(Halves(part) + work) == 2 * |part| - 2 + Cost(work)
  {
    var h := Halves(part);
    assert (h + work)[1..] == [h[1]] + work;
    assert ([h[1]] + work)[1..] == work;
  }

  lemma AnsweredCost(s: Split, outcome: Delivery)
    requires s.work != []
    ensures Cost(Answered(s, outcome).work) < Cost(s.work)
  {
    if outcome == TooLarge && |s.work[0]| > 1 {
      CostOfHalves(s.work[0], s.work[1..]);
    }
  }

  /** The loop run to its end against a server. */
  function Run(s: Split, server: Server): (end: Split)
    ensures end.work == []
    decreases Cost(s.work)
  {
    if s.work == [] then s
    else if s.stop.Some? then Run(SetAside(s), server)
    else
      var outcome := server(|s.posted|, s.work[0]);
      AnsweredCost(s, outcome);
      Run(Answered(s, outcome), server)
  }

  lemma RunOn(s: Split, server: Server)
    requires s.work != []
    ensures s.stop.Some? ==> Run(s, server) == Run(SetAside(s), server)
    ensures s.stop.None? ==> Run(s, server) == Run(Answered(s, server(|s.posted|, s.work[0])), server)
    ensures s.stop.Some? ==> Cost(SetAside(s).work) < Cost(s.work)
    ensures s.stop.None? ==> Cost(Answered(s, server(|s.posted|, s.work[0])).work) < Cost(s.work)
  {
    if s.stop.None? { AnsweredCost(s, server(|s.posted|, s.work[0])); }
  }

  /** What the loop has not sent: untried first, refused last. */
  function Unsent(s: Split): seq<CheckResult> {
    s.untried + Flatten(s.work) + s.refused
  }

  lemma RunOver(s: Split, server: Server)
    requires s.work == []
    ensures Run(s, server) == s && Unsent(s) == s.untried + s.refused
  {
    assert s.untried + [] == s.untried;
  }

  function Outcome(s: Split): Delivery {
    if s.stop == Some(Transient) then Transient
    else if Unsent(s) != [] then TooLarge
    else if s.permanent then Permanent
    else Sent
  }

  // ---- What became of every part ----

  /** Whether a POST settled its part: a refused part of several results is only split,
      and one that met a transient failure goes back. */
  predicate Settles(p: Post) {
    p.outcome == Sent || p.outcome == Permanent || (p.outcome == TooLarge && |p.part| <= 1)
  }

  /** The results the settling POSTs carried, in the order they were posted. */
  function Settled(posted: seq<Post>): seq<CheckResult> {
    if posted == [] then []
    else Settled(posted[..|posted| - 1]) + if Settles(posted[|posted| - 1]) then posted[|posted| - 1].part else []
  }

  /** Those of them whose POST had this outcome. */
  function SettledAs(posted: seq<Post>, outcome: Delivery): seq<CheckResult> {
    if posted == [] then []
    else
      var last := posted[|posted| - 1];
      SettledAs(posted[..|posted| - 1], outcome) + if Settles(last) && last.outcome == outcome then last.part else []
  }

  /** The settled parts, the untried results and the work still to do are exactly the
      batch, in that order. */
  ghost predicate Tiles(batch: seq<CheckResult>, s: Split) {
    batch == Settled(s.posted) + s.untried + Flatten(s.work)
  }

  /** Every variable of the loop tells the truth about the POSTs made. */
  ghost predicate Tells(s: Split) {
    && s.refused == SettledAs(s.posted, TooLarge)
    && s.sent == |SettledAs(s.posted, Sent)|
    && (s.permanent <==> exists p :: p in s.posted && p.outcome == Permanent)
    && (s.stop == Some(Transient) <==> exists p :: p in s.posted && p.outcome == Transient)
    && (s.stop == Some(TooLarge) ==> |s.refused| == 2 && s.sent == 0)
    && (s.stop.None? ==> s.untried == [] && (|s.refused| < 2 || s.sent > 0))
    && (s.stop.Some? ==> s.stop.value == TooLarge || s.stop.value == Transient)
  }

  /** No part is empty, and the POSTs made and those still possible stay within 2n - 2. */
  ghost predicate Bounded(batch: seq<CheckResult>, s: Split) {
    && |s.posted| + Cost(s.work) <= 2 * |batch| - 2
    && (forall i :: 0 <= i < |s.work| ==> s.work[i] != [])
    && (forall i :: 0 <= i < |s.posted| ==> s.posted[i].part != [])
    && (s.stop == Some(Transient) ==> s.untried != [])
  }

  /** The loop invariant. */
  ghost predicate Tracks(batch: seq<CheckResult>, s: Split) {
    Tiles(batch, s) && Tells(s) && (|batch| >= 2 ==> Bounded(batch, s))
  }

  lemma FlattenHalves(part: seq<CheckResult>, work: seq<seq<CheckResult>>)
    ensures Flatten(Halves(part) + work) == part + Flatten(work)
  {
    var h := Halves(part);
    assert (h + work)[1..] == [h[1]] + work;
    assert ([h[1]] + work)[1..] == work;
    assert h[0] + (h[1] + Flatten(work)) == part + Flatten(work);
  }

  lemma StartTracks(batch: seq<CheckResult>)
    requires |batch| != 1
    ensures Tracks(batch, Start(batch))
  {
    assert Halves(batch) + [] == Halves(batch);
    FlattenHalves(batch, []);
    assert batch == [] + [] + (batch + []);
    if |batch| >= 2 { CostOfHalves(batch, []); }
  }

  lemma PostedOneMore(posted: seq<Post>, p: Post)
    ensures Settled(posted + [p]) == Settled(posted) + if Settles(p) then p.part else []
    ensures forall d :: SettledAs(posted + [p], d)
                       == SettledAs(posted, d) + if Settles(p) && p.outcome == d then p.part else []
  {
    assert (posted + [p])[..|posted|] == posted;
  }

  /** A part leaves the head of the work: the batch read with it in its own place. */
  lemma HeadOut(batch: seq<CheckResult>, s: Split)
    requires Tiles(batch, s) && s.work != [] && s.untried == []
    ensures batch == Settled(s.posted) + s.work[0] + Flatten(s.work[1..])
  {
    assert Flatten(s.work) == s.work[0] + Flatten(s.work[1..]);
  }

  lemma Nothing(a: seq<CheckResult>)
    ensures a + [] == a && [] + a == a
  {
  }

  lemma SplitTiles(batch: seq<CheckResult>, s: Split)
    requires Tiles(batch, s) && s.work != [] && s.untried == [] && |s.work[0]| > 1
    ensures Tiles(batch, Answered(s, TooLarge))
  {
    PostedOneMore(s.posted, Post(s.work[0], TooLarge));
    FlattenHalves(s.work[0], s.work[1..]);
    Nothing(Settled(s.posted));
  }

  lemma PutBackTiles(batch: seq<CheckResult>, s: Split)
    requires Tiles(batch, s) && s.work != [] && s.untried == []
    ensures Tiles(batch, Answered(s, Transient))
  {
    HeadOut(batch, s);
    PostedOneMore(s.posted, Post(s.work[0], Transient));
    Nothing(Settled(s.posted));
    Nothing(s.work[0]);
  }

  lemma SettledTiles(batch: seq<CheckResult>, s: Split, outcome: Delivery)
    requires Tiles(batch, s) && s.work != [] && s.untried == [] && Settles(Post(s.work[0], outcome))
    ensures Tiles(batch, Answered(s, outcome))
  {
    HeadOut(batch, s);
    PostedOneMore(s.posted, Post(s.work[0], outcome));
    Nothing(Settled(s.posted) + s.work[0]);
  }

  lemma AnsweredTiles(batch: seq<CheckResult>, s: Split, outcome: Delivery)
    requires Tiles(batch, s) && s.work != [] && s.untried == []
    ensures Tiles(batch, Answered(s, outcome))
  {
    if outcome == TooLarge && |s.work[0]| > 1 { SplitTiles(batch, s); }
    else if outcome == Transient { PutBackTiles(batch, s); }
    else { SettledTiles(batch, s, outcome); }
  }

  lemma OneMoreOutcome(posted: seq<Post>, p: Post, d: Delivery)
    ensures (exists q :: q in posted + [p] && q.outcome == d)
        <==> (exists q :: q in posted && q.outcome == d) || p.outcome == d
  {
    if q :| q in posted && q.outcome == d { assert q in posted + [p]; }
    if p.outcome == d { assert p in posted + [p]; }
  }

  lemma AnsweredTells(s: Split, outcome: Delivery)
    requires Tells(s) && s.work != [] && s.stop.None?
    ensures Tells(Answered(s, outcome))
  {
    var p := Post(s.work[0], outcome);
    PostedOneMore(s.posted, p);
    OneMoreOutcome(s.posted, p, Permanent);
    OneMoreOutcome(s.posted, p, Transient);
  }

  lemma AnsweredBounded(batch: seq<CheckResult>, s: Split, outcome: Delivery)
    requires Bounded(batch, s) && s.work != []
    ensures Bounded(batch, Answered(s, outcome))
  {
    AnsweredCost(s, outcome);
  }

  lemma AnsweredTracks(batch: seq<CheckResult>, s: Split, outcome: Delivery)
    requires Tracks(batch, s) && s.work != [] && s.stop.None?
    ensures Tracks(batch, Answered(s, outcome))
  {
    AnsweredTiles(batch, s, outcome);
    AnsweredTells(s, outcome);
    if |batch| >= 2 { AnsweredBounded(batch, s, outcome); }
  }

  lemma SetAsideTracks(batch: seq<CheckResult>, s: Split)
    requires Tracks(batch, s) && s.work != [] && s.stop.Some?
    ensures Tracks(batch, SetAside(s)) && Unsent(SetAside(s)) == Unsent(s)
  {
    var settled, part, rest := Settled(s.posted), s.work[0], Flatten(s.work[1..]);
    assert (s.untried + part) + rest == s.untried + (part + rest);
    assert settled + (s.untried + part) + rest == settled + s.untried + (part + rest);
  }

  lemma {:induction false} RunTracks(batch: seq<CheckResult>, s: Split, server: Server)
    requires Tracks(batch, s)
    ensures Tracks(batch, Run(s, server))
    decreases Cost(s.work)
  {
    if s.work == [] {
    } else if s.stop.Some? {
      SetAsideTracks(batch, s);
      RunTracks(batch, SetAside(s), server);
    } else {
      var outcome := server(|s.posted|, s.work[0]);
      AnsweredTracks(batch, s, outcome);
      AnsweredCost(s, outcome);
      RunTracks(batch, Answered(s, outcome), server);
    }
  }

  // ---- What a finished split means ----

  lemma {:induction false} SettledIsSentOrRefused(posted: seq<Post>, r: CheckResult)
    requires forall i :: 0 <= i < |posted| ==> posted[i].outcome != Permanent
    requires r in Settled(posted)
    ensures r in SettledAs(posted, Sent) || (r in SettledAs(posted, TooLarge) && Post([r], TooLarge) in posted)
  {
    var init, last := posted[..|posted| - 1], posted[|posted| - 1];
    if Settles(last) && r in last.part {
      if last.outcome == TooLarge { assert last.part == [r]; }
    } else {
      SettledIsSentOrRefused(init, r);
    }
  }

  /** A batch refused for its size is posted in at most 2n - 2 parts. Its results are, in
      order, those its settling POSTs carried and then the untried ones; a result comes back
      unsent exactly when it is untried or was refused alone; and the outcome says which of
      the classes are empty. */
  lemma SplitSummary(batch: seq<CheckResult>, server: Server)
    requires |batch| >= 2
    ensures var end := Run(Start(batch), server);
            && |end.posted| <= 2 * |batch| - 2
            && batch == Settled(end.posted) + end.untried
            && Unsent(end) == end.untried + SettledAs(end.posted, TooLarge)
            && (Outcome(end) == Transient <==> exists p :: p in end.posted && p.outcome == Transient)
            && (Outcome(end) == TooLarge <==> Unsent(end) != [] && Outcome(end) != Transient)
            && (Outcome(end) == Permanent <==>
                  Unsent(end) == [] && exists p :: p in end.posted && p.outcome == Permanent)
            && (Outcome(end) == Sent ==> forall r :: r in batch ==> r in SettledAs(end.posted, Sent))
            && (end.untried != [] && Outcome(end) == TooLarge ==>
                  |SettledAs(end.posted, TooLarge)| == 2 && SettledAs(end.posted, Sent) == [])
  {
    var end := Run(Start(batch), server);
    StartTracks(batch);
    RunTracks(batch, Start(batch), server);
    Nothing(Settled(end.posted) + end.untried);
    Nothing(end.untried);
    if Outcome(end) == Sent {
      AllSent(batch, end);
    }
  }

  lemma AllSent(batch: seq<CheckResult>, end: Split)
    requires Tracks(batch, end) && end.work == [] && Outcome(end) == Sent
    ensures forall r :: r in batch ==> r in SettledAs(end.posted, Sent)
  {
    assert Unsent(end) == [];
    assert end.untried == [] && end.refused == [];
    assert batch == Settled(end.posted);
    forall r | r in batch ensures r in SettledAs(end.posted, Sent) {
      SettledIsSentOrRefused(end.posted, r);
    }
  }
}
