/** How long replay can take: while no new row is stored, every stored result the server would
    take on its own is with it after so many complete passes, as the rows, the read window and
    the oversized results of its row give (reporter.py). */
module Rounds {
  import opened Results
  import opened Splitting
  import opened Passes
  import opened Store
  import opened Protocol
  import opened Conservation
  import opened Progress
  import opened LimitedReplay

  // ---- A round: the passes from one release of the held rows to the next ----

  ghost predicate StoresNone(g: Agent, e: Event)
    requires Enabled(g, e)
  {
    e.FlightWrite? ==> !g.flights[e.task].Storing?
  }

  /** The rows a pass can still read in this round. */
  ghost function Free(g: Agent): set<nat> {
    g.pending.Keys - g.held
  }

  /** So many complete passes are enough for the rest of this round, and so many for a whole one. */
  ghost predicate InRound(g: Agent, window: nat, passes: int, whole: nat) {
    && 0 <= passes && |g.pending| <= whole * window && |Free(g)| <= passes * window
    && (!g.replay.Idle? ==> passes >= 1 && |Free(g) - ReadBy(g.replay)| <= (passes - 1) * window)
  }

  lemma OneFewer(passes: int, window: nat)
    ensures (passes - 1) * window == passes * window - window
    ensures passes >= 1 ==> (passes - 1) * window >= 0
    ensures passes <= 0 ==> passes * window <= 0
  {
  }

  lemma TakenOut<T>(all: set<T>, taken: set<T>)
    requires taken <= all
    ensures |all - taken| == |all| - |taken|
  {
    assert all == taken + (all - taken);
  }

  /** What a read takes of the rows it can. */
  lemma OldestTaken(free: Pending, limit: int, window: nat)
    requires limit < 0 || limit >= window
    ensures var taken := AsSet(OldestIds(free, Window(free, limit)));
            taken <= free.Keys && |free.Keys - taken| <= Max(|free.Keys| - window, 0)
  {
    var ids := OldestIds(free, Window(free, limit));
    assert |free| == |free.Keys|;
    SeqSetSize(ids);
    TakenOut(free.Keys, AsSet(ids));
  }

  lemma ReadTakes(g: Agent, limit: int, window: nat)
    requires g.replay.Idle? && Free(g) != {} && window >= 1 && (limit < 0 || limit >= window)
    ensures var g' := StepReplayRead(g, limit);
            && Free(g') == Free(g) && g'.pending == g.pending && g'.held == g.held
            && |Free(g) - ReadBy(g'.replay)| <= Max(|Free(g)| - window, 0)
  {
    var free := Unheld(g.pending, g.held);
    assert free.Keys == Free(g);
    NothingUnheld(free, {});
    assert ReadPending(g.pending, g.held, limit) != [];
    ReadIds(g, limit);
    OldestTaken(free, limit, window);
  }

  lemma ReadInRound(g: Agent, limit: int, window: nat, passes: int, whole: nat)
    requires g.replay.Idle? && Free(g) != {} && window >= 1 && (limit < 0 || limit >= window)
    requires InRound(g, window, passes, whole)
    ensures InRound(StepReplayRead(g, limit), window, passes, whole)
  {
    ReadTakes(g, limit, window);
    OneFewer(passes, window);
  }

  /** A read that finds every row held lets all go, and a new round begins. */
  lemma ReleaseInRound(g: Agent, limit: int, window: nat, passes: int, whole: nat)
    requires g.replay.Idle? && Free(g) == {} && g.pending != map[]
    requires window >= 1 && (limit < 0 || limit >= window) && InRound(g, window, passes, whole)
    ensures StepReplayRead(g, limit).held == {} && InRound(StepReplayRead(g, limit), window, whole, whole)
  {
    var released := g.(held := {});
    NothingUnheld(g.pending, g.held);
    assert Free(released) == g.pending.Keys;
    assert |g.pending.Keys| == |g.pending|;
    assert g.pending.Keys != {} by { NothingUnheld(g.pending, {}); }
    assert ReadPending(g.pending, g.held, limit) == [];
    assert StepReplayRead(g, limit) == StepReplayRead(released, limit);
    ReadInRound(released, limit, window, whole, whole);
  }

  /** A complete pass is one fewer. */
  lemma DoneInRound(g: Agent, window: nat, passes: int, whole: nat)
    requires PassTracks(g) && Enabled(g, ReplayDone) && InRound(g, window, passes, whole)
    ensures InRound(Step(g, ReplayDone), window, passes - 1, whole)
  {
    forall x | x in ReadBy(g.replay) ensures x !in Free(g) {
      CompletePassDealsWithAll(g, x);
    }
    assert Free(g) == Free(g) - ReadBy(g.replay);
  }

  /** Rows only leave, and are only held. */
  lemma QuietFrame(g: Agent, e: Event)
    requires Enabled(g, e) && StoresNone(g, e) && !e.ReplayRead?
    ensures Step(g, e).pending.Keys <= g.pending.Keys && g.held <= Step(g, e).held
  {
  }

  lemma QuietInRound(g: Agent, e: Event, window: nat, passes: int, whole: nat)
    requires Enabled(g, e) && StoresNone(g, e) && !e.ReplayRead? && InRound(g, window, passes, whole)
    ensures InRound(Step(g, e), window, passes, whole)
  {
    var g' := Step(g, e);
    QuietFrame(g, e);
    assert |g.pending.Keys| == |g.pending| && |g'.pending.Keys| == |g'.pending|;
    SubsetSize(g'.pending.Keys, g.pending.Keys);
    SubsetSize(Free(g'), Free(g));
    if !g'.replay.Idle? {
      ReadStays(g, e);
      SubsetSize(Free(g') - ReadBy(g.replay), Free(g) - ReadBy(g.replay));
    }
  }

  // ---- How many complete passes are enough for a result ----

  /** What is left of this round, and a whole round for each pass the row still needs. */
  ghost function Enough(g: Agent, id: nat, rounds: int, passes: int, whole: nat): int {
    passes + (if id in g.held then rounds + 1 else rounds) * whole
  }

  /** The server has the result, or will have it after so many complete passes. */
  ghost predicate Due(g: Agent, id: nat, fits: Limit, r: CheckResult, window: nat, whole: nat, enough: int) {
    r in g.accepted
    || exists rounds, passes :: Comes(g, id, fits, r, window, whole, rounds, passes)
                                && Enough(g, id, rounds, passes, whole) <= enough
  }

  ghost predicate Comes(g: Agent, id: nat, fits: Limit, r: CheckResult, window: nat, whole: nat,
                        rounds: int, passes: int) {
    Coming(g, id, fits, r, rounds) && InRound(g, window, passes, whole)
  }

  /** It takes at least one more. */
  lemma NotYet(g: Agent, id: nat, fits: Limit, r: CheckResult, window: nat, whole: nat, rounds: int, passes: int)
    requires Comes(g, id, fits, r, window, whole, rounds, passes) && r !in g.accepted
    ensures rounds >= 0 && whole >= 1 && Enough(g, id, rounds, passes, whole) >= 1
  {
    OneFewer(passes, window);
    OneFewer(whole, window);
    assert g.pending.Keys != {} && |g.pending.Keys| == |g.pending| by { assert id in g.pending.Keys; }
    if id !in g.held {
      assert id in Free(g) && |Free(g)| >= 1;
      assert passes >= 1;
      assert rounds * whole >= 0;
    } else {
      assert (rounds + 1) * whole >= whole;
    }
  }

  lemma DueNow(g: Agent, id: nat, fits: Limit, r: CheckResult, window: nat, whole: nat, rounds: int, passes: int,
               enough: int)
    requires Coming(g, id, fits, r, rounds) && InRound(g, window, passes, whole)
    requires Enough(g, id, rounds, passes, whole) <= enough
    ensures Due(g, id, fits, r, window, whole, enough)
  {
    assert Comes(g, id, fits, r, window, whole, rounds, passes);
  }

  /** A read keeps what is enough, whether or not it begins a new round. */
  lemma ReadLowers(g: Agent, limit: int, id: nat, fits: Limit, r: CheckResult, window: nat, whole: nat,
                   rounds: int, passes: int)
    requires g.replay.Idle? && window >= 1 && (limit < 0 || limit >= window) && r !in g.accepted
    requires Comes(g, id, fits, r, window, whole, rounds, passes)
    requires Coming(StepReplayRead(g, limit), id, fits, r, rounds)
    ensures Due(StepReplayRead(g, limit), id, fits, r, window, whole, Enough(g, id, rounds, passes, whole))
  {
    var g' := StepReplayRead(g, limit);
    if Free(g) != {} {
      ReadTakes(g, limit, window);
      ReadInRound(g, limit, window, passes, whole);
      DueNow(g', id, fits, r, window, whole, rounds, passes, Enough(g, id, rounds, passes, whole));
    } else {
      assert id in g.held by { assert id !in Free(g); }
      ReleaseInRound(g, limit, window, passes, whole);
      assert (rounds + 1) * whole == rounds * whole + whole;
      DueNow(g', id, fits, r, window, whole, rounds, whole, Enough(g, id, rounds, passes, whole));
    }
  }

  /** Settled, the row is held and needs one round fewer; otherwise it is held as before. */
  lemma HeldWhenSettled(g: Agent, e: Event, id: nat)
    requires Enabled(g, e) && !e.ReplayRead?
    ensures id in Step(g, e).held ==> id in g.held || LimitedReplay.Settles(g, e, id)
  {
  }

  /** A row settled and held needs one round fewer. */
  lemma EnoughOnceHeld(g: Agent, g': Agent, id: nat, rounds: int, passes: int, whole: nat, settled: bool)
    requires id in g'.held ==> id in g.held || settled
    requires id in g.held ==> id in g'.held
    ensures Enough(g', id, rounds - if settled then 1 else 0, passes, whole) <= Enough(g, id, rounds, passes, whole)
  {
    assert (rounds + 1) * whole == rounds * whole + whole && (rounds - 1) * whole == rounds * whole - whole;
  }

  lemma QuietLowers(g: Agent, e: Event, id: nat, fits: Limit, r: CheckResult, window: nat, whole: nat,
                    rounds: int, passes: int)
    requires Enabled(g, e) && StoresNone(g, e) && !e.ReplayRead? && !e.ReplayDone?
    requires Comes(g, id, fits, r, window, whole, rounds, passes)
    requires Coming(Step(g, e), id, fits, r, rounds - if LimitedReplay.Settles(g, e, id) then 1 else 0)
    ensures Due(Step(g, e), id, fits, r, window, whole, Enough(g, id, rounds, passes, whole))
  {
    var g', settled := Step(g, e), LimitedReplay.Settles(g, e, id);
    QuietInRound(g, e, window, passes, whole);
    QuietFrame(g, e);
    HeldWhenSettled(g, e, id);
    EnoughOnceHeld(g, g', id, rounds, passes, whole, settled);
    DueNow(g', id, fits, r, window, whole, rounds - if settled then 1 else 0, passes,
           Enough(g, id, rounds, passes, whole));
  }

  lemma SparesAnyway(g: Agent, e: Event, id: nat)
    requires Enabled(g, e) && StoresNone(g, e)
    ensures Spares(g, e, id)
  {
  }

  /** A complete pass lowers what is enough by one, and no other event raises it. */
  lemma StepLowers(g: Agent, e: Event, id: nat, fits: Limit, r: CheckResult, window: nat, whole: nat, enough: int)
    requires Inv(g) && PassTracks(g) && Enabled(g, e) && window >= 1 && !Oversized(r, fits)
    requires StoresNone(g, e) && ByLimit(g, e, fits) && ReadsAtLeast(e, window)
    requires Due(g, id, fits, r, window, whole, enough)
    ensures Due(Step(g, e), id, fits, r, window, whole, enough - if e.ReplayDone? then 1 else 0)
  {
    if r in g.accepted {
      AcceptedGrows(g, e);
    } else {
      var rounds, passes :| Comes(g, id, fits, r, window, whole, rounds, passes)
                            && Enough(g, id, rounds, passes, whole) <= enough;
      SparesAnyway(g, e, id);
      StepKeepsComing(g, e, id, fits, r, rounds);
      if e.ReplayRead? {
        ReadLowers(g, e.limit, id, fits, r, window, whole, rounds, passes);
        DueLater(Step(g, e), id, fits, r, window, whole, Enough(g, id, rounds, passes, whole), enough);
      } else if e.ReplayDone? {
        NotYet(g, id, fits, r, window, whole, rounds, passes);
        DoneInRound(g, window, passes, whole);
        DueNow(Step(g, e), id, fits, r, window, whole, rounds, passes - 1, enough - 1);
      } else {
        QuietLowers(g, e, id, fits, r, window, whole, rounds, passes);
        DueLater(Step(g, e), id, fits, r, window, whole, Enough(g, id, rounds, passes, whole), enough);
      }
    }
  }

  lemma DueLater(g: Agent, id: nat, fits: Limit, r: CheckResult, window: nat, whole: nat, enough: int, more: int)
    requires Due(g, id, fits, r, window, whole, enough) && enough <= more
    ensures Due(g, id, fits, r, window, whole, more)
  {
    if r !in g.accepted {
      var rounds, passes :| Comes(g, id, fits, r, window, whole, rounds, passes)
                            && Enough(g, id, rounds, passes, whole) <= enough;
      DueNow(g, id, fits, r, window, whole, rounds, passes, more);
    }
  }

  // ---- Over runs ----

  /** Nothing new is stored, replay is answered by the limit, and reads are of a window at least. */
  ghost predicate Emptying(g: Agent, events: seq<Event>, fits: Limit, window: nat)
    requires Legal(g, events)
    decreases |events|
  {
    events == [] || (StoresNone(g, events[0]) && ByLimit(g, events[0], fits) && ReadsAtLeast(events[0], window)
                     && Emptying(Step(g, events[0]), events[1..], fits, window))
  }

  lemma {:induction false} RunLowers(g: Agent, events: seq<Event>, id: nat, fits: Limit, r: CheckResult, window: nat,
                                     whole: nat, enough: int)
    requires Inv(g) && PassTracks(g) && Legal(g, events) && window >= 1 && !Oversized(r, fits)
    requires Emptying(g, events, fits, window) && Due(g, id, fits, r, window, whole, enough)
    ensures Due(Exec(g, events), id, fits, r, window, whole, enough - CompletePasses(events))
    decreases |events|
  {
    if events != [] {
      StepLowers(g, events[0], id, fits, r, window, whole, enough);
      StepKeepsInv(g, events[0]);
      StepTracks(g, events[0]);
      RunLowers(Step(g, events[0]), events[1..], id, fits, r, window, whole,
                enough - if events[0].ReplayDone? then 1 else 0);
    }
  }

  lemma FirstDue(g: Agent, id: nat, fits: Limit, r: CheckResult, window: nat, whole: nat)
    requires g.replay.Idle? && id in g.pending && r in g.pending[id].checks && |g.pending| <= whole * window
    ensures Due(g, id, fits, r, window, whole,
                whole * (CountOversized(g.pending[id].checks, fits) / 2 + if id in g.held then 2 else 1))
  {
    var row := g.pending[id].checks;
    var rounds := CountOversized(row, fits) / 2;
    assert row[..|row|] == row;
    assert Behind(row, fits, r, rounds);
    assert |g.pending.Keys| == |g.pending|;
    SubsetSize(Free(g), g.pending.Keys);
    DueNow(g, id, fits, r, window, whole, rounds, whole, whole * (rounds + if id in g.held then 2 else 1));
  }

  /** While no new row is stored, and n passes have room for all the rows there are: after
      n (b/2 + 1) complete passes the server has every result it would take on its own out of a
      row with b results over its limit, and one round more when the row is held to begin with.
      Answers to flushes, passes cut short and everything else come in between in any order. */
  lemma DeliveredAfterPasses(g: Agent, events: seq<Event>, id: nat, fits: Limit, r: CheckResult, window: nat, n: nat)
    requires Inv(g) && g.replay.Idle? && id in g.pending && r in g.pending[id].checks && !Oversized(r, fits)
    requires window >= 1 && |g.pending| <= n * window
    requires Legal(g, events) && Emptying(g, events, fits, window)
    requires CompletePasses(events)
          >= n * (CountOversized(g.pending[id].checks, fits) / 2 + if id in g.held then 2 else 1)
    ensures r in Exec(g, events).accepted
  {
    var enough := n * (CountOversized(g.pending[id].checks, fits) / 2 + if id in g.held then 2 else 1);
    FirstDue(g, id, fits, r, window, n);
    RunLowers(g, events, id, fits, r, window, n, enough);
    var end := Exec(g, events);
    if r !in end.accepted {
      var rounds, passes :| Comes(end, id, fits, r, window, n, rounds, passes)
                            && Enough(end, id, rounds, passes, n) <= enough - CompletePasses(events);
      NotYet(end, id, fits, r, window, n, rounds, passes);
    }
  }
}
