/** How often a motion is dispatched: a dispatch may run any calls, and its motion stays open until it returns. */
module Dispatching {
  import opened Words
  import opened Vectors
  import opened Motions
  import opened Decisions
  import opened Collective
  import opened History
  import opened Invariants
  import opened Runs

  /** A motion by its hash and index. */
  type Reference = (Hash, U32)

  /** The indices dispatched so far, in order. */
  function Dispatched(w: World): seq<U32> {
    Indices(w.log, Approvals)
  }

  /** No close approves, at any depth of the dispatches it starts, a motion whose own dispatch is still running. */
  ghost predicate NoReentry(cfg: Config, w: World, c: Call, busy: set<Reference>)
    decreases c, 0
  {
    c.Close? ==>
      (match CloseVerdict(cfg, w, c.hash, c.index, c.weightBound, c.lengthBound)
       case Failure(_) => true
       case Success(verdict) =>
         verdict.approved ==>
           && (c.hash, c.index) !in busy
           && (c.dispatch.succeeds ==>
                 AllNoReentry(cfg, AnnounceVerdict(cfg, w, c.hash, c.index, verdict), c.dispatch.calls,
                              busy + {(c.hash, c.index)})))
  }

  ghost predicate AllNoReentry(cfg: Config, w: World, calls: seq<Call>, busy: set<Reference>)
    decreases calls, 1
  {
    |calls| > 0 ==> NoReentry(cfg, w, calls[0], busy) && AllNoReentry(cfg, Exec(cfg, w, calls[0]).0, calls[1..], busy)
  }

  // ----- without re-entry every index is dispatched once

  /** Indices were dispatched once each, and one that is still open is being dispatched right now. */
  ghost predicate DispatchedOnce(w: World, busy: set<Reference>) {
    && NoDup(Dispatched(w))
    && (forall i :: i in Dispatched(w) ==> i < w.proposalCount)
    && (forall h :: h in w.voting && w.voting[h].index in Dispatched(w) ==> (h, w.voting[h].index) in busy)
  }

  lemma SameApprovals(cfg: Config, w: World, m: Move)
    requires Legal(cfg, w, m) && !Approves(m)
    ensures Dispatched(Apply(cfg, w, m)) == Dispatched(w)
  {
    var w' := Apply(cfg, w, m);
    if |w'.log| > |w.log| {
      Grow(cfg, w.log, w'.log[|w.log|]);
      assert w'.log == w.log + [w'.log[|w.log|]];
    }
  }

  /** A move opens no motion under an index handed out before. */
  lemma NoOldIndexReopens(cfg: Config, w: World, m: Move, h: Hash)
    requires Legal(cfg, w, m) && h in Apply(cfg, w, m).voting
    ensures var i := Apply(cfg, w, m).voting[h].index; i == w.proposalCount || (h in w.voting && w.voting[h].index == i)
  {
  }

  lemma OnceMove(cfg: Config, w: World, m: Move, busy: set<Reference>)
    requires DispatchedOnce(w, busy) && Legal(cfg, w, m) && !Approves(m)
    ensures DispatchedOnce(Apply(cfg, w, m), busy)
  {
    var w' := Apply(cfg, w, m);
    SameApprovals(cfg, w, m);
    forall h | h in w'.voting && w'.voting[h].index in Dispatched(w) ensures (h, w'.voting[h].index) in busy {
      NoOldIndexReopens(cfg, w, m, h);
    }
    PlaysOne(cfg, w, m);
    CountGrows(cfg, w, [m], w');
  }

  lemma {:induction false} OnceMoves(cfg: Config, w: World, moves: seq<Move>, w': World, busy: set<Reference>)
    requires DispatchedOnce(w, busy) && Plays(cfg, w, moves, w') && forall m :: m in moves ==> !Approves(m)
    ensures DispatchedOnce(w', busy)
    decreases |moves|
  {
    if |moves| > 0 {
      OnceMove(cfg, w, moves[0], busy);
      OnceMoves(cfg, Apply(cfg, w, moves[0]), moves[1..], w', busy);
    }
  }

  /** Approving an open motion that is not being dispatched already. */
  lemma OnceApproval(cfg: Config, w: World, e: Entry, busy: set<Reference>)
    requires IndicesPartition(w) && DispatchedOnce(w, busy) && e.Approved?
    requires LookupMotion(w, e.hash, e.index).Success? && (e.hash, e.index) !in busy
    ensures DispatchedOnce(Announce(w, e), busy + {(e.hash, e.index)})
  {
    Grow(cfg, w.log, e);
    assert OpenIndex(w, e.index);
  }

  lemma OnceVerdict(cfg: Config, w: World, c: Call, verdict: Verdict, busy: set<Reference>)
    requires Inv(cfg, w) && DispatchedOnce(w, busy) && c.Close?
    requires CloseVerdict(cfg, w, c.hash, c.index, c.weightBound, c.lengthBound) == Success(verdict)
    requires verdict.approved ==> (c.hash, c.index) !in busy
    ensures DispatchedOnce(AnnounceVerdict(cfg, w, c.hash, c.index, verdict), busy + {(c.hash, c.index)})
  {
    var said := Say(Closed(c.hash, c.index, verdict, Seats(cfg, w), w.now));
    MoveKeeps(cfg, w, said);
    OnceMove(cfg, w, said, busy);
    if verdict.approved {
      OnceApproval(cfg, Apply(cfg, w, said), Approved(c.hash, c.index, verdict.tally.yes, Seats(cfg, w)), busy);
    }
  }

  /** Once its hash is removed, a motion is no longer being dispatched. */
  lemma OnceEnd(cfg: Config, w: World, e: Entry, hash: Hash, index: U32, busy: set<Reference>)
    requires DispatchedOnce(w, busy + {(hash, index)}) && (e.Disapproved? || e.Executed?)
    ensures DispatchedOnce(RemoveProposal(Announce(w, e), hash), busy)
  {
    var all, said := busy + {(hash, index)}, Announce(w, e);
    OnceMove(cfg, w, Say(e), all);
    OnceMove(cfg, said, Remove(hash), all);
    OnceRemoved(RemoveProposal(said, hash), hash, index, busy);
  }

  lemma OnceRemoved(w: World, hash: Hash, index: U32, busy: set<Reference>)
    requires DispatchedOnce(w, busy + {(hash, index)}) && hash !in w.voting
    ensures DispatchedOnce(w, busy)
  {
  }

  lemma {:induction false} OnceCall(cfg: Config, w: World, c: Call, busy: set<Reference>)
    requires Inv(cfg, w) && DispatchedOnce(w, busy) && NoReentry(cfg, w, c, busy)
    ensures DispatchedOnce(Exec(cfg, w, c).0, busy)
    decreases c, 0
  {
    if !c.Close? {
      var moves := Flatten(cfg, w, c);
      OnceMoves(cfg, w, moves, Exec(cfg, w, c).0, busy);
    } else {
      var r := CloseVerdict(cfg, w, c.hash, c.index, c.weightBound, c.lengthBound);
      if r.Success? {
        var begun := AnnounceVerdict(cfg, w, c.hash, c.index, r.value);
        OnceVerdict(cfg, w, c, r.value, busy);
        if !r.value.approved {
          OnceEnd(cfg, begun, Disapproved(c.hash), c.hash, c.index, busy);
        } else if c.dispatch.succeeds {
          VerdictKeeps(cfg, w, c);
          OnceAll(cfg, begun, c.dispatch.calls, busy + {(c.hash, c.index)});
          OnceEnd(cfg, ExecAll(cfg, begun, c.dispatch.calls), Executed(c.hash, c.index, true), c.hash, c.index, busy);
        } else {
          OnceEnd(cfg, begun, Executed(c.hash, c.index, false), c.hash, c.index, busy);
        }
      }
    }
  }

  lemma {:induction false} OnceAll(cfg: Config, w: World, calls: seq<Call>, busy: set<Reference>)
    requires Inv(cfg, w) && DispatchedOnce(w, busy) && AllNoReentry(cfg, w, calls, busy)
    ensures DispatchedOnce(ExecAll(cfg, w, calls), busy)
    decreases calls, 1
  {
    if |calls| > 0 {
      OnceCall(cfg, w, calls[0], busy);
      var moves := Flatten(cfg, w, calls[0]);
      PlaysKeep(cfg, w, moves, Exec(cfg, w, calls[0]).0);
      OnceAll(cfg, Exec(cfg, w, calls[0]).0, calls[1..], busy);
    }
  }

  // ----- with re-entry some index is dispatched twice

  ghost predicate InFlight(w: World, busy: set<Reference>) {
    forall r :: r in busy ==> r.1 in Dispatched(w)
  }

  lemma {:induction false} DispatchedGrows(cfg: Config, w: World, moves: seq<Move>, w': World)
    requires Plays(cfg, w, moves, w')
    ensures Dispatched(w) <= Dispatched(w')
    decreases |moves|
  {
    if |moves| > 0 {
      if Approves(moves[0]) { Grow(cfg, w.log, moves[0].entry); } else { SameApprovals(cfg, w, moves[0]); }
      DispatchedGrows(cfg, Apply(cfg, w, moves[0]), moves[1..], w');
    }
  }

  lemma RepeatsStay(a: seq<U32>, b: seq<U32>)
    requires a <= b && !NoDup(a)
    ensures !NoDup(b)
  {
    var i, j :| 0 <= i < j < |a| && a[i] == a[j];
    assert b[i] == b[j];
  }

  lemma RepeatsStayOver(cfg: Config, w: World, calls: seq<Call>)
    ensures Dispatched(w) <= Dispatched(ExecAll(cfg, w, calls))
    ensures !NoDup(Dispatched(w)) ==> !NoDup(Dispatched(ExecAll(cfg, w, calls)))
  {
    var moves := FlattenAll(cfg, w, calls);
    DispatchedGrows(cfg, w, moves, ExecAll(cfg, w, calls));
    if !NoDup(Dispatched(w)) { RepeatsStay(Dispatched(w), Dispatched(ExecAll(cfg, w, calls))); }
  }

  lemma VerdictDispatches(cfg: Config, w: World, hash: Hash, index: U32, verdict: Verdict)
    requires verdict.approved
    ensures Dispatched(AnnounceVerdict(cfg, w, hash, index, verdict)) == Dispatched(w) + [index]
  {
    var said := Closed(hash, index, verdict, Seats(cfg, w), w.now);
    Grow(cfg, w.log, said);
    Grow(cfg, w.log + [said], Approved(hash, index, verdict.tally.yes, Seats(cfg, w)));
  }

  /** What follows the dispatch adds no approval. */
  lemma EndDispatchesNothing(cfg: Config, w: World, e: Entry, hash: Hash)
    requires e.Executed?
    ensures Dispatched(RemoveProposal(Announce(w, e), hash)) == Dispatched(w)
  {
    SameApprovals(cfg, w, Say(e));
    SameApprovals(cfg, Announce(w, e), Remove(hash));
  }

  lemma {:induction false} ReentryRepeats(cfg: Config, w: World, c: Call, busy: set<Reference>)
    requires InFlight(w, busy) && !NoReentry(cfg, w, c, busy)
    ensures !NoDup(Dispatched(Exec(cfg, w, c).0))
    decreases c, 0
  {
    var verdict := CloseVerdict(cfg, w, c.hash, c.index, c.weightBound, c.lengthBound).value;
    var begun := AnnounceVerdict(cfg, w, c.hash, c.index, verdict);
    VerdictDispatches(cfg, w, c.hash, c.index, verdict);
    var ended := if c.dispatch.succeeds then ExecAll(cfg, begun, c.dispatch.calls) else begun;
    if (c.hash, c.index) in busy {
      var k :| 0 <= k < |Dispatched(w)| && Dispatched(w)[k] == c.index;
      assert Dispatched(begun)[k] == Dispatched(begun)[|Dispatched(w)|];
      RepeatsStayOver(cfg, begun, c.dispatch.calls);
    } else {
      ReentryRepeatsAll(cfg, begun, c.dispatch.calls, busy + {(c.hash, c.index)});
    }
    EndDispatchesNothing(cfg, ended, Executed(c.hash, c.index, c.dispatch.succeeds), c.hash);
  }

  lemma {:induction false} ReentryRepeatsAll(cfg: Config, w: World, calls: seq<Call>, busy: set<Reference>)
    requires InFlight(w, busy) && !AllNoReentry(cfg, w, calls, busy)
    ensures !NoDup(Dispatched(ExecAll(cfg, w, calls)))
    decreases calls, 1
  {
    var next := Exec(cfg, w, calls[0]).0;
    if NoReentry(cfg, w, calls[0], busy) {
      RunOne(cfg, w, calls[0]);
      RepeatsStayOver(cfg, w, [calls[0]]);
      ReentryRepeatsAll(cfg, next, calls[1..], busy);
    } else {
      ReentryRepeats(cfg, w, calls[0], busy);
      RepeatsStayOver(cfg, next, calls[1..]);
    }
  }

  /** Over every run, every motion index is dispatched at most once exactly when no close is approved for a motion
      whose own dispatch is still running. */
  lemma DispatchedOnceExactly(cfg: Config, w: World, calls: seq<Call>)
    requires Genesis(cfg, w)
    ensures NoDup(Dispatched(ExecAll(cfg, w, calls))) <==> AllNoReentry(cfg, w, calls, {})
  {
    SoundRunsStaySound(cfg, w, []);
    if AllNoReentry(cfg, w, calls, {}) {
      OnceAll(cfg, w, calls, {});
    } else {
      ReentryRepeatsAll(cfg, w, calls, {});
    }
  }

  // ----- a condition on the calls alone

  /** No call in the dispatch of a close of `h`, at any depth, closes `h` or a hash in `busy` again. */
  predicate Avoids(c: Call, busy: set<Hash>)
    decreases c, 0
  {
    c.Close? ==> c.hash !in busy && AllAvoid(c.dispatch.calls, busy + {c.hash})
  }

  predicate AllAvoid(calls: seq<Call>, busy: set<Hash>)
    decreases calls, 1
  {
    |calls| > 0 ==> Avoids(calls[0], busy) && AllAvoid(calls[1..], busy)
  }

  lemma {:induction false} AvoidingCallsDoNotReenter(cfg: Config, w: World, c: Call,
                                                     hashes: set<Hash>, busy: set<Reference>)
    requires Avoids(c, hashes) && forall r :: r in busy ==> r.0 in hashes
    ensures NoReentry(cfg, w, c, busy)
    decreases c, 0
  {
    if c.Close? {
      var r := CloseVerdict(cfg, w, c.hash, c.index, c.weightBound, c.lengthBound);
      if r.Success? && r.value.approved {
        AvoidingRunsDoNotReenter(cfg, AnnounceVerdict(cfg, w, c.hash, c.index, r.value), c.dispatch.calls,
                                 hashes + {c.hash}, busy + {(c.hash, c.index)});
      }
    }
  }

  /** Calls whose dispatches never close their own hash again do not re-enter, in any state. */
  lemma {:induction false} AvoidingRunsDoNotReenter(cfg: Config, w: World, calls: seq<Call>,
                                                    hashes: set<Hash>, busy: set<Reference>)
    requires AllAvoid(calls, hashes) && forall r :: r in busy ==> r.0 in hashes
    ensures AllNoReentry(cfg, w, calls, busy)
    decreases calls, 1
  {
    if |calls| > 0 {
      AvoidingCallsDoNotReenter(cfg, w, calls[0], hashes, busy);
      AvoidingRunsDoNotReenter(cfg, Exec(cfg, w, calls[0]).0, calls[1..], hashes, busy);
    }
  }
}
