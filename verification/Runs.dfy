/** Theorems about every run of the pallet, with any calls nested in the dispatch of approved motions. */
module Runs {
  import opened Words
  import opened Vectors
  import opened Motions
  import opened Decisions
  import opened Collective
  import opened History
  import opened Invariants

  // ----- every run is a sequence of moves

  ghost predicate Approves(m: Move) {
    m.Say? && m.entry.Approved?
  }

  lemma {:induction false} Flatten(cfg: Config, w: World, c: Call) returns (moves: seq<Move>)
    ensures Plays(cfg, w, moves, Exec(cfg, w, c).0)
    ensures !c.Close? ==> forall m :: m in moves ==> !Approves(m)
    decreases c, 0
  {
    moves := [];
    match c
    case Propose(who, proposal, lengthBound, duration) =>
      if ProposeError(cfg, w, who, proposal, lengthBound, duration).None? {
        moves := [Open(proposal, Seats(cfg, w) / 2 + 1, Seats(cfg, w), duration)];
        PlaysOne(cfg, w, moves[0]);
      }
    case CastAsMember(who, hash, index, approve) =>
      moves := FlattenVote(cfg, w, c);
    case CastAsSenator(who, hash, index, approve) =>
      moves := FlattenVote(cfg, w, c);
    case Close(_, _, _, _, _) =>
      moves := FlattenClose(cfg, w, c);
    case DisapproveProposal(hash) =>
      moves := [Say(Disapproved(hash)), Remove(hash)];
      PlaysTwo(cfg, w, moves[0], moves[1]);
    case SetMembers(outgoing, new_, prime) =>
      moves := [Clear(Elems(outgoing)), Govern(Sort(new_), prime, w.senate, w.now)];
      PlaysTwo(cfg, w, moves[0], moves[1]);
    case ChangeMembers(outgoing, new_) =>
      moves := [Clear(Elems(outgoing)), Govern(new_, None, w.senate, w.now)];
      PlaysTwo(cfg, w, moves[0], moves[1]);
    case SetPrime(prime) =>
      moves := [Govern(w.members, prime, w.senate, w.now)];
      PlaysOne(cfg, w, moves[0]);
    case AddSenator(_) => moves := FlattenSenate(cfg, w, c);
    case SwapSenator(_, _) => moves := FlattenSenate(cfg, w, c);
    case RetireSenator(_) => moves := FlattenSenate(cfg, w, c);
    case DropSenator(_) => moves := FlattenSenate(cfg, w, c);
    case Advance(blocks) =>
      moves := [Govern(w.members, w.prime, w.senate, SatAdd(w.now, blocks))];
      PlaysOne(cfg, w, moves[0]);
  }

  /** Only an addition within the maximum makes the Senate larger. */
  lemma SenateSize(cfg: Config, w: World, c: Call)
    requires c.AddSenator? || c.SwapSenator? || c.RetireSenator? || c.DropSenator?
    ensures var senate := Exec(cfg, w, c).0.senate;
            |senate| <= |w.senate| || (c.AddSenator? && |senate| <= cfg.senateMax)
  {
    if c.SwapSenator? {
      if c.leaver in w.senate && c.joiner !in w.senate { SwapCard(w.senate, c.leaver, c.joiner); }
    } else if !c.AddSenator? {
      SubsetCard(w.senate - {c.who}, w.senate);
    }
  }

  lemma FlattenSenate(cfg: Config, w: World, c: Call) returns (moves: seq<Move>)
    requires c.AddSenator? || c.SwapSenator? || c.RetireSenator? || c.DropSenator?
    ensures Plays(cfg, w, moves, Exec(cfg, w, c).0) && forall m :: m in moves ==> !Approves(m)
  {
    var w' := Exec(cfg, w, c).0;
    SenateSize(cfg, w, c);
    if c.SwapSenator? {
      moves := FlattenPurge(cfg, w, w', c.leaver);
    } else if c.RetireSenator? {
      moves := FlattenPurge(cfg, w, w', c.who);
    } else {
      moves := [Govern(w.members, w.prime, w'.senate, w.now)];
      PlaysOne(cfg, w, moves[0]);
    }
  }

  lemma FlattenVote(cfg: Config, w: World, c: Call) returns (moves: seq<Move>)
    requires c.CastAsMember? || c.CastAsSenator?
    ensures Plays(cfg, w, moves, Exec(cfg, w, c).0) && forall m :: m in moves ==> !Approves(m)
  {
    moves := [];
    var m := Enter(c.who, c.hash, c.index, c.approve);
    if Exec(cfg, w, c).1.Cast? {
      PlaysOne(cfg, w, m);
      moves := [m];
    }
  }

  lemma FlattenPurge(cfg: Config, w: World, w': World, who: Account) returns (moves: seq<Move>)
    requires w' == w || w' == RemoveVotes(w, who).(senate := w'.senate)
    requires |w'.senate| <= |w.senate|
    ensures Plays(cfg, w, moves, w') && forall m :: m in moves ==> !Approves(m)
  {
    moves := [];
    if w' != w {
      moves := [Clear({who}), Govern(w.members, w.prime, w'.senate, w.now)];
      PlaysTwo(cfg, w, moves[0], moves[1]);
    }
  }

  lemma {:induction false} FlattenClose(cfg: Config, w: World, c: Call) returns (moves: seq<Move>)
    requires c.Close?
    ensures Plays(cfg, w, moves, Exec(cfg, w, c).0)
    decreases c, 0, 0
  {
    moves := [];
    var r := CloseVerdict(cfg, w, c.hash, c.index, c.weightBound, c.lengthBound);
    if r.Success? {
      var seats, verdict := Seats(cfg, w), r.value;
      var said := Say(Closed(c.hash, c.index, verdict, seats, w.now));
      var closed := Apply(cfg, w, said);
      if verdict.approved {
        var origin := Say(Approved(c.hash, c.index, verdict.tally.yes, seats));
        PlaysTwo(cfg, w, said, origin);
        var approved := Apply(cfg, closed, origin);
        var inner: seq<Move> := [];
        var dispatched := approved;
        if c.dispatch.succeeds {
          inner := FlattenAll(cfg, approved, c.dispatch.calls);
          dispatched := ExecAll(cfg, approved, c.dispatch.calls);
        }
        PlaysConcat(cfg, w, [said, origin], approved, inner, dispatched);
        var done := Say(Executed(c.hash, c.index, c.dispatch.succeeds));
        PlaysTwo(cfg, dispatched, done, Remove(c.hash));
        PlaysConcat(cfg, w, [said, origin] + inner, dispatched, [done, Remove(c.hash)], Exec(cfg, w, c).0);
        moves := [said, origin] + inner + [done, Remove(c.hash)];
      } else {
        PlaysOne(cfg, w, said);
        PlaysTwo(cfg, closed, Say(Disapproved(c.hash)), Remove(c.hash));
        PlaysConcat(cfg, w, [said], closed, [Say(Disapproved(c.hash)), Remove(c.hash)], Exec(cfg, w, c).0);
        moves := [said] + [Say(Disapproved(c.hash)), Remove(c.hash)];
      }
    }
  }

  /** The state in which an approved proposal is dispatched is as sound as the one it was closed in. */
  lemma VerdictKeeps(cfg: Config, w: World, c: Call)
    requires Inv(cfg, w) && c.Close?
    requires CloseVerdict(cfg, w, c.hash, c.index, c.weightBound, c.lengthBound).Success?
    ensures var verdict := CloseVerdict(cfg, w, c.hash, c.index, c.weightBound, c.lengthBound).value;
            Inv(cfg, AnnounceVerdict(cfg, w, c.hash, c.index, verdict))
  {
    var verdict := CloseVerdict(cfg, w, c.hash, c.index, c.weightBound, c.lengthBound).value;
    var said := Say(Closed(c.hash, c.index, verdict, Seats(cfg, w), w.now));
    MoveKeeps(cfg, w, said);
    if verdict.approved {
      MoveKeeps(cfg, Apply(cfg, w, said), Say(Approved(c.hash, c.index, verdict.tally.yes, Seats(cfg, w))));
    }
  }

  lemma {:induction false} FlattenAll(cfg: Config, w: World, calls: seq<Call>) returns (moves: seq<Move>)
    ensures Plays(cfg, w, moves, ExecAll(cfg, w, calls))
    decreases calls, 1
  {
    moves := [];
    if |calls| > 0 {
      var first := Flatten(cfg, w, calls[0]);
      var rest := FlattenAll(cfg, Exec(cfg, w, calls[0]).0, calls[1..]);
      PlaysConcat(cfg, w, first, Exec(cfg, w, calls[0]).0, rest, ExecAll(cfg, w, calls));
      moves := first + rest;
    }
  }

  /** From genesis, every run keeps the stores in agreement, the indices partitioned, the votes sourced
      and the log audited. */
  lemma EveryRunIsSound(cfg: Config, w: World, calls: seq<Call>)
    requires Genesis(cfg, w)
    ensures Inv(cfg, ExecAll(cfg, w, calls))
  {
    SoundRunsStaySound(cfg, w, calls);
  }

  lemma SoundRunsStaySound(cfg: Config, w: World, calls: seq<Call>)
    requires Genesis(cfg, w) || Inv(cfg, w)
    ensures Inv(cfg, ExecAll(cfg, w, calls))
  {
    if Genesis(cfg, w) {
      assert forall h :: Tracks(w, h);
      assert forall i: U32 :: !OpenIndex(w, i);
    }
    var moves := FlattenAll(cfg, w, calls);
    PlaysKeep(cfg, w, moves, ExecAll(cfg, w, calls));
  }

  // ----- the vectors are the last un-purged votes

  /** In every run the vectors of an open motion hold each account's last word, once. */
  lemma VectorsHoldLastWords(cfg: Config, w0: World, calls: seq<Call>, h: Hash, who: Account)
    requires Genesis(cfg, w0)
    ensures var w := ExecAll(cfg, w0, calls);
            h in w.voting ==>
              && WellFormed(w.voting[h])
              && Vote(BallotOf(w.voting[h]), who) == LastWord(w.log, h, who)
  {
    var w := ExecAll(cfg, w0, calls);
    EveryRunIsSound(cfg, w0, calls);
    assert Tracks(w, h);
    ReplayIsLastWord(w.log, h, who);
  }

  /** `do_vote` and `has_voted` answer from the log: duplicate, first vote and voted-at-all are the last word. */
  lemma VotingAnswersLastWord(cfg: Config, w: World, who: Account, h: Hash, index: U32, approve: bool)
    requires Inv(cfg, w) && LookupMotion(w, h, index).Success?
    ensures DoVote(w, who, h, index, approve) == Failure(DuplicateVote) <==> LastWord(w.log, h, who) == Some(approve)
    ensures DoVote(w, who, h, index, approve).Failure? ==> LastWord(w.log, h, who) == Some(approve)
    ensures DoVote(w, who, h, index, approve).Success? ==>
              forall a, g :: LastWord(DoVote(w, who, h, index, approve).value.log, g, a)
                == if g == h && a == who then Some(approve) else LastWord(w.log, g, a)
    ensures FirstVote(w, who, h) <==> LastWord(w.log, h, who).None?
    ensures QueryVoted(w, h, index, who) == Success(LastWord(w.log, h, who).Some?)
  {
    assert Tracks(w, h);
    ReplayIsLastWord(w.log, h, who);
    CastVoteRefinesMap(w.voting[h], who, approve);
    HasVotedIsMembership(w.voting[h], who);
    if DoVote(w, who, h, index, approve).Success? {
      var log' := DoVote(w, who, h, index, approve).value.log;
      assert log'[..|log'| - 1] == w.log;
    }
  }

  // ----- stale references

  ghost predicate Stale(w: World, h: Hash, i: U32) {
    i < w.proposalCount && !(h in w.voting && w.voting[h].index == i)
  }

  lemma {:induction false} StaleStays(cfg: Config, w: World, moves: seq<Move>, w': World, h: Hash, i: U32)
    requires Stale(w, h, i) && Plays(cfg, w, moves, w')
    ensures Stale(w', h, i)
    decreases |moves|
  {
    if |moves| > 0 {
      StaleStays(cfg, Apply(cfg, w, moves[0]), moves[1..], w', h, i);
    }
  }

  /** Once (h, i) has been handed out and is not open, no later vote, query or close with it succeeds,
      even if the same proposal is open again under the same hash. */
  lemma StaleReferencesFail(cfg: Config, w: World, calls: seq<Call>, h: Hash, i: U32)
    requires Stale(w, h, i)
    ensures var w' := ExecAll(cfg, w, calls);
            && (forall who, approve :: DoVote(w', who, h, i, approve).Failure?)
            && (forall who :: QueryVoted(w', h, i, who).Failure?)
            && (forall wb, lb, d :: Exec(cfg, w', Close(h, i, wb, lb, d)).0 == w'
                                    && Exec(cfg, w', Close(h, i, wb, lb, d)).1.Failed?)
  {
    var moves := FlattenAll(cfg, w, calls);
    StaleStays(cfg, w, moves, ExecAll(cfg, w, calls), h, i);
  }

  /** Concluding or disapproving a motion, whatever its dispatch did to the pallet, erases its hash from all three
      stores and leaves its index stale. */
  lemma ClosingErases(cfg: Config, w: World, c: Call)
    requires Inv(cfg, w)
    requires (c.Close? && Exec(cfg, w, c).1.Concluded?) || c.DisapproveProposal?
    ensures var w' := Exec(cfg, w, c).0;
            && c.hash !in w'.proposals && c.hash !in w'.proposalOf && c.hash !in w'.voting
            && forall i: U32 :: i < w.proposalCount ==> Stale(w', c.hash, i)
  {
    var moves := Flatten(cfg, w, c);
    var w' := Exec(cfg, w, c).0;
    PlaysKeep(cfg, w, moves, w');
    CountGrows(cfg, w, moves, w');
    assert c.hash !in w'.voting;
    assert c.hash !in Elems(w'.proposals);
  }

  lemma {:induction false} CountGrows(cfg: Config, w: World, moves: seq<Move>, w': World)
    requires Plays(cfg, w, moves, w')
    ensures w.proposalCount <= w'.proposalCount && w.now <= w'.now
    decreases |moves|
  {
    if |moves| > 0 {
      CountGrows(cfg, Apply(cfg, w, moves[0]), moves[1..], w');
    }
  }

  // ----- conservation

  /** Over every run: proposals made are the motions still open plus the removals, each index leaves at most once,
      and an index has left exactly when it was handed out and is no longer open. */
  lemma MotionsAreConserved(cfg: Config, w0: World, calls: seq<Call>)
    requires Genesis(cfg, w0)
    ensures var w := ExecAll(cfg, w0, calls);
            var proposed, removed := Indices(w.log, Openings), Indices(w.log, Removals);
            && |proposed| == |w.voting.Keys| + |removed|
            && NoDup(proposed) && NoDup(removed)
            && (forall i: U32 :: i in removed <==> i in proposed && !OpenIndex(w, i))
  {
    var w := ExecAll(cfg, w0, calls);
    EveryRunIsSound(cfg, w0, calls);
    ElemsCard(w.proposals);
    var proposed := Indices(w.log, Openings);
    forall i: U32 ensures i in proposed <==> i < w.proposalCount {
      if i < w.proposalCount { assert proposed[i] == i; }
    }
  }

  // ----- timing and the majority threshold, read off the log

  /** In every run, a motion closed on the timed path had been open for all the duration it was proposed with,
      at least the configured one, unless its end block saturated: then the close is at the last block there is. */
  lemma TimedCloseWaits(cfg: Config, w0: World, calls: seq<Call>, k: nat)
    requires Genesis(cfg, w0) && k < |ExecAll(cfg, w0, calls).log|
    ensures var log := ExecAll(cfg, w0, calls).log;
            log[k].Closed? && log[k].verdict.timed ==>
              var m := Replay(log[..k], log[k].hash);
              && m.Some? && m.value.index == log[k].index
              && m.value.duration >= cfg.motionDuration
              && (log[k].at >= m.value.at + m.value.duration || log[k].at == U32_MAX)
  {
    var log := ExecAll(cfg, w0, calls).log;
    EveryRunIsSound(cfg, w0, calls);
    AuditPrefix(cfg, log, k);
    if log[k].Closed? { ReplayOpening(cfg, log[..k], log[k].hash); }
  }

  /** Whether the prime's last word on `h` is aye. */
  ghost predicate PrimeAye(w: World, h: Hash) {
    w.prime.Some? && LastWord(w.log, h, w.prime.value) == Some(true)
  }

  /** The verdict on an open motion, from the log: there is one exactly when the motion is closable; it approves exactly
      when the motion passes; it is timed exactly when the votes alone have not settled it; an early tally is the
      standing votes, and a timed one counts every abstention on the side the default vote took. */
  lemma VerdictFromLog(cfg: Config, w: World, h: Hash)
    requires Inv(cfg, w) && h in w.voting
    ensures var m, seats := Replay(w.log, h), Seats(cfg, w);
            var d := Decide(cfg.strategy, w.voting[h], seats, w.prime, w.now);
            && m.Some?
            && (d.Some? <==> Closable(m.value, seats, w.now))
            && (d.Some? ==>
                  var verdict, raw := d.value, Count(m.value.ballot);
                  && (verdict.approved <==> Passes(cfg.strategy, m.value, seats, PrimeAye(w, h)))
                  && (verdict.timed <==> raw.yes < m.value.threshold && raw.no + m.value.threshold <= seats)
                  && (if verdict.timed then Filled(raw, verdict, seats) else verdict.tally == raw))
  {
    var v, seats := w.voting[h], Seats(cfg, w);
    assert Tracks(w, h);
    ReplayOpening(cfg, w.log, h);
    TalliesCountVoters(v);
    var t := TallyOf(v);
    assert t == Count(Replay(w.log, h).value.ballot);
    if w.prime.Some? { ReplayIsLastWord(w.log, h, w.prime.value); }
    if Undecided(t, seats, v.threshold) {
      TimedPathFollowsDefault(t, seats, v.threshold, DefaultVote(cfg.strategy, PrimeVote(v, w.prime), t.yes, seats));
    }
  }

  /** Under `PrimeDefaultVote` a timed close approves exactly when the prime's last word is aye. */
  lemma PrimeDecidesTimedClose(cfg: Config, w: World, h: Hash)
    requires Inv(cfg, w) && h in w.voting && cfg.strategy == PrimeDefaultVote
    ensures var d := Decide(cfg.strategy, w.voting[h], Seats(cfg, w), w.prime, w.now);
            d.Some? && d.value.timed ==> (d.value.approved <==> PrimeAye(w, h))
  {
    var v, t, seats := w.voting[h], TallyOf(w.voting[h]), Seats(cfg, w);
    assert Tracks(w, h);
    if w.prime.Some? { ReplayIsLastWord(w.log, h, w.prime.value); }
    if Undecided(t, seats, v.threshold) {
      TimedPathFollowsDefault(t, seats, v.threshold, DefaultVote(cfg.strategy, PrimeVote(v, w.prime), t.yes, seats));
    }
  }

  /** While the seats have not shrunk since the proposal, both default-vote strategies close an open motion alike. */
  lemma StrategiesCoincideInRuns(cfg: Config, w: World, h: Hash)
    requires Inv(cfg, w) && h in w.voting
    requires Replay(w.log, h).Some? ==> Replay(w.log, h).value.seats <= Seats(cfg, w)
    ensures Decide(PrimeDefaultVote, w.voting[h], Seats(cfg, w), w.prime, w.now)
         == Decide(MoreThanMajorityThenPrimeDefaultVote, w.voting[h], Seats(cfg, w), w.prime, w.now)
  {
    assert Tracks(w, h);
    ReplayOpening(cfg, w.log, h);
    StrategiesCoincide(w.voting[h], Replay(w.log, h).value.seats, Seats(cfg, w), w.prime, w.now);
  }

}
