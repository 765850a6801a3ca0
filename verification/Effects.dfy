/** What each call does, in full: its outcome, every motion after it, and everything it leaves alone. */
module Effects {
  import opened Words
  import opened Vectors
  import opened Motions
  import opened Decisions
  import opened Collective
  import opened History
  import opened Invariants
  import opened Runs

  /** Nothing but the motions and the log differs. */
  ghost predicate SameGovernance(w: World, w': World) {
    && w'.members == w.members && w'.prime == w.prime && w'.senate == w.senate
    && w'.now == w.now && w'.proposalCount == w.proposalCount
  }

  /** The motion stored under `h`, with its proposal, is the same in both. */
  ghost predicate SameMotion(w: World, w': World, h: Hash) {
    && Replay(w'.log, h) == Replay(w.log, h)
    && (h in w.voting <==> h in w'.voting) && (h in w.voting ==> w'.voting[h] == w.voting[h])
    && (h in w.proposalOf <==> h in w'.proposalOf) && (h in w.proposalOf ==> w'.proposalOf[h] == w.proposalOf[h])
  }

  /** The seats are the size of the electorate modulo 2^32; in a sound state a Senate is counted exactly. */
  lemma SeatsCountElectorate(cfg: Config, w: World)
    ensures cfg.electorate == CollectiveMembers ==> Seats(cfg, w) == |w.members| % 0x1_0000_0000
    ensures cfg.electorate == Senate ==> Seats(cfg, w) == |w.senate| % 0x1_0000_0000
    ensures cfg.electorate == Senate && Inv(cfg, w) ==> Seats(cfg, w) == |w.senate|
  {
    if Inv(cfg, w) { CastSmall(|w.senate|); }
  }

  /** A lookup finds the motion the log leaves open, and says which of hash and index is wrong. */
  lemma LookupFindsLoggedMotion(w: World, h: Hash, index: U32)
    requires Sourced(w)
    ensures var m, r := Replay(w.log, h), LookupMotion(w, h, index);
            && (m.None? ==> r == Failure(ProposalNotExists))
            && (m.Some? && m.value.index != index ==> r == Failure(IndexMismatchProposalHash))
            && (m.Some? && m.value.index == index ==> r.Success? && Agrees(r.value, m.value))
  {
    assert Tracks(w, h);
  }

  /** A vote and a query fail as their lookup does. */
  lemma LookupErrorsSurface(w: World, h: Hash, index: U32, who: Account, approve: bool)
    requires LookupMotion(w, h, index).Failure?
    ensures DoVote(w, who, h, index, approve) == Failure(LookupMotion(w, h, index).error)
    ensures QueryVoted(w, h, index, who) == Failure(LookupMotion(w, h, index).error)
  {
  }

  // ----- proposing and voting

  /** A proposal is accepted, or refused for the first reason that holds, without a trace. */
  lemma ProposeAcceptedExactly(cfg: Config, w: World, c: Call)
    requires StoresAgree(cfg, w) && Sourced(w) && c.Propose?
    ensures var r := Exec(cfg, w, c);
            && r.1 == (if c.who !in w.members then Failed(NotMember)
                       else if c.duration < cfg.motionDuration then Failed(DurationLowerThanConfiguredMotionDuration)
                       else if c.proposal.len > c.lengthBound then Failed(ProposalLengthBoundLessThanProposalLength)
                       else if Replay(w.log, c.proposal.hash).Some? then Failed(DuplicateProposal)
                       else if |w.voting.Keys| >= cfg.maxProposals then Failed(TooManyActiveProposals)
                       else if w.proposalCount == U32_MAX then Failed(TooManyActiveProposals)
                       else Done)
            && (r.1 != Done ==> r.0 == w)
  {
    assert Tracks(w, c.proposal.hash);
    ElemsCard(w.proposals);
    assert c.proposal.hash in w.proposalOf <==> c.proposal.hash in w.voting;
  }

  /** An accepted proposal opens a motion with the next index, a majority of the seats as threshold and no votes, keeps
      the proposal as given, and changes nothing else. */
  lemma ProposeOpensMotion(cfg: Config, w: World, c: Call)
    requires c.Propose? && Exec(cfg, w, c).1 == Done
    ensures var w', seats := Exec(cfg, w, c).0, Seats(cfg, w);
            && w'.proposals == w.proposals + [c.proposal.hash]
            && w'.proposalCount == w.proposalCount + 1
            && SameGovernance(w, w'.(proposalCount := w.proposalCount))
            && (forall h :: h != c.proposal.hash ==> SameMotion(w, w', h))
            && c.proposal.hash in w'.proposalOf && w'.proposalOf[c.proposal.hash] == c.proposal
            && Replay(w'.log, c.proposal.hash)
               == Some(Motion(c.proposal, w.proposalCount, seats / 2 + 1, seats, w.now, c.duration, map[]))
  {
    var seats := Seats(cfg, w);
    assert ProposeError(cfg, w, c.who, c.proposal, c.lengthBound, c.duration).None?;
    assert Exec(cfg, w, c).0 == OpenMotion(w, c.proposal, seats / 2 + 1, seats, c.duration);
    Grow(cfg, w.log, Proposed(c.proposal, w.proposalCount, seats / 2 + 1, seats, w.now, c.duration));
  }

  predicate Entitled(cfg: Config, w: World, c: Call)
    requires c.CastAsMember? || c.CastAsSenator?
  {
    if c.CastAsMember? then cfg.electorate == CollectiveMembers && c.who in w.members
    else cfg.electorate == Senate && c.who in w.senate
  }

  /** A vote is refused for the first reason that holds, without a trace: no entitlement, no such motion, wrong index,
      repetition of the last word. Otherwise it reports a first vote exactly when there was no last word. */
  lemma VoteTakenExactly(cfg: Config, w: World, c: Call)
    requires Inv(cfg, w) && (c.CastAsMember? || c.CastAsSenator?)
    ensures var m, word, r := Replay(w.log, c.hash), LastWord(w.log, c.hash, c.who), Exec(cfg, w, c);
            && r.1 == (if !Entitled(cfg, w, c) then Failed(if c.CastAsMember? then NotMember else NotSenateMember)
                       else if m.None? then Failed(ProposalNotExists)
                       else if m.value.index != c.index then Failed(IndexMismatchProposalHash)
                       else if word == Some(c.approve) then Failed(DuplicateVote)
                       else Cast(word.None?))
            && (!r.1.Cast? ==> r.0 == w)
  {
    LookupFindsLoggedMotion(w, c.hash, c.index);
    if LookupMotion(w, c.hash, c.index).Success? {
      VotingAnswersLastWord(cfg, w, c.who, c.hash, c.index, c.approve);
    }
  }

  lemma DoVoteSetsOneEntry(cfg: Config, w: World, who: Account, hash: Hash, index: U32, approve: bool)
    requires DoVote(w, who, hash, index, approve).Success?
    ensures var m, w' := Replay(w.log, hash), DoVote(w, who, hash, index, approve).value;
            && hash in w.voting && CastVote(w.voting[hash], who, approve) == Some(w'.voting[hash])
            && w' == w.(voting := w.voting[hash := w'.voting[hash]], log := w'.log)
            && (m.Some? ==> Replay(w'.log, hash) == Some(m.value.(ballot := m.value.ballot[who := approve])))
            && (forall h :: h != hash ==> Replay(w'.log, h) == Replay(w.log, h))
  {
    var w' := DoVote(w, who, hash, index, approve).value;
    Grow(cfg, w.log, w'.log[|w.log|]);
  }

  /** A vote that is taken sets one entry of one motion's ballot and changes nothing else. */
  lemma VoteSetsOneEntry(cfg: Config, w: World, c: Call)
    requires Sourced(w) && (c.CastAsMember? || c.CastAsSenator?) && Exec(cfg, w, c).1.Cast?
    ensures var m, w' := Replay(w.log, c.hash), Exec(cfg, w, c).0;
            && m.Some? && Replay(w'.log, c.hash) == Some(m.value.(ballot := m.value.ballot[c.who := c.approve]))
            && (forall h :: h != c.hash ==> SameMotion(w, w', h))
            && SameGovernance(w, w') && w'.proposals == w.proposals && w'.proposalOf == w.proposalOf
            && c.hash in w.voting && CastVote(w.voting[c.hash], c.who, c.approve) == Some(w'.voting[c.hash])
  {
    assert Exec(cfg, w, c).0 == DoVote(w, c.who, c.hash, c.index, c.approve).value;
    DoVoteSetsOneEntry(cfg, w, c.who, c.hash, c.index, c.approve);
    assert Tracks(w, c.hash);
  }

  // ----- closing

  /** The proposal's length and both its weights are within the bounds given to the close. */
  ghost predicate LengthFits(m: Motion, c: Call)
    requires c.Close?
  {
    m.proposal.len <= c.lengthBound
  }

  ghost predicate WeightFits(m: Motion, c: Call)
    requires c.Close?
  {
    m.proposal.weight.refTime <= c.weightBound.refTime && m.proposal.weight.proofSize <= c.weightBound.proofSize
  }

  /** A close fails for the first reason that holds, without a trace: no such motion, wrong index, not closable, and,
      only if the motion passes, the proposal as it was proposed exceeding a bound. Otherwise it concludes with the
      verdict. */
  lemma CloseConcludesExactly(cfg: Config, w: World, c: Call)
    requires Inv(cfg, w) && c.Close?
    ensures var m, seats, r := Replay(w.log, c.hash), Seats(cfg, w), Exec(cfg, w, c);
            && (m.None? ==> r.1 == Failed(ProposalNotExists))
            && (m.Some? ==>
                  var passes := Passes(cfg.strategy, m.value, seats, PrimeAye(w, c.hash));
                  && c.hash in w.voting
                  && var d := Decide(cfg.strategy, w.voting[c.hash], seats, w.prime, w.now);
                     && (Closable(m.value, seats, w.now) ==> d.Some?)
                     && r.1 == (if m.value.index != c.index then Failed(IndexMismatchProposalHash)
                                else if !Closable(m.value, seats, w.now) then Failed(TooEarlyToCloseProposal)
                                else if passes && !LengthFits(m.value, c)
                                  then Failed(ProposalLengthBoundLessThanProposalLength)
                                else if passes && !WeightFits(m.value, c)
                                  then Failed(ProposalWeightLessThanDispatchCallWeight)
                                else Concluded(d.value)))
            && (!r.1.Concluded? ==> r.0 == w)
  {
    assert Tracks(w, c.hash);
    if c.hash in w.voting { VerdictFromLog(cfg, w, c.hash); }
  }

  /** The state an approved proposal is dispatched in, or a disapproved one dropped: the verdict has been announced,
      and for an approved one the origin, its ayes out of the seats. */
  ghost function Begun(cfg: Config, w: World, c: Call, verdict: Verdict): World
    requires c.Close?
  {
    w.(log := w.log + [Closed(c.hash, c.index, verdict, Seats(cfg, w), w.now)]
                    + (if verdict.approved then [Approved(c.hash, c.index, verdict.tally.yes, Seats(cfg, w))] else []))
  }

  /** The state the dispatch leaves; a failing dispatch leaves none of its effects. */
  ghost function Ended(cfg: Config, w: World, c: Call, verdict: Verdict): World
    requires c.Close?
  {
    var begun := Begun(cfg, w, c, verdict);
    if verdict.approved && c.dispatch.succeeds then ExecAll(cfg, begun, c.dispatch.calls) else begun
  }

  lemma AnnouncedVerdict(cfg: Config, w: World, c: Call, verdict: Verdict)
    requires c.Close?
    ensures AnnounceVerdict(cfg, w, c.hash, c.index, verdict) == Begun(cfg, w, c, verdict)
  {
  }

  lemma AnnouncingMovesNothing(cfg: Config, w: World, c: Call, verdict: Verdict)
    requires c.Close?
    ensures SameGovernance(w, Begun(cfg, w, c, verdict)) && forall h :: SameMotion(w, Begun(cfg, w, c, verdict), h)
  {
    var said := Closed(c.hash, c.index, verdict, Seats(cfg, w), w.now);
    Grow(cfg, w.log, said);
    Grow(cfg, w.log + [said], Approved(c.hash, c.index, verdict.tally.yes, Seats(cfg, w)));
    assert w.log + [said] + [] == w.log + [said];
  }

  /** Removing a motion, after an announcement, leaves every other one alone. */
  lemma RemovalTouchesOneMotion(cfg: Config, w: World, e: Entry, hash: Hash)
    requires e.Disapproved? || e.Executed?
    ensures var w' := RemoveProposal(Announce(w, e), hash);
            && SameGovernance(w, w') && w'.proposals == Without(w.proposals, {hash})
            && hash !in w'.voting && hash !in w'.proposalOf
            && (forall h :: h != hash ==> SameMotion(w, w', h))
            && (hash in w.voting ==> Replay(w'.log, hash).None?)
            && w'.log == w.log + [e] + (if hash in w.voting then [Removed(hash, w.voting[hash].index)] else [])
  {
    Grow(cfg, w.log, e);
    if hash in w.voting { Grow(cfg, w.log + [e], Removed(hash, w.voting[hash].index)); }
    assert w.log + [e] + [] == w.log + [e];
  }

  lemma CloseEndsInRemoval(cfg: Config, w: World, c: Call)
    requires c.Close? && Exec(cfg, w, c).1.Concluded?
    ensures var (w', r) := Exec(cfg, w, c);
            w' == RemoveProposal(Announce(Ended(cfg, w, c, r.verdict), Last(c, r.verdict)), c.hash)
  {
    AnnouncedVerdict(cfg, w, c, Exec(cfg, w, c).1.verdict);
  }

  /** The announcement that follows the dispatch. */
  ghost function Last(c: Call, verdict: Verdict): Entry
    requires c.Close?
  {
    if verdict.approved then Executed(c.hash, c.index, c.dispatch.succeeds) else Disapproved(c.hash)
  }

  /** A concluded close removes its motion from the state its dispatch left, and touches no other motion there. */
  lemma CloseRemovesOneMotion(cfg: Config, w: World, c: Call)
    requires Inv(cfg, w) && c.Close? && Exec(cfg, w, c).1.Concluded?
    ensures var (w', r) := Exec(cfg, w, c);
            var ended := Ended(cfg, w, c, r.verdict);
            && SameGovernance(ended, w') && w'.proposals == Without(ended.proposals, {c.hash})
            && (forall h :: h != c.hash ==> SameMotion(ended, w', h))
            && Replay(w'.log, c.hash).None? && c.hash !in w'.voting && c.hash !in w'.proposalOf
            && |w'.log| > |ended.log| && w'.log[..|ended.log|] == ended.log
            && (r.verdict.approved ==> w'.log[|ended.log|] == Executed(c.hash, c.index, c.dispatch.succeeds))
            && (!r.verdict.approved ==> w'.log[|ended.log|] == Disapproved(c.hash))
  {
    var verdict := Exec(cfg, w, c).1.verdict;
    CloseEndsInRemoval(cfg, w, c);
    RemovalTouchesOneMotion(cfg, Ended(cfg, w, c, verdict), Last(c, verdict), c.hash);
    ClosedUnlogged(cfg, w, c);
  }

  lemma ClosedUnlogged(cfg: Config, w: World, c: Call)
    requires Inv(cfg, w) && c.Close? && Exec(cfg, w, c).1.Concluded?
    ensures Replay(Exec(cfg, w, c).0.log, c.hash).None?
  {
    ClosingErases(cfg, w, c);
    var moves := Flatten(cfg, w, c);
    PlaysKeep(cfg, w, moves, Exec(cfg, w, c).0);
    assert Tracks(Exec(cfg, w, c).0, c.hash);
  }

  /** A close that dispatches nothing with effect changes no other motion and nothing of the governance. */
  lemma PlainCloseTouchesOneMotion(cfg: Config, w: World, c: Call)
    requires Inv(cfg, w) && c.Close? && Exec(cfg, w, c).1.Concluded?
    requires !(Exec(cfg, w, c).1.verdict.approved && c.dispatch.succeeds)
    ensures var w' := Exec(cfg, w, c).0;
            && SameGovernance(w, w') && w'.proposals == Without(w.proposals, {c.hash})
            && forall h :: h != c.hash ==> SameMotion(w, w', h)
  {
    CloseRemovesOneMotion(cfg, w, c);
    AnnouncingMovesNothing(cfg, w, c, Exec(cfg, w, c).1.verdict);
    var ended, w' := Ended(cfg, w, c, Exec(cfg, w, c).1.verdict), Exec(cfg, w, c).0;
    forall h | h != c.hash ensures SameMotion(w, w', h) {
      assert SameMotion(w, ended, h) && SameMotion(ended, w', h);
    }
  }

  /** `disapprove_proposal` always succeeds, closes the one motion and touches nothing else. */
  lemma DisapprovalTouchesOneMotion(cfg: Config, w: World, c: Call)
    requires Sourced(w) && c.DisapproveProposal?
    ensures var (w', r) := Exec(cfg, w, c);
            && r == Done && SameGovernance(w, w') && w'.proposals == Without(w.proposals, {c.hash})
            && (forall h :: h != c.hash ==> SameMotion(w, w', h))
            && Replay(w'.log, c.hash).None? && c.hash !in w'.voting && c.hash !in w'.proposalOf
            && |w'.log| > |w.log| && w'.log[..|w.log|] == w.log && w'.log[|w.log|] == Disapproved(c.hash)
  {
    RemovalTouchesOneMotion(cfg, w, Disapproved(c.hash), c.hash);
    Grow(cfg, w.log, Disapproved(c.hash));
    assert Tracks(w, c.hash);
  }

  // ----- purging, members and senators

  /** A purge takes the accounts out of every ballot, keeps the survivors' order, and changes nothing else. */
  ghost predicate PurgedOnly(w: World, w': World, out: set<Account>) {
    && w'.proposals == w.proposals && w'.proposalOf == w.proposalOf && w'.proposalCount == w.proposalCount
    && w'.voting.Keys == w.voting.Keys && w'.now == w.now
    && (forall h :: h in w.voting ==>
          && w'.voting[h] == w.voting[h].(ayes := w'.voting[h].ayes, nays := w'.voting[h].nays)
          && w'.voting[h].ayes == Without(w.voting[h].ayes, out) && w'.voting[h].nays == Without(w.voting[h].nays, out))
    && (forall h :: Replay(w'.log, h) ==
          match Replay(w.log, h) case None => None case Some(m) => Some(m.(ballot := m.ballot - out)))
  }

  lemma PurgeChangesBallotsOnly(cfg: Config, w: World, out: set<Account>)
    requires StoresAgree(cfg, w)
    ensures PurgedOnly(w, PurgeVotes(w, out), out) && SameGovernance(w, PurgeVotes(w, out))
  {
    Grow(cfg, w.log, Purged(out));
    assert forall h :: h in w.voting ==> h in w.proposals;
  }

  /** `change_members_sorted` stores the list, resets the prime and purges the outgoing accounts, and no more. */
  lemma ChangeMembersEffect(cfg: Config, w: World, c: Call)
    requires StoresAgree(cfg, w) && c.ChangeMembers?
    ensures var (w', r) := Exec(cfg, w, c);
            && r == Done && PurgedOnly(w, w', Elems(c.outgoing))
            && w'.members == c.new_ && w'.prime == None && w'.senate == w.senate
  {
    PurgeChangesBallotsOnly(cfg, w, Elems(c.outgoing));
  }

  /** `set_members` stores the list sorted, sets the prime and purges the accounts its diff names, and no more. */
  lemma SetMembersEffect(cfg: Config, w: World, c: Call)
    requires StoresAgree(cfg, w) && c.SetMembers?
    ensures var (w', r) := Exec(cfg, w, c);
            && r == Done && PurgedOnly(w, w', Elems(c.outgoing))
            && Sorted(w'.members) && multiset(w'.members) == multiset(c.new_)
            && w'.prime == c.prime && w'.senate == w.senate
  {
    PurgeChangesBallotsOnly(cfg, w, Elems(c.outgoing));
    SortSorts(c.new_);
  }

  lemma SetPrimeEffect(cfg: Config, w: World, prime: Option<Account>)
    ensures Exec(cfg, w, SetPrime(prime)) == (w.(prime := prime), Done)
  {
  }

  /** Adding, retiring and dropping senators: who may enter, who leaves, whose votes go, and that nothing else
      changes. */
  lemma SenateCallsEffect(cfg: Config, w: World, c: Call)
    requires StoresAgree(cfg, w) && (c.AddSenator? || c.RetireSenator? || c.DropSenator?)
    ensures var (w', r) := Exec(cfg, w, c);
            && (c.AddSenator? ==>
                  && r == (if c.who in w.senate then Failed(AlreadyMember)
                           else if |w.senate| >= cfg.senateMax then Failed(TooManyMembers) else Done)
                  && (r == Done ==> w' == w.(senate := w.senate + {c.who})))
            && (!c.AddSenator? ==> r == (if c.who in w.senate then Done else Failed(NotMember)))
            && (c.DropSenator? && r == Done ==> w' == w.(senate := w.senate - {c.who}))
            && (c.RetireSenator? && r == Done ==>
                  && PurgedOnly(w, w', {c.who}) && w'.senate == w.senate - {c.who}
                  && w'.members == w.members && w'.prime == w.prime)
            && (r != Done ==> w' == w)
  {
    if c.RetireSenator? { PurgeChangesBallotsOnly(cfg, w, {c.who}); }
  }

  /** `swap_member` exchanges a senator for a newcomer (or for itself), purging the leaver's votes; it is refused for
      the first reason that holds, and a refused swap has purged nothing. */
  lemma SwapExchangesSenators(cfg: Config, w: World, c: Call)
    requires StoresAgree(cfg, w) && c.SwapSenator?
    ensures var (w', r) := Exec(cfg, w, c);
            && r == (if c.leaver == c.joiner then Done
                     else if c.leaver !in w.senate then Failed(NotMember)
                     else if c.joiner in w.senate then Failed(AlreadyMember) else Done)
            && (r == Done ==>
                  && PurgedOnly(w, w', {c.leaver}) && w'.members == w.members && w'.prime == w.prime
                  && w'.senate == (if c.leaver == c.joiner then w.senate else w.senate - {c.leaver} + {c.joiner})
                  && |w'.senate| == |w.senate|)
            && (r != Done ==> w' == w)
  {
    PurgeChangesBallotsOnly(cfg, w, {c.leaver});
    if c.leaver in w.senate && c.joiner !in w.senate { SwapCard(w.senate, c.leaver, c.joiner); }
  }

  /** Later blocks move the clock on, up to the last block there is, and nothing else. */
  lemma AdvanceMovesClock(cfg: Config, w: World, blocks: U32)
    ensures var (w', r) := Exec(cfg, w, Advance(blocks));
            && r == Done && w' == w.(now := w'.now)
            && w'.now == (if w.now + blocks < 0xFFFF_FFFF then w.now + blocks else 0xFFFF_FFFF)
  {
  }
}
