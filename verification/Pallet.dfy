/** The pallet as the runtime runs it: storage updated in place, loops over vectors, roll-back of failing calls. */
module Pallet {
  import opened Words
  import opened Vectors
  import opened Motions
  import opened Decisions
  import opened Collective

  /** The motions in `done` have been purged, the others not yet. */
  ghost predicate PurgedSoFar(before: map<Hash, Votes>, voting: map<Hash, Votes>, done: seq<Hash>, out: set<Account>) {
    && voting.Keys == before.Keys
    && forall h :: h in before ==> voting[h] == if h in done then Purge(before[h], out) else before[h]
  }

  lemma PurgeNext(before: map<Hash, Votes>, voting: map<Hash, Votes>, hashes: seq<Hash>, k: nat, out: set<Account>)
    requires k < |hashes| && PurgedSoFar(before, voting, hashes[..k], out)
    ensures hashes[k] in voting ==>
              PurgedSoFar(before, voting[hashes[k] := Purge(voting[hashes[k]], out)], hashes[..k + 1], out)
    ensures hashes[k] !in voting ==> PurgedSoFar(before, voting, hashes[..k + 1], out)
  {
    var h := hashes[k];
    assert forall g :: g in hashes[..k + 1] <==> g in hashes[..k] || g == h;
    if h in voting {
      WithoutTwice(before[h].ayes, out);
      WithoutTwice(before[h].nays, out);
    }
  }

  lemma PurgedAll(before: map<Hash, Votes>, voting: map<Hash, Votes>, hashes: seq<Hash>, out: set<Account>)
    requires PurgedSoFar(before, voting, hashes, out)
    ensures voting == map h | h in before :: if h in hashes then Purge(before[h], out) else before[h]
  {
  }

  /** A refused proposal leaves at most its hash behind in the list, until the roll-back. */
  ghost predicate AtMostPushed(w: World, w': World, hash: Hash) {
    w' == w || w' == w.(proposals := w.proposals + [hash])
  }

  class CollectivePallet {
    const cfg: Config
    var proposals: seq<Hash>
    var proposalOf: map<Hash, Proposal>
    var voting: map<Hash, Votes>
    var proposalCount: U32
    var members: seq<Account>
    var prime: Option<Account>
    var now: U32
    var senate: set<Account>
    var log: seq<Entry>

    /** The whole storage as one value. */
    function Storage(): World
      reads this
    {
      World(proposals, proposalOf, voting, proposalCount, members, prime, now, senate, log)
    }

    /** Genesis: members without duplicates, nothing proposed yet. */
    constructor (cfg: Config, initial: seq<Account>, senators: set<Account>)
      requires NoDup(initial) && |senators| <= cfg.senateMax
      ensures this.cfg == cfg && Genesis(cfg, Storage())
      ensures Storage() == World([], map[], map[], 0, initial, None, 0, senators, [])
    {
      this.cfg := cfg;
      proposals, proposalOf, voting, proposalCount := [], map[], map[], 0;
      members, prime, now, senate, log := initial, None, 0, senators, [];
    }

    /** FRAME's storage layer: what a failing call leaves behind. */
    method Restore(w: World)
      modifies this
      ensures Storage() == w
    {
      proposals, proposalOf, voting, proposalCount := w.proposals, w.proposalOf, w.voting, w.proposalCount;
      members, prime, now, senate, log := w.members, w.prime, w.now, w.senate, w.log;
    }

    method DepositEvent(e: Entry)
      modifies this`log
      ensures Storage() == Announce(old(Storage()), e)
    {
      log := log + [e];
    }

    /** Pushes the hash before the counter can still refuse: only the roll-back undoes that push. */
    method DoProposeProposed(threshold: U32, seats: U32, proposal: Proposal, lengthBound: U32, duration: U32)
      returns (r: Result<(), Error>)
      modifies this
      ensures match ProposeProposedError(cfg, old(Storage()), proposal, lengthBound)
              case Some(e) =>
                && r == Failure(e) && AtMostPushed(old(Storage()), Storage(), proposal.hash)
                && (proposals != old(proposals) <==>
                      e == TooManyActiveProposals && |old(proposals)| < cfg.maxProposals)
              case None =>
                r == Success(()) && Storage() == OpenMotion(old(Storage()), proposal, threshold, seats, duration)
    {
      if proposal.len > lengthBound { return Failure(ProposalLengthBoundLessThanProposalLength); }
      if proposal.hash in proposalOf { return Failure(DuplicateProposal); }
      if |proposals| >= cfg.maxProposals { return Failure(TooManyActiveProposals); }
      proposals := proposals + [proposal.hash];
      var index := proposalCount;
      if proposalCount == U32_MAX { return Failure(TooManyActiveProposals); }
      proposalCount := proposalCount + 1;
      proposalOf := proposalOf[proposal.hash := proposal];
      voting := voting[proposal.hash := Votes(index, threshold, [], [], SatAdd(now, duration))];
      DepositEvent(Proposed(proposal, index, threshold, seats, now, duration));
      return Success(());
    }

    method ProposeMotion(who: Account, proposal: Proposal, lengthBound: U32, duration: U32)
      returns (r: Result<(), Error>)
      modifies this
      ensures match ProposeError(cfg, old(Storage()), who, proposal, lengthBound, duration)
              case Some(e) => r == Failure(e) && AtMostPushed(old(Storage()), Storage(), proposal.hash)
              case None =>
                var w, seats := old(Storage()), Seats(cfg, old(Storage()));
                r == Success(()) && Storage() == OpenMotion(w, proposal, SatAdd(seats / 2, 1), seats, duration)
    {
      if who !in members { return Failure(NotMember); }
      if duration < cfg.motionDuration { return Failure(DurationLowerThanConfiguredMotionDuration); }
      var seats := Seats(cfg, Storage());
      r := DoProposeProposed(SatAdd(seats / 2, 1), seats, proposal, lengthBound, duration);
    }

    method VoteOn(who: Account, hash: Hash, index: U32, approve: bool) returns (r: Result<bool, Error>)
      modifies this
      ensures match DoVote(old(Storage()), who, hash, index, approve)
              case Failure(e) => r == Failure(e) && Storage() == old(Storage())
              case Success(after) => r == Success(FirstVote(old(Storage()), who, hash)) && Storage() == after
    {
      if hash !in voting { return Failure(ProposalNotExists); }
      var motion := voting[hash];
      if motion.index != index { return Failure(IndexMismatchProposalHash); }
      var positionYes := FindPosition(motion.ayes, who);
      var positionNo := FindPosition(motion.nays, who);
      var first := positionYes.None? && positionNo.None?;
      var ayes, nays := motion.ayes, motion.nays;
      if approve {
        if positionYes.Some? { return Failure(DuplicateVote); }
        ayes := ayes + [who];
        if positionNo.Some? { nays := SwapRemove(nays, positionNo.value); }
      } else {
        if positionNo.Some? { return Failure(DuplicateVote); }
        nays := nays + [who];
        if positionYes.Some? { ayes := SwapRemove(ayes, positionYes.value); }
      }
      motion := motion.(ayes := ayes, nays := nays);
      DepositEvent(Voted(hash, index, who, approve, AsU32(|ayes|), AsU32(|nays|)));
      voting := voting[hash := motion];
      return Success(first);
    }

    method HasVotedOn(hash: Hash, index: U32, who: Account) returns (r: Result<bool, Error>)
      ensures r == QueryVoted(Storage(), hash, index, who)
    {
      if hash !in voting { return Failure(ProposalNotExists); }
      if voting[hash].index != index { return Failure(IndexMismatchProposalHash); }
      var positionYes := FindPosition(voting[hash].ayes, who);
      var positionNo := FindPosition(voting[hash].nays, who);
      return Success(positionYes.Some? || positionNo.Some?);
    }

    method EraseProposal(hash: Hash)
      modifies this
      ensures Storage() == RemoveProposal(old(Storage()), hash)
    {
      var was := voting;
      proposalOf := proposalOf - {hash};
      voting := voting - {hash};
      proposals := RetainOthers(proposals, hash);
      if hash in was { DepositEvent(Removed(hash, was[hash].index)); }
    }

    method DropVotes(who: Account)
      modifies this
      ensures Storage() == RemoveVotes(old(Storage()), who)
    {
      ghost var before := voting;
      for k := 0 to |proposals|
        invariant Storage() == old(Storage()).(voting := voting)
        invariant PurgedSoFar(before, voting, proposals[..k], {who})
      {
        var h := proposals[k];
        PurgeNext(before, voting, proposals, k, {who});
        if h in voting {
          var votes := voting[h];
          var ayes := RetainOthers(votes.ayes, who);
          var nays := RetainOthers(votes.nays, who);
          voting := voting[h := votes.(ayes := ayes, nays := nays)];
        }
      }
      assert proposals[..|proposals|] == proposals;
      PurgedAll(before, voting, proposals, {who});
      DepositEvent(Purged({who}));
    }

    /** The fast purge: one sort, then a binary search per vote. */
    method ReplaceMembers(outgoing: seq<Account>, new_: seq<Account>)
      modifies this
      ensures Storage() == ChangeMembersSorted(old(Storage()), outgoing, new_)
    {
      var sorted := Sort(outgoing);
      SortSorts(outgoing);
      ghost var before := voting;
      for k := 0 to |proposals|
        invariant Storage() == old(Storage()).(voting := voting)
        invariant PurgedSoFar(before, voting, proposals[..k], Elems(outgoing))
      {
        var h := proposals[k];
        PurgeNext(before, voting, proposals, k, Elems(outgoing));
        if h in voting {
          var votes := voting[h];
          var ayes := RetainNotFound(votes.ayes, sorted);
          var nays := RetainNotFound(votes.nays, sorted);
          voting := voting[h := votes.(ayes := ayes, nays := nays)];
        }
      }
      assert proposals[..|proposals|] == proposals;
      PurgedAll(before, voting, proposals, Elems(outgoing));
      DepositEvent(Purged(Elems(outgoing)));
      members := new_;
      prime := None;
    }

    /** `ManageSenateMembers::swap_member`: the votes go first, so a refused swap needs the roll-back. */
    method SwapMember(leaver: Account, joiner: Account) returns (r: Result<(), Error>)
      modifies this
      ensures match Exec(cfg, old(Storage()), SwapSenator(leaver, joiner))
              case (_, Failed(e)) => r == Failure(e) && Storage() == RemoveVotes(old(Storage()), leaver)
              case (after, _) => r == Success(()) && Storage() == after
    {
      DropVotes(leaver);
      if leaver == joiner { return Success(()); }
      if leaver !in senate { return Failure(NotMember); }
      if joiner in senate { return Failure(AlreadyMember); }
      senate := senate - {leaver} + {joiner};
      return Success(());
    }

    /** `do_close`, with the two early exits and the abstention fill. */
    method DoClose(c: Call) returns (r: Outcome)
      requires c.Close?
      modifies this
      ensures (Storage(), r) == Exec(cfg, old(Storage()), c)
      decreases c, 2
    {
      if c.hash !in voting { return Failed(ProposalNotExists); }
      var motion := voting[c.hash];
      if motion.index != c.index { return Failed(IndexMismatchProposalHash); }
      var no, yes := AsU32(|motion.nays|), AsU32(|motion.ayes|);
      var seats := Seats(cfg, Storage());
      var approved, timed := yes >= motion.threshold, false;
      if !approved && !(SatSub(seats, no) < motion.threshold) {
        if now < motion.end { return Failed(TooEarlyToCloseProposal); }
        timed := true;
        var primeVote := PrimeVote(motion, prime);
        var abstentions := SatSub(seats, SatAdd(yes, no));
        if DefaultVote(cfg.strategy, primeVote, yes, seats) {
          yes := SatAdd(yes, abstentions);
        } else {
          no := SatAdd(no, abstentions);
        }
        approved := yes >= motion.threshold;
      }
      if approved {
        var got := ValidateAndGetProposal(Storage(), c.hash, c.lengthBound, c.weightBound);
        if got.Failure? { return Failed(got.error); }
      }
      var verdict := Verdict(approved, timed, Tally(yes, no));
      assert CloseVerdict(cfg, Storage(), c.hash, c.index, c.weightBound, c.lengthBound) == Success(verdict);
      DepositEvent(Closed(c.hash, c.index, verdict, seats, now));
      if approved {
        DoApproveProposal(seats, yes, c);
      } else {
        DepositEvent(Disapproved(c.hash));
        EraseProposal(c.hash);
      }
      return Concluded(verdict);
    }

    /** Dispatches in a storage layer of its own, then removes the motion whatever the dispatch did. */
    method DoApproveProposal(seats: U32, yes: U32, c: Call)
      requires c.Close?
      modifies this
      ensures var approved := Announce(old(Storage()), Approved(c.hash, c.index, yes, seats));
              var dispatched := if c.dispatch.succeeds then ExecAll(cfg, approved, c.dispatch.calls) else approved;
              Storage() == RemoveProposal(Announce(dispatched, Executed(c.hash, c.index, c.dispatch.succeeds)), c.hash)
      decreases c, 1
    {
      DepositEvent(Approved(c.hash, c.index, yes, seats));
      var layer := Storage();
      RunCalls(c.dispatch.calls);
      if !c.dispatch.succeeds { Restore(layer); }
      DepositEvent(Executed(c.hash, c.index, c.dispatch.succeeds));
      EraseProposal(c.hash);
    }

    method RunCalls(calls: seq<Call>)
      modifies this
      ensures Storage() == ExecAll(cfg, old(Storage()), calls)
      decreases calls, 4
    {
      for k := 0 to |calls|
        invariant Storage() == ExecAll(cfg, old(Storage()), calls[..k])
      {
        ghost var w := Storage();
        var _ := Execute(calls[k]);
        RunOne(cfg, w, calls[k]);
        RunInParts(cfg, old(Storage()), calls[..k], [calls[k]]);
        assert calls[..k + 1] == calls[..k] + [calls[k]];
      }
      assert calls[..|calls|] == calls;
    }

    /** One call in its storage layer. */
    method Execute(c: Call) returns (r: Outcome)
      modifies this
      ensures (Storage(), r) == Exec(cfg, old(Storage()), c)
      decreases c, 3
    {
      var layer := Storage();
      r := Done;
      match c {
        case Propose(who, proposal, lengthBound, duration) =>
          var proposed := ProposeMotion(who, proposal, lengthBound, duration);
          if proposed.Failure? { r := Failed(proposed.error); }
        case CastAsMember(who, hash, index, approve) =>
          if cfg.electorate.Senate? || who !in members { r := Failed(NotMember); }
          else { r := Poll(who, hash, index, approve); }
        case CastAsSenator(who, hash, index, approve) =>
          if cfg.electorate.CollectiveMembers? || who !in senate { r := Failed(NotSenateMember); }
          else { r := Poll(who, hash, index, approve); }
        case Close(_, _, _, _, _) => r := DoClose(c);
        case DisapproveProposal(hash) =>
          DepositEvent(Disapproved(hash));
          EraseProposal(hash);
        case SetMembers(outgoing, new_, primeMember) =>
          ReplaceMembers(outgoing, Sort(new_));
          prime := primeMember;
        case ChangeMembers(outgoing, new_) => ReplaceMembers(outgoing, new_);
        case SetPrime(primeMember) => prime := primeMember;
        case AddSenator(who) =>
          if who in senate { r := Failed(AlreadyMember); }
          else if |senate| >= cfg.senateMax { r := Failed(TooManyMembers); }
          else { senate := senate + {who}; }
        case SwapSenator(leaver, joiner) =>
          var swapped := SwapMember(leaver, joiner);
          if swapped.Failure? { r := Failed(swapped.error); }
        case RetireSenator(who) =>
          DropVotes(who);
          if who in senate { senate := senate - {who}; } else { r := Failed(NotMember); }
        case DropSenator(who) =>
          if who in senate { senate := senate - {who}; } else { r := Failed(NotMember); }
        case Advance(blocks) => now := SatAdd(now, blocks);
      }
      if r.Failed? { Restore(layer); }
    }

    method Poll(who: Account, hash: Hash, index: U32, approve: bool) returns (r: Outcome)
      modifies this
      ensures var w := old(Storage());
              (Storage(), r) == Settle(w, DoVote(w, who, hash, index, approve), Cast(FirstVote(w, who, hash)))
    {
      var voted := VoteOn(who, hash, index, approve);
      return if voted.Failure? then Failed(voted.error) else Cast(voted.value);
    }
  }
}
