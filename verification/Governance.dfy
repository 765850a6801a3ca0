/** Who may vote, how many votes that allows, and what majority an approved motion speaks for. */
module Governance {
  import opened Words
  import opened Vectors
  import opened Motions
  import opened Decisions
  import opened Collective
  import opened History
  import opened Invariants
  import opened Runs
  import Origins

  /** The accounts whose votes count. */
  function Roll(cfg: Config, w: World): set<Account> {
    match cfg.electorate case CollectiveMembers => Elems(w.members) case Senate => w.senate
  }

  /** Every standing vote belongs to an account on the roll. */
  ghost predicate VotersOnRoll(cfg: Config, w: World) {
    forall h :: h in w.voting ==> BallotOf(w.voting[h]).Keys <= Roll(cfg, w)
  }

  ghost predicate HasOpenVote(w: World, who: Account) {
    exists h :: h in w.voting && who in BallotOf(w.voting[h])
  }

  // ----- purging

  /** `remove_votes` takes `who` out of every ballot exactly when every motion `who` voted on is listed in `proposals`;
      no other vote, and nothing else of any motion, changes. */
  lemma RemoveVotesIsExact(w: World, who: Account)
    requires forall h :: h in w.voting ==> WellFormed(w.voting[h])
    ensures !HasOpenVote(RemoveVotes(w, who), who)
       <==> forall h :: h in w.voting && who in BallotOf(w.voting[h]) ==> h in w.proposals
    ensures var w' := RemoveVotes(w, who);
            && w'.voting.Keys == w.voting.Keys
            && forall h :: h in w.voting ==> BallotOf(w'.voting[h]) - {who} == BallotOf(w.voting[h]) - {who}
  {
    var w' := RemoveVotes(w, who);
    forall h | h in w.voting
      ensures var b := BallotOf(w.voting[h]);
              BallotOf(w'.voting[h]) == if h in w.proposals then b - {who} else b
    {
      PurgeRefinesMap(w.voting[h], {who});
    }
    forall h | h in w.voting ensures BallotOf(w'.voting[h]) - {who} == BallotOf(w.voting[h]) - {who} {
      var b := BallotOf(w.voting[h]);
      assert (b - {who}) - {who} == b - {who};
    }
    if h :| h in w.voting && who in BallotOf(w.voting[h]) && h !in w.proposals {
      assert who in BallotOf(w'.voting[h]);
    }
  }

  /** A member change erases exactly the outgoing accounts' votes and keeps every motion's index, threshold and end;
      the surviving votes keep their order. */
  lemma MemberChangePurges(cfg: Config, w: World, outgoing: seq<Account>, new_: seq<Account>, h: Hash)
    returns (ayes: seq<nat>, nays: seq<nat>)
    requires Inv(cfg, w) && h in w.voting
    ensures var w' := ChangeMembersSorted(w, outgoing, new_); var v, v' := w.voting[h], w'.voting[h];
            && BallotOf(v') == BallotOf(v) - Elems(outgoing)
            && (v'.index, v'.threshold, v'.end) == (v.index, v.threshold, v.end)
            && Embeds(v'.ayes, v.ayes, ayes) && Embeds(v'.nays, v.nays, nays)
            && w'.members == new_ && w'.prime == None
  {
    assert h in w.proposals;
    PurgeRefinesMap(w.voting[h], Elems(outgoing));
    ayes := WithoutOrder(w.voting[h].ayes, Elems(outgoing));
    nays := WithoutOrder(w.voting[h].nays, Elems(outgoing));
  }

  lemma PurgeShrinks(cfg: Config, w: World, out: set<Account>)
    requires StoresAgree(cfg, w)
    ensures PurgeVotes(w, out).voting.Keys == w.voting.Keys
    ensures forall h :: h in w.voting ==> BallotOf(PurgeVotes(w, out).voting[h]) == BallotOf(w.voting[h]) - out
  {
    forall h | h in w.voting ensures BallotOf(PurgeVotes(w, out).voting[h]) == BallotOf(w.voting[h]) - out {
      assert h in w.proposals;
      PurgeRefinesMap(w.voting[h], out);
    }
  }

  /** `set_members` stores the new list sorted, sets the prime, and erases exactly the votes of the accounts its diff
      against the old list names. */
  lemma SetMembersReplaces(cfg: Config, w: World, c: Call)
    requires Inv(cfg, w) && c.SetMembers?
    ensures var w' := Exec(cfg, w, c).0;
            && Sorted(w'.members) && multiset(w'.members) == multiset(c.new_) && w'.prime == c.prime
            && w'.voting.Keys == w.voting.Keys
            && (forall h :: h in w.voting ==> BallotOf(w'.voting[h]) == BallotOf(w.voting[h]) - Elems(c.outgoing))
  {
    SortSorts(c.new_);
    PurgeShrinks(cfg, w, Elems(c.outgoing));
    assert Exec(cfg, w, c).0.voting == PurgeVotes(w, Elems(c.outgoing)).voting;
  }

  /** When that diff is old minus new, an old member's votes stay exactly if the member does. */
  lemma SetMembersKeepsMembersVotes(cfg: Config, w: World, c: Call, a: Account)
    requires Inv(cfg, w) && c.SetMembers? && a in w.members
    requires Elems(c.outgoing) == Elems(w.members) - Elems(c.new_)
    ensures HasOpenVote(Exec(cfg, w, c).0, a) <==> HasOpenVote(w, a) && a in c.new_
  {
    SetMembersReplaces(cfg, w, c);
    PurgedVoters(w, Exec(cfg, w, c).0, Elems(c.outgoing), a);
    assert a in Elems(c.outgoing) <==> a !in Elems(c.new_);
  }

  lemma PurgedVoters(w: World, w': World, out: set<Account>, a: Account)
    requires w'.voting.Keys == w.voting.Keys
    requires forall h :: h in w.voting ==> BallotOf(w'.voting[h]) == BallotOf(w.voting[h]) - out
    ensures HasOpenVote(w', a) <==> HasOpenVote(w, a) && a !in out
  {
    if HasOpenVote(w, a) && a !in out {
      var h :| h in w.voting && a in BallotOf(w.voting[h]);
      assert a in BallotOf(w'.voting[h]);
    }
  }

  /** The outgoing list names every dropped member who has an open vote. */
  ghost predicate CoversVoters(w: World, outgoing: seq<Account>, new_: seq<Account>) {
    forall a :: a in Elems(w.members) - Elems(new_) && HasOpenVote(w, a) ==> a in outgoing
  }

  /** A member change keeps all voters on the roll exactly when the outgoing list covers every voter it drops. */
  lemma MemberChangeKeepsRoll(cfg: Config, w: World, outgoing: seq<Account>, new_: seq<Account>)
    requires Inv(cfg, w) && cfg.electorate == CollectiveMembers && VotersOnRoll(cfg, w)
    ensures VotersOnRoll(cfg, ChangeMembersSorted(w, outgoing, new_)) <==> CoversVoters(w, outgoing, new_)
  {
    var w' := ChangeMembersSorted(w, outgoing, new_);
    PurgeShrinks(cfg, w, Elems(outgoing));
    assert forall h :: h in w.voting ==> BallotOf(w'.voting[h]) == BallotOf(w.voting[h]) - Elems(outgoing);
    if VotersOnRoll(cfg, w') {
      forall a | a in Elems(w.members) - Elems(new_) && HasOpenVote(w, a) ensures a in outgoing {
        var h :| h in w.voting && a in BallotOf(w.voting[h]);
        assert a in BallotOf(w'.voting[h]) || a in Elems(outgoing);
      }
    }
  }

  /** Dropping a senator without purging first keeps all voters on the roll exactly when
      the senator has no open vote. */
  lemma DropKeepsRollExactly(cfg: Config, w: World, who: Account)
    requires cfg.electorate == Senate && VotersOnRoll(cfg, w)
    ensures VotersOnRoll(cfg, Exec(cfg, w, DropSenator(who)).0) <==> !HasOpenVote(w, who) || who !in w.senate
  {
  }

  // ----- voters stay on the roll

  /** The environment's part: a change of members names every voter it drops, and a senator dropped without a purge
      has no open vote. */
  ghost predicate Careful(cfg: Config, w: World, c: Call)
    decreases c, 0
  {
    match c
    case SetMembers(outgoing, new_, _) => cfg.electorate == CollectiveMembers ==> CoversVoters(w, outgoing, new_)
    case ChangeMembers(outgoing, new_) => cfg.electorate == CollectiveMembers ==> CoversVoters(w, outgoing, new_)
    case DropSenator(who) => cfg.electorate == Senate ==> !HasOpenVote(w, who)
    case Close(hash, index, weightBound, lengthBound, dispatch) =>
      (match CloseVerdict(cfg, w, hash, index, weightBound, lengthBound)
       case Failure(_) => true
       case Success(verdict) =>
         verdict.approved && dispatch.succeeds ==>
           AllCareful(cfg, AnnounceVerdict(cfg, w, hash, index, verdict), dispatch.calls))
    case _ => true
  }

  ghost predicate AllCareful(cfg: Config, w: World, calls: seq<Call>)
    decreases calls, 1
  {
    |calls| > 0 ==> Careful(cfg, w, calls[0]) && AllCareful(cfg, Exec(cfg, w, calls[0]).0, calls[1..])
  }

  /** All voters are on the roll in every state the call goes through, inside its dispatch too. */
  ghost predicate StaysOnRoll(cfg: Config, w: World, c: Call)
    decreases c, 0
  {
    && VotersOnRoll(cfg, Exec(cfg, w, c).0)
    && (c.Close? ==>
          match CloseVerdict(cfg, w, c.hash, c.index, c.weightBound, c.lengthBound)
          case Failure(_) => true
          case Success(verdict) =>
            verdict.approved && c.dispatch.succeeds ==>
              AllStayOnRoll(cfg, AnnounceVerdict(cfg, w, c.hash, c.index, verdict), c.dispatch.calls))
  }

  ghost predicate AllStayOnRoll(cfg: Config, w: World, calls: seq<Call>)
    decreases calls, 1
  {
    |calls| > 0 ==> StaysOnRoll(cfg, w, calls[0]) && AllStayOnRoll(cfg, Exec(cfg, w, calls[0]).0, calls[1..])
  }

  lemma CastKeepsRoll(cfg: Config, w: World, who: Account, hash: Hash, index: U32, approve: bool)
    requires StoresAgree(cfg, w) && VotersOnRoll(cfg, w) && who in Roll(cfg, w)
    requires DoVote(w, who, hash, index, approve).Success?
    ensures VotersOnRoll(cfg, DoVote(w, who, hash, index, approve).value)
  {
    CastVoteRefinesMap(w.voting[hash], who, approve);
  }

  lemma VoteKeepsRoll(cfg: Config, w: World, c: Call)
    requires Inv(cfg, w) && VotersOnRoll(cfg, w) && (c.CastAsMember? || c.CastAsSenator?)
    ensures VotersOnRoll(cfg, Exec(cfg, w, c).0)
  {
    if Exec(cfg, w, c).1.Cast? { CastKeepsRoll(cfg, w, c.who, c.hash, c.index, c.approve); }
  }

  lemma OpenKeepsRoll(cfg: Config, w: World, c: Call)
    requires VotersOnRoll(cfg, w) && (c.Propose? || c.SetPrime? || c.Advance?)
    ensures VotersOnRoll(cfg, Exec(cfg, w, c).0)
  {
    if c.Propose? && Exec(cfg, w, c).1 == Done {
      var w' := Exec(cfg, w, c).0;
      assert BallotOf(w'.voting[c.proposal.hash]) == map[];
      assert w'.voting == w.voting[c.proposal.hash := w'.voting[c.proposal.hash]];
    }
  }

  lemma RemoveKeepsRoll(cfg: Config, w: World, e: Entry, hash: Hash)
    requires VotersOnRoll(cfg, w)
    ensures VotersOnRoll(cfg, RemoveProposal(Announce(w, e), hash))
  {
  }

  lemma MembersCallKeepsRoll(cfg: Config, w: World, outgoing: seq<Account>, new_: seq<Account>)
    requires Inv(cfg, w) && VotersOnRoll(cfg, w)
    ensures VotersOnRoll(cfg, ChangeMembersSorted(w, outgoing, new_))
       <==> (cfg.electorate == CollectiveMembers ==> CoversVoters(w, outgoing, new_))
  {
    if cfg.electorate.CollectiveMembers? {
      MemberChangeKeepsRoll(cfg, w, outgoing, new_);
    } else {
      PurgeShrinks(cfg, w, Elems(outgoing));
    }
  }

  lemma PurgedSenateKeepsRoll(cfg: Config, w: World, leaver: Account, senate: set<Account>)
    requires StoresAgree(cfg, w) && VotersOnRoll(cfg, w) && w.senate - {leaver} <= senate
    ensures VotersOnRoll(cfg, RemoveVotes(w, leaver).(senate := senate))
  {
    PurgeShrinks(cfg, w, {leaver});
  }

  /** Every exchange of senators that the runtime offers keeps all voters on the roll: it purges the leaver's votes. */
  lemma SenateCallKeepsRoll(cfg: Config, w: World, c: Call)
    requires Inv(cfg, w) && VotersOnRoll(cfg, w) && (c.AddSenator? || c.SwapSenator? || c.RetireSenator?)
    ensures VotersOnRoll(cfg, Exec(cfg, w, c).0)
  {
    if c.SwapSenator? {
      var senate := if c.leaver == c.joiner then w.senate else w.senate - {c.leaver} + {c.joiner};
      PurgedSenateKeepsRoll(cfg, w, c.leaver, senate);
    } else if c.RetireSenator? {
      PurgedSenateKeepsRoll(cfg, w, c.who, w.senate - {c.who});
    }
  }

  /** A call that dispatches nothing keeps all voters on the roll exactly when it is careful. */
  lemma PlainCallKeepsRoll(cfg: Config, w: World, c: Call)
    requires Inv(cfg, w) && VotersOnRoll(cfg, w) && !c.Close?
    ensures VotersOnRoll(cfg, Exec(cfg, w, c).0) <==> Careful(cfg, w, c)
  {
    if c.CastAsMember? || c.CastAsSenator? {
      VoteKeepsRoll(cfg, w, c);
    } else if c.SetMembers? {
      SortSorts(c.new_);
      MembersCallKeepsRoll(cfg, w, c.outgoing, Sort(c.new_));
      assert CoversVoters(w, c.outgoing, Sort(c.new_)) <==> CoversVoters(w, c.outgoing, c.new_);
    } else if c.ChangeMembers? {
      MembersCallKeepsRoll(cfg, w, c.outgoing, c.new_);
    } else if c.AddSenator? || c.SwapSenator? || c.RetireSenator? {
      SenateCallKeepsRoll(cfg, w, c);
    } else if c.DropSenator? {
      if cfg.electorate.Senate? { DropKeepsRollExactly(cfg, w, c.who); }
    } else if c.DisapproveProposal? {
      RemoveKeepsRoll(cfg, w, Disapproved(c.hash), c.hash);
    } else {
      OpenKeepsRoll(cfg, w, c);
    }
  }

  lemma {:induction false} StayingEndsOnRoll(cfg: Config, w: World, calls: seq<Call>)
    requires VotersOnRoll(cfg, w) && AllStayOnRoll(cfg, w, calls)
    ensures VotersOnRoll(cfg, ExecAll(cfg, w, calls))
    decreases |calls|
  {
    if |calls| > 0 { StayingEndsOnRoll(cfg, Exec(cfg, w, calls[0]).0, calls[1..]); }
  }

  lemma {:induction false} CallKeepsRollExactly(cfg: Config, w: World, c: Call)
    requires Inv(cfg, w) && VotersOnRoll(cfg, w)
    ensures StaysOnRoll(cfg, w, c) <==> Careful(cfg, w, c)
    decreases c, 0
  {
    if !c.Close? {
      PlainCallKeepsRoll(cfg, w, c);
    } else {
      var r := CloseVerdict(cfg, w, c.hash, c.index, c.weightBound, c.lengthBound);
      if r.Success? {
        var begun := AnnounceVerdict(cfg, w, c.hash, c.index, r.value);
        if !r.value.approved {
          RemoveKeepsRoll(cfg, begun, Disapproved(c.hash), c.hash);
        } else if !c.dispatch.succeeds {
          RemoveKeepsRoll(cfg, begun, Executed(c.hash, c.index, false), c.hash);
        } else {
          VerdictKeeps(cfg, w, c);
          RunKeepsRollExactly(cfg, begun, c.dispatch.calls);
          if AllStayOnRoll(cfg, begun, c.dispatch.calls) {
            StayingEndsOnRoll(cfg, begun, c.dispatch.calls);
            RemoveKeepsRoll(cfg, ExecAll(cfg, begun, c.dispatch.calls), Executed(c.hash, c.index, true), c.hash);
          }
        }
      }
    }
  }

  /** All voters stay on the roll through every state of a run, inside dispatches too, exactly when every call is
      careful where it is made. */
  lemma {:induction false} RunKeepsRollExactly(cfg: Config, w: World, calls: seq<Call>)
    requires Inv(cfg, w) && VotersOnRoll(cfg, w)
    ensures AllStayOnRoll(cfg, w, calls) <==> AllCareful(cfg, w, calls)
    decreases calls, 1
  {
    if |calls| > 0 {
      var next := Exec(cfg, w, calls[0]).0;
      CallKeepsRollExactly(cfg, w, calls[0]);
      var moves := Flatten(cfg, w, calls[0]);
      PlaysKeep(cfg, w, moves, next);
      if VotersOnRoll(cfg, next) { RunKeepsRollExactly(cfg, next, calls[1..]); }
    }
  }

  /** The votes on `v` fit the seats, and the u32 tallies count them exactly. */
  ghost predicate Fits(v: Votes, seats: U32) {
    |v.ayes| == TallyOf(v).yes && |v.nays| == TallyOf(v).no && |v.ayes| + |v.nays| <= seats
  }

  lemma RollFitsSeats(cfg: Config, w: World)
    requires |w.senate| <= cfg.senateMax
    requires cfg.electorate == Senate || |w.members| <= U32_MAX
    ensures |Roll(cfg, w)| <= Seats(cfg, w)
  {
    ElemsAtMost(w.members);
    match cfg.electorate
    case CollectiveMembers => CastSmall(|w.members|);
    case Senate => CastSmall(|w.senate|);
  }

  lemma RollFits(v: Votes, roll: set<Account>, seats: U32)
    requires WellFormed(v) && BallotOf(v).Keys <= roll && |roll| <= seats
    ensures Fits(v, seats)
  {
    TalliesCountVoters(v);
    SubsetCard(BallotOf(v).Keys, roll);
    CastSmall(|v.ayes|);
    CastSmall(|v.nays|);
  }

  /** Where all voters are on the roll, the votes on an open motion fit the seats, the u32 tallies are exact,
      and the two early closing tests exclude each other. */
  lemma RollVotesFit(cfg: Config, w: World, h: Hash)
    requires Inv(cfg, w) && VotersOnRoll(cfg, w) && h in w.voting
    requires cfg.electorate == Senate || |w.members| <= U32_MAX
    ensures var v, t, seats := w.voting[h], TallyOf(w.voting[h]), Seats(cfg, w);
            Fits(v, seats) && !(EarlyApproved(t, v.threshold) && EarlyDisapproved(t, seats, v.threshold))
  {
    RollFitsSeats(cfg, w);
    RollFits(w.voting[h], Roll(cfg, w), Seats(cfg, w));
    EarlyExclusive(TallyOf(w.voting[h]), Seats(cfg, w));
  }

  /** Over every careful run, in either configuration, all voters are on the roll and their votes fit the seats. */
  lemma VotesFitSeats(cfg: Config, w0: World, calls: seq<Call>, h: Hash)
    requires Genesis(cfg, w0) && AllCareful(cfg, w0, calls)
    ensures var w := ExecAll(cfg, w0, calls);
            h in w.voting ==>
              && BallotOf(w.voting[h]).Keys <= Roll(cfg, w)
              && (cfg.electorate == Senate || |w.members| <= U32_MAX ==>
                    var v, t, seats := w.voting[h], TallyOf(w.voting[h]), Seats(cfg, w);
                    Fits(v, seats) && !(EarlyApproved(t, v.threshold) && EarlyDisapproved(t, seats, v.threshold)))
  {
    var w := ExecAll(cfg, w0, calls);
    SoundRunsStaySound(cfg, w0, []);
    EveryRunIsSound(cfg, w0, calls);
    RunKeepsRollExactly(cfg, w0, calls);
    StayingEndsOnRoll(cfg, w0, calls);
    if h in w.voting && (cfg.electorate == Senate || |w.members| <= U32_MAX) { RollVotesFit(cfg, w, h); }
  }

  // ----- the majority behind a dispatched motion

  /** If closing approves `v`, the origin it dispatches with passes the Senate's strict-majority gate. */
  ghost predicate SpeaksForMajority(strategy: Strategy, v: Votes, seats: U32, prime: Option<Account>, now: U32) {
    var d := Decide(strategy, v, seats, prime, now);
    d.Some? && d.value.approved ==> Origins.EnsureMajoritySenate(Origins.Members(d.value.tally.yes, seats))
  }

  /** A motion with this threshold that its ayes alone carry. */
  function Carried(threshold: U32): Votes {
    Votes(0, threshold, seq(threshold, i => i), [], 0)
  }

  lemma CarriedIsApproved(threshold: U32, seats: U32)
    ensures WellFormed(Carried(threshold))
    ensures Decide(PrimeDefaultVote, Carried(threshold), seats, None, 0)
         == Some(Verdict(true, false, Tally(threshold, 0)))
  {
    CastSmall(threshold);
  }

  /** `do_close` approves only with a strict majority, whatever the votes, the strategy and the prime,
      exactly when the seats are fewer than twice the threshold and below 2^32 - 1. */
  lemma ApprovalsAreMajoritiesExactly(threshold: U32, seats: U32)
    ensures (forall strategy, v: Votes, prime, now :: WellFormed(v) && v.threshold == threshold ==>
               SpeaksForMajority(strategy, v, seats, prime, now))
       <==> seats < 2 * threshold && seats < U32_MAX
  {
    if seats < 2 * threshold && seats < U32_MAX {
      forall strategy, v: Votes, prime, now | WellFormed(v) && v.threshold == threshold
        ensures SpeaksForMajority(strategy, v, seats, prime, now)
      {
        var d := Decide(strategy, v, seats, prime, now);
        if d.Some? && d.value.approved { Origins.MajorityGateExact(Origins.Members(d.value.tally.yes, seats)); }
      }
    } else {
      CarriedIsApproved(threshold, seats);
      Origins.MajorityGateExact(Origins.Members(threshold, seats));
      assert !SpeaksForMajority(PrimeDefaultVote, Carried(threshold), seats, None, 0);
    }
  }

  /** In every run, a motion is dispatched with at least its threshold of ayes; its origin passes the Senate's
      strict-majority gate whenever the seats are fewer than twice that threshold and below 2^32 - 1,
      in particular when they have not grown since the proposal. */
  lemma DispatchedWithMajority(cfg: Config, w0: World, calls: seq<Call>, k: nat)
    requires Genesis(cfg, w0) && k < |ExecAll(cfg, w0, calls).log|
    ensures var log := ExecAll(cfg, w0, calls).log;
            log[k].Approved? ==>
              var m := Replay(log[..k], log[k].hash);
              && m.Some? && m.value.index == log[k].index && log[k].yes >= m.value.threshold
              && (log[k].seats < 2 * m.value.threshold && log[k].seats < U32_MAX ==>
                    Origins.EnsureMajoritySenate(Origins.Members(log[k].yes, log[k].seats)))
              && (log[k].seats <= m.value.seats ==> log[k].seats < 2 * m.value.threshold)
  {
    var log := ExecAll(cfg, w0, calls).log;
    EveryRunIsSound(cfg, w0, calls);
    AuditPrefix(cfg, log, k);
    if log[k].Approved? {
      AuditPrefix(cfg, log, k - 1);
      assert log[..k] == log[..k - 1] + [log[k - 1]];
      Grow(cfg, log[..k - 1], log[k - 1]);
      ReplayOpening(cfg, log[..k], log[k].hash);
      Origins.MajorityGateExact(Origins.Members(log[k].yes, log[k].seats));
    }
  }
}
