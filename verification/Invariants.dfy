/** What every storage change keeps. A run is flattened into moves, one storage change each. */
module Invariants {
  import opened Words
  import opened Vectors
  import opened Motions
  import opened Decisions
  import opened Collective
  import opened History

  /** The three stores list the same motions, within the bound, each with well-formed votes. */
  ghost predicate StoresAgree(cfg: Config, w: World) {
    && NoDup(w.proposals) && |w.proposals| <= cfg.maxProposals
    && w.proposalOf.Keys == Elems(w.proposals) && w.voting.Keys == Elems(w.proposals)
    && (forall h :: h in w.proposalOf ==> w.proposalOf[h].hash == h)
    && (forall h :: h in w.voting ==> WellFormed(w.voting[h]))
  }

  ghost predicate OpenIndex(w: World, i: U32) {
    exists h :: h in w.voting && w.voting[h].index == i
  }

  /** Every index handed out belongs to one open motion or to one removal, never to two. */
  ghost predicate IndicesPartition(w: World) {
    var issued, removed := Indices(w.log, Openings), Indices(w.log, Removals);
    && |issued| == w.proposalCount && (forall k :: 0 <= k < |issued| ==> issued[k] == k)
    && (forall g, h :: g in w.voting && h in w.voting && w.voting[g].index == w.voting[h].index ==> g == h)
    && (forall i: U32 :: OpenIndex(w, i) ==> i < w.proposalCount && i !in removed)
    && (forall i: U32 :: i < w.proposalCount ==> OpenIndex(w, i) || i in removed)
    && NoDup(removed) && (forall i :: i in removed ==> i < w.proposalCount)
    && |removed| + |w.proposals| == w.proposalCount
  }

  ghost predicate Agrees(v: Votes, m: Motion) {
    v.index == m.index && v.threshold == m.threshold && v.end == End(m) && BallotOf(v) == m.ballot
  }

  ghost predicate Tracks(w: World, h: Hash) {
    var m := Replay(w.log, h);
    && (h in w.voting <==> m.Some?)
    && (h in w.voting ==>
          && Agrees(w.voting[h], m.value) && m.value.at <= w.now
          && h in w.proposalOf && w.proposalOf[h] == m.value.proposal)
  }

  /** The vectors and the proposals in storage are what the log replays to. */
  ghost predicate Sourced(w: World) {
    forall h :: Tracks(w, h)
  }

  ghost predicate Inv(cfg: Config, w: World) {
    && StoresAgree(cfg, w) && IndicesPartition(w) && Sourced(w) && Audit(cfg, w.log)
    && |w.senate| <= cfg.senateMax
  }

  // ----- moves

  datatype Move =
    | Open(proposal: Proposal, threshold: U32, seats: U32, duration: U32)
    | Enter(who: Account, hash: Hash, index: U32, approve: bool)
    | Remove(hash: Hash)
    | Clear(accounts: set<Account>)
    | Say(entry: Entry)
    | Govern(members: seq<Account>, prime: Option<Account>, senate: set<Account>, now: U32)

  ghost predicate Legal(cfg: Config, w: World, m: Move) {
    match m
    case Open(proposal, threshold, seats, duration) =>
      && proposal.hash !in w.proposalOf && |w.proposals| < cfg.maxProposals && w.proposalCount < U32_MAX
      && threshold == seats / 2 + 1 && duration >= cfg.motionDuration
    case Enter(who, hash, index, approve) => DoVote(w, who, hash, index, approve).Success?
    case Say(e) =>
      (match e
       case Closed(hash, index, verdict, seats, at) =>
         && hash in w.voting && w.voting[hash].index == index && at == w.now
         && Decide(cfg.strategy, w.voting[hash], seats, w.prime, w.now) == Some(verdict)
       case Approved(_, _, _, _) => EntryOk(cfg, w.log, e)
       case Disapproved(_) => true
       case Executed(_, _, _) => true
       case _ => false)
    case Govern(_, _, senate, now) => now >= w.now && (|senate| <= |w.senate| || |senate| <= cfg.senateMax)
    case _ => true
  }

  ghost function Apply(cfg: Config, w: World, m: Move): World
    requires Legal(cfg, w, m)
  {
    match m
    case Open(proposal, threshold, seats, duration) => OpenMotion(w, proposal, threshold, seats, duration)
    case Enter(who, hash, index, approve) => DoVote(w, who, hash, index, approve).value
    case Remove(hash) => RemoveProposal(w, hash)
    case Clear(accounts) => PurgeVotes(w, accounts)
    case Say(e) => Announce(w, e)
    case Govern(members, prime, senate, now) => w.(members := members, prime := prime, senate := senate, now := now)
  }

  /** `moves` lead legally from `w` to `w'`. */
  ghost predicate Plays(cfg: Config, w: World, moves: seq<Move>, w': World)
    decreases |moves|
  {
    if |moves| == 0 then w == w'
    else Legal(cfg, w, moves[0]) && Plays(cfg, Apply(cfg, w, moves[0]), moves[1..], w')
  }

  lemma {:induction false} PlaysConcat(cfg: Config, a: World, p: seq<Move>, b: World, q: seq<Move>, c: World)
    requires Plays(cfg, a, p, b) && Plays(cfg, b, q, c)
    ensures Plays(cfg, a, p + q, c)
    decreases |p|
  {
    if |p| == 0 {
      assert p + q == q;
    } else {
      PlaysConcat(cfg, Apply(cfg, a, p[0]), p[1..], b, q, c);
      assert (p + q)[1..] == p[1..] + q;
    }
  }

  lemma PlaysOne(cfg: Config, w: World, m: Move)
    requires Legal(cfg, w, m)
    ensures Plays(cfg, w, [m], Apply(cfg, w, m))
  {
  }

  lemma PlaysTwo(cfg: Config, w: World, m: Move, n: Move)
    requires Legal(cfg, w, m) && Legal(cfg, Apply(cfg, w, m), n)
    ensures Plays(cfg, w, [m, n], Apply(cfg, Apply(cfg, w, m), n))
  {
    PlaysOne(cfg, w, m);
    PlaysOne(cfg, Apply(cfg, w, m), n);
    PlaysConcat(cfg, w, [m], Apply(cfg, w, m), [n], Apply(cfg, Apply(cfg, w, m), n));
    assert [m] + [n] == [m, n];
  }

  // ----- opening a motion

  lemma OpenKeeps(cfg: Config, w: World, m: Move)
    requires Inv(cfg, w) && m.Open? && Legal(cfg, w, m)
    ensures Inv(cfg, Apply(cfg, w, m))
  {
    OpenKeepsStores(cfg, w, m);
    OpenKeepsIndices(cfg, w, m);
    var e := Proposed(m.proposal, w.proposalCount, m.threshold, m.seats, w.now, m.duration);
    Grow(cfg, w.log, e);
    assert Tracks(w, m.proposal.hash);
    forall h ensures Tracks(Apply(cfg, w, m), h) {
      assert Tracks(w, h);
    }
  }

  lemma OpenKeepsStores(cfg: Config, w: World, m: Move)
    requires StoresAgree(cfg, w) && m.Open? && Legal(cfg, w, m)
    ensures StoresAgree(cfg, Apply(cfg, w, m))
  {
    var w' := Apply(cfg, w, m);
    assert Elems(w'.proposals) == Elems(w.proposals) + {m.proposal.hash};
    assert m.proposal.hash !in Elems(w.proposals);
  }

  lemma OpenTakes(w: World, w': World, hash: Hash)
    requires hash !in w.voting && hash in w'.voting && w'.voting == w.voting[hash := w'.voting[hash]]
    ensures forall i: U32 :: OpenIndex(w', i) <==> OpenIndex(w, i) || i == w'.voting[hash].index
  {
    forall i: U32 ensures OpenIndex(w', i) <==> OpenIndex(w, i) || i == w'.voting[hash].index {
      if OpenIndex(w, i) {
        var h :| h in w.voting && w.voting[h].index == i;
        assert w'.voting[h].index == i;
      }
    }
  }

  lemma OpenKeepsIndices(cfg: Config, w: World, m: Move)
    requires StoresAgree(cfg, w) && IndicesPartition(w) && m.Open? && Legal(cfg, w, m)
    ensures IndicesPartition(Apply(cfg, w, m))
  {
    var w' := Apply(cfg, w, m);
    Grow(cfg, w.log, w'.log[|w.log|]);
    OpenTakes(w, w', m.proposal.hash);
    forall h | h in w.voting ensures w.voting[h].index != w.proposalCount {
      assert OpenIndex(w, w.voting[h].index);
    }
  }

  // ----- casting a vote

  lemma EnterKeeps(cfg: Config, w: World, m: Move)
    requires Inv(cfg, w) && m.Enter? && Legal(cfg, w, m)
    ensures Inv(cfg, Apply(cfg, w, m))
  {
    var w' := Apply(cfg, w, m);
    CastVoteRefinesMap(w.voting[m.hash], m.who, m.approve);
    EnterAudits(cfg, w, m);
    EnterTracks(cfg, w, m);
    Grow(cfg, w.log, w'.log[|w.log|]);
    assert w'.voting.Keys == w.voting.Keys;
    SameIndices(w, w');
  }

  lemma EnterTracks(cfg: Config, w: World, m: Move)
    requires StoresAgree(cfg, w) && Sourced(w) && m.Enter? && Legal(cfg, w, m)
    ensures Sourced(Apply(cfg, w, m))
  {
    var w' := Apply(cfg, w, m);
    CastVoteRefinesMap(w.voting[m.hash], m.who, m.approve);
    Grow(cfg, w.log, w'.log[|w.log|]);
    forall h ensures Tracks(w', h) {
      assert Tracks(w, h);
    }
  }

  lemma EnterAudits(cfg: Config, w: World, m: Move)
    requires StoresAgree(cfg, w) && Sourced(w) && m.Enter? && Legal(cfg, w, m)
    ensures var w' := Apply(cfg, w, m); EntryOk(cfg, w.log, w'.log[|w.log|])
  {
    var v' := Apply(cfg, w, m).voting[m.hash];
    CastVoteRefinesMap(w.voting[m.hash], m.who, m.approve);
    TalliesCountVoters(v');
    assert Tracks(w, m.hash);
  }

  /** Replacing votes under their own indices leaves the partition alone. */
  lemma SameIndices(w: World, w': World)
    requires IndicesPartition(w)
    requires w'.voting.Keys == w.voting.Keys && forall h :: h in w.voting ==> w'.voting[h].index == w.voting[h].index
    requires w'.proposalCount == w.proposalCount && w'.proposals == w.proposals
    requires forall kind | kind != Approvals :: Indices(w'.log, kind) == Indices(w.log, kind)
    ensures IndicesPartition(w')
  {
    forall i: U32 ensures OpenIndex(w', i) <==> OpenIndex(w, i) {
      if OpenIndex(w, i) {
        var h :| h in w.voting && w.voting[h].index == i;
        assert w'.voting[h].index == i;
      }
    }
  }

  // ----- removing a motion

  lemma RemoveKeeps(cfg: Config, w: World, m: Move)
    requires Inv(cfg, w) && m.Remove?
    ensures Inv(cfg, Apply(cfg, w, m))
  {
    if m.hash in w.voting {
      RemoveKeepsStores(cfg, w, m.hash);
      RemoveKeepsIndices(cfg, w, m.hash);
      RemoveKeepsTrack(cfg, w, m.hash);
    } else {
      RemoveAbsent(cfg, w, m.hash);
    }
  }

  lemma RemoveAbsent(cfg: Config, w: World, hash: Hash)
    requires StoresAgree(cfg, w) && hash !in w.voting
    ensures RemoveProposal(w, hash) == w
  {
    WithoutNothing(w.proposals, {hash});
    assert w.voting - {hash} == w.voting;
    assert w.proposalOf - {hash} == w.proposalOf;
  }

  lemma RemoveKeepsStores(cfg: Config, w: World, hash: Hash)
    requires StoresAgree(cfg, w)
    ensures StoresAgree(cfg, RemoveProposal(w, hash))
    ensures hash !in RemoveProposal(w, hash).voting
  {
    WithoutElems(w.proposals, {hash});
  }

  lemma RemoveKeepsTrack(cfg: Config, w: World, hash: Hash)
    requires StoresAgree(cfg, w) && Sourced(w) && Audit(cfg, w.log) && hash in w.voting
    ensures Sourced(RemoveProposal(w, hash)) && Audit(cfg, RemoveProposal(w, hash).log)
  {
    var w' := RemoveProposal(w, hash);
    assert Tracks(w, hash);
    Grow(cfg, w.log, Removed(hash, w.voting[hash].index));
    forall h ensures Tracks(w', h) {
      assert Tracks(w, h);
    }
  }

  lemma RemoveCounts(cfg: Config, w: World, hash: Hash)
    requires StoresAgree(cfg, w) && hash in w.voting
    ensures |RemoveProposal(w, hash).proposals| == |w.proposals| - 1
  {
    var rest := Without(w.proposals, {hash});
    WithoutElems(w.proposals, {hash});
    ElemsCard(w.proposals);
    ElemsCard(rest);
    assert Elems(w.proposals) == Elems(rest) + {hash};
  }

  lemma RemoveFrees(w: World, hash: Hash)
    requires hash in w.voting
    requires forall h :: h in w.voting && w.voting[h].index == w.voting[hash].index ==> h == hash
    ensures forall i: U32 :: OpenIndex(RemoveProposal(w, hash), i) <==> OpenIndex(w, i) && i != w.voting[hash].index
  {
    var w' := RemoveProposal(w, hash);
    forall i: U32 ensures OpenIndex(w', i) <==> OpenIndex(w, i) && i != w.voting[hash].index {
      if OpenIndex(w, i) && i != w.voting[hash].index {
        var h :| h in w.voting && w.voting[h].index == i;
        assert h in w'.voting;
      }
    }
  }

  lemma RemoveKeepsIndices(cfg: Config, w: World, hash: Hash)
    requires StoresAgree(cfg, w) && IndicesPartition(w) && hash in w.voting
    ensures IndicesPartition(RemoveProposal(w, hash))
  {
    var gone := w.voting[hash].index;
    Grow(cfg, w.log, Removed(hash, gone));
    assert OpenIndex(w, gone);
    RemoveFrees(w, hash);
    RemoveCounts(cfg, w, hash);
  }

  // ----- purging votes, announcing, governing

  lemma ClearRefines(cfg: Config, w: World, accounts: set<Account>)
    requires StoresAgree(cfg, w)
    ensures var w' := PurgeVotes(w, accounts);
            forall h :: h in w.voting ==>
              WellFormed(w'.voting[h]) && BallotOf(w'.voting[h]) == BallotOf(w.voting[h]) - accounts
  {
    forall h | h in w.voting
      ensures WellFormed(Motions.Purge(w.voting[h], accounts))
      ensures BallotOf(Motions.Purge(w.voting[h], accounts)) == BallotOf(w.voting[h]) - accounts
    {
      PurgeRefinesMap(w.voting[h], accounts);
    }
    assert forall h :: h in w.voting ==> h in w.proposals;
  }

  lemma ClearKeeps(cfg: Config, w: World, m: Move)
    requires Inv(cfg, w) && m.Clear?
    ensures Inv(cfg, Apply(cfg, w, m))
  {
    var w' := Apply(cfg, w, m);
    Grow(cfg, w.log, Purged(m.accounts));
    ClearRefines(cfg, w, m.accounts);
    SameIndices(w, w');
    forall h ensures Tracks(w', h) {
      assert Tracks(w, h);
    }
  }

  lemma SayKeeps(cfg: Config, w: World, m: Move)
    requires Inv(cfg, w) && m.Say? && Legal(cfg, w, m)
    ensures Inv(cfg, Apply(cfg, w, m))
  {
    var w' := Apply(cfg, w, m);
    if m.entry.Closed? { ClosedAudits(cfg, w, m.entry); }
    Grow(cfg, w.log, m.entry);
    SameIndices(w, w');
    forall h ensures Tracks(w', h) {
      assert Tracks(w, h);
    }
  }

  /** The verdict `do_close` reaches is the one the log justifies. */
  lemma ClosedAudits(cfg: Config, w: World, e: Entry)
    requires Inv(cfg, w) && e.Closed? && Legal(cfg, w, Say(e))
    ensures EntryOk(cfg, w.log, e)
  {
    var v := w.voting[e.hash];
    assert Tracks(w, e.hash);
    TalliesCountVoters(v);
    var t := TallyOf(v);
    assert t == Count(Replay(w.log, e.hash).value.ballot);
    if e.verdict.timed {
      var default := DefaultVote(cfg.strategy, PrimeVote(v, w.prime), t.yes, e.seats);
      TimedPathFollowsDefault(t, e.seats, v.threshold, default);
    }
  }

  lemma GovernKeeps(cfg: Config, w: World, m: Move)
    requires Inv(cfg, w) && m.Govern? && Legal(cfg, w, m)
    ensures Inv(cfg, Apply(cfg, w, m))
  {
    SameIndices(w, Apply(cfg, w, m));
    forall h ensures Tracks(Apply(cfg, w, m), h) {
      assert Tracks(w, h);
    }
  }

  lemma MoveKeeps(cfg: Config, w: World, m: Move)
    requires Inv(cfg, w) && Legal(cfg, w, m)
    ensures Inv(cfg, Apply(cfg, w, m))
  {
    match m
    case Open(_, _, _, _) => OpenKeeps(cfg, w, m);
    case Enter(_, _, _, _) => EnterKeeps(cfg, w, m);
    case Remove(_) => RemoveKeeps(cfg, w, m);
    case Clear(_) => ClearKeeps(cfg, w, m);
    case Say(_) => SayKeeps(cfg, w, m);
    case Govern(_, _, _, _) => GovernKeeps(cfg, w, m);
  }

  lemma {:induction false} PlaysKeep(cfg: Config, w: World, moves: seq<Move>, w': World)
    requires Inv(cfg, w) && Plays(cfg, w, moves, w')
    ensures Inv(cfg, w')
    decreases |moves|
  {
    if |moves| > 0 {
      MoveKeeps(cfg, w, moves[0]);
      PlaysKeep(cfg, Apply(cfg, w, moves[0]), moves[1..], w');
    }
  }
}
