/** The collective pallet as a function of its storage: every call, with the dispatch of approved motions
    nested in it. */
module Collective {
  import opened Words
  import opened Vectors
  import opened Motions
  import opened Decisions

  type Hash = nat

  datatype Weight = Weight(refTime: nat, proofSize: nat)

  predicate AllLte(a: Weight, b: Weight) {
    a.refTime <= b.refTime && a.proofSize <= b.proofSize
  }

  /** What the pallet needs to know of a proposal: its hash, its encoded length and its dispatch weight. */
  datatype Proposal = Proposal(hash: Hash, len: U32, weight: Weight)

  /** Whose votes count: the collective's own members, or the Senate that the runtime wires in. */
  datatype Electorate = CollectiveMembers | Senate

  datatype Config = Config(maxProposals: U32, motionDuration: U32, strategy: Strategy,
                           electorate: Electorate, senateMax: U32)

  datatype Error =
    | NotMember
    | DuplicateProposal
    | ProposalNotExists
    | IndexMismatchProposalHash
    | DuplicateVote
    | TooEarlyToCloseProposal
    | TooManyActiveProposals
    | ProposalWeightLessThanDispatchCallWeight
    | ProposalLengthBoundLessThanProposalLength
    | DurationLowerThanConfiguredMotionDuration
    | NotSenateMember
    | AlreadyMember
    | TooManyMembers

  /** The events the pallet deposits, with the data they were decided on.
      `Removed` and `Purged` are book-keeping for two storage changes the pallet makes silently. */
  datatype Entry =
    | Proposed(proposal: Proposal, index: U32, threshold: U32, seats: U32, at: U32, duration: U32)
    | Voted(hash: Hash, index: U32, who: Account, approve: bool, yes: U32, no: U32)
    | Closed(hash: Hash, index: U32, verdict: Verdict, seats: U32, at: U32)
    | Approved(hash: Hash, index: U32, yes: U32, seats: U32)
    | Disapproved(hash: Hash)
    | Executed(hash: Hash, index: U32, ok: bool)
    | Removed(hash: Hash, index: U32)
    | Purged(accounts: set<Account>)

  /** The pallet's storage, the block number, the Senate's membership and the event log. */
  datatype World = World(
    proposals: seq<Hash>,
    proposalOf: map<Hash, Proposal>,
    voting: map<Hash, Votes>,
    proposalCount: U32,
    members: seq<Account>,
    prime: Option<Account>,
    now: U32,
    senate: set<Account>,
    log: seq<Entry>)

  /** The calls that reach the pallet, directly or through the runtime's governance wiring. */
  datatype Call =
    | Propose(who: Account, proposal: Proposal, lengthBound: U32, duration: U32)
    | CastAsMember(who: Account, hash: Hash, index: U32, approve: bool)   // the `vote` extrinsic, behind CanVote
    | CastAsSenator(who: Account, hash: Hash, index: U32, approve: bool)  // do_vote_root, through `add_vote`
    | Close(hash: Hash, index: U32, weightBound: Weight, lengthBound: U32, dispatch: Dispatch)
    | DisapproveProposal(hash: Hash)
    | SetMembers(outgoing: seq<Account>, new_: seq<Account>, prime: Option<Account>)  // outgoing: FRAME's diff
    | ChangeMembers(outgoing: seq<Account>, new_: seq<Account>)           // the ChangeMembers hook
    | SetPrime(prime: Option<Account>)
    | AddSenator(who: Account)
    | SwapSenator(leaver: Account, joiner: Account)                       // remove_votes, then swap_member
    | RetireSenator(who: Account)                                         // remove_votes, then remove_member
    | DropSenator(who: Account)                                           // remove_member alone
    | Advance(blocks: U32)                                                // later blocks

  /** What dispatching an approved proposal does: any calls at all; they are undone when it fails. */
  datatype Dispatch = Dispatch(succeeds: bool, calls: seq<Call>)

  datatype Outcome = Done | Cast(first: bool) | Concluded(verdict: Verdict) | Failed(error: Error)

  /** `GetVotingMembers::get_count`. */
  function Seats(cfg: Config, w: World): U32 {
    AsU32(match cfg.electorate case CollectiveMembers => |w.members| case Senate => |w.senate|)
  }

  function Announce(w: World, e: Entry): World {
    w.(log := w.log + [e])
  }

  // ----- proposing

  /** The storage writes of a successful `do_propose_proposed`. */
  function OpenMotion(w: World, proposal: Proposal, threshold: U32, seats: U32, duration: U32): World
    requires w.proposalCount < U32_MAX
  {
    var votes := Votes(w.proposalCount, threshold, [], [], SatAdd(w.now, duration));
    Announce(w.(proposals := w.proposals + [proposal.hash],
                proposalOf := w.proposalOf[proposal.hash := proposal],
                voting := w.voting[proposal.hash := votes],
                proposalCount := w.proposalCount + 1),
             Proposed(proposal, w.proposalCount, threshold, seats, w.now, duration))
  }

  /** The checks of `do_propose_proposed`, in its order. */
  function ProposeProposedError(cfg: Config, w: World, proposal: Proposal, lengthBound: U32): Option<Error> {
    if proposal.len > lengthBound then Some(ProposalLengthBoundLessThanProposalLength)
    else if proposal.hash in w.proposalOf then Some(DuplicateProposal)
    else if |w.proposals| >= cfg.maxProposals then Some(TooManyActiveProposals)
    else if w.proposalCount == U32_MAX then Some(TooManyActiveProposals)
    else None
  }

  function ProposeError(cfg: Config, w: World, who: Account, proposal: Proposal,
                        lengthBound: U32, duration: U32): Option<Error> {
    if who !in w.members then Some(NotMember)
    else if duration < cfg.motionDuration then Some(DurationLowerThanConfiguredMotionDuration)
    else ProposeProposedError(cfg, w, proposal, lengthBound)
  }

  // ----- voting

  function LookupMotion(w: World, hash: Hash, index: U32): Result<Votes, Error> {
    if hash !in w.voting then Failure(ProposalNotExists)
    else if w.voting[hash].index != index then Failure(IndexMismatchProposalHash)
    else Success(w.voting[hash])
  }

  function DoVote(w: World, who: Account, hash: Hash, index: U32, approve: bool): Result<World, Error> {
    match LookupMotion(w, hash, index)
    case Failure(e) => Failure(e)
    case Success(v) =>
      match CastVote(v, who, approve)
      case None => Failure(DuplicateVote)
      case Some(v') =>
        Success(Announce(w.(voting := w.voting[hash := v']),
                         Voted(hash, index, who, approve, TallyOf(v').yes, TallyOf(v').no)))
  }

  function QueryVoted(w: World, hash: Hash, index: U32, who: Account): Result<bool, Error> {
    match LookupMotion(w, hash, index)
    case Failure(e) => Failure(e)
    case Success(v) => Success(HasVoted(v, who))
  }

  // ----- closing

  function ValidateAndGetProposal(w: World, hash: Hash,
                                  lengthBound: U32, weightBound: Weight): Result<Proposal, Error> {
    if hash !in w.proposalOf then Failure(ProposalNotExists)
    else if w.proposalOf[hash].len > lengthBound then Failure(ProposalLengthBoundLessThanProposalLength)
    else if !AllLte(w.proposalOf[hash].weight, weightBound) then Failure(ProposalWeightLessThanDispatchCallWeight)
    else Success(w.proposalOf[hash])
  }

  /** Everything `do_close` decides before it writes. */
  function CloseVerdict(cfg: Config, w: World, hash: Hash, index: U32,
                        weightBound: Weight, lengthBound: U32): Result<Verdict, Error> {
    match LookupMotion(w, hash, index)
    case Failure(e) => Failure(e)
    case Success(v) =>
      match Decide(cfg.strategy, v, Seats(cfg, w), w.prime, w.now)
      case None => Failure(TooEarlyToCloseProposal)
      case Some(verdict) =>
        if !verdict.approved then Success(verdict)
        else match ValidateAndGetProposal(w, hash, lengthBound, weightBound)
          case Failure(e) => Failure(e)
          case Success(_) => Success(verdict)
  }

  /** The events before an approved proposal is dispatched, or a disapproved one dropped. */
  function AnnounceVerdict(cfg: Config, w: World, hash: Hash, index: U32, verdict: Verdict): World {
    var closed := Announce(w, Closed(hash, index, verdict, Seats(cfg, w), w.now));
    if verdict.approved then Announce(closed, Approved(hash, index, verdict.tally.yes, Seats(cfg, w))) else closed
  }

  function RemoveProposal(w: World, hash: Hash): World {
    var w' := w.(proposalOf := w.proposalOf - {hash},
                 voting := w.voting - {hash},
                 proposals := Without(w.proposals, {hash}));
    if hash in w.voting then Announce(w', Removed(hash, w.voting[hash].index)) else w'
  }

  // ----- purging and membership

  /** Drops the votes of `out` from every motion listed in `proposals`. */
  function PurgeVotes(w: World, out: set<Account>): World {
    Announce(w.(voting := map h | h in w.voting ::
                            if h in w.proposals then Purge(w.voting[h], out) else w.voting[h]),
             Purged(out))
  }

  function RemoveVotes(w: World, who: Account): World {
    PurgeVotes(w, {who})
  }

  function ChangeMembersSorted(w: World, outgoing: seq<Account>, new_: seq<Account>): World {
    PurgeVotes(w, Elems(outgoing)).(members := new_, prime := None)
  }

  // ----- the interpreter

  function Settle(w: World, r: Result<World, Error>, done: Outcome): (World, Outcome) {
    match r case Failure(e) => (w, Failed(e)) case Success(w') => (w', done)
  }

  function FirstVote(w: World, who: Account, hash: Hash): bool {
    hash in w.voting && !HasVoted(w.voting[hash], who)
  }

  /** One call: the new storage and the outcome. A failing call leaves the storage as it was. */
  function Exec(cfg: Config, w: World, c: Call): (World, Outcome)
    decreases c, 0
  {
    match c
    case Propose(who, proposal, lengthBound, duration) =>
      (match ProposeError(cfg, w, who, proposal, lengthBound, duration)
       case Some(e) => (w, Failed(e))
       case None => (OpenMotion(w, proposal, SatAdd(Seats(cfg, w) / 2, 1), Seats(cfg, w), duration), Done))
    case CastAsMember(who, hash, index, approve) =>
      if cfg.electorate.Senate? || who !in w.members then (w, Failed(NotMember))
      else Settle(w, DoVote(w, who, hash, index, approve), Cast(FirstVote(w, who, hash)))
    case CastAsSenator(who, hash, index, approve) =>
      if cfg.electorate.CollectiveMembers? || who !in w.senate then (w, Failed(NotSenateMember))
      else Settle(w, DoVote(w, who, hash, index, approve), Cast(FirstVote(w, who, hash)))
    case Close(hash, index, weightBound, lengthBound, dispatch) =>
      (match CloseVerdict(cfg, w, hash, index, weightBound, lengthBound)
       case Failure(e) => (w, Failed(e))
       case Success(verdict) =>
         var closed := AnnounceVerdict(cfg, w, hash, index, verdict);
         var dispatched :=
           if verdict.approved && dispatch.succeeds then ExecAll(cfg, closed, dispatch.calls) else closed;
         var concluded := Announce(dispatched,
           if verdict.approved then Executed(hash, index, dispatch.succeeds) else Disapproved(hash));
         (RemoveProposal(concluded, hash), Concluded(verdict)))
    case DisapproveProposal(hash) => (RemoveProposal(Announce(w, Disapproved(hash)), hash), Done)
    case SetMembers(outgoing, new_, prime) => (ChangeMembersSorted(w, outgoing, Sort(new_)).(prime := prime), Done)
    case ChangeMembers(outgoing, new_) => (ChangeMembersSorted(w, outgoing, new_), Done)
    case SetPrime(prime) => (w.(prime := prime), Done)
    case AddSenator(who) =>
      if who in w.senate then (w, Failed(AlreadyMember))
      else if |w.senate| >= cfg.senateMax then (w, Failed(TooManyMembers))
      else (w.(senate := w.senate + {who}), Done)
    case SwapSenator(leaver, joiner) =>
      var purged := RemoveVotes(w, leaver);
      if leaver == joiner then (purged, Done)
      else if leaver !in w.senate then (w, Failed(NotMember))
      else if joiner in w.senate then (w, Failed(AlreadyMember))
      else (purged.(senate := w.senate - {leaver} + {joiner}), Done)
    case RetireSenator(who) =>
      if who !in w.senate then (w, Failed(NotMember))
      else (RemoveVotes(w, who).(senate := w.senate - {who}), Done)
    case DropSenator(who) =>
      if who !in w.senate then (w, Failed(NotMember))
      else (w.(senate := w.senate - {who}), Done)
    case Advance(blocks) => (w.(now := SatAdd(w.now, blocks)), Done)
  }

  function ExecAll(cfg: Config, w: World, calls: seq<Call>): World
    decreases calls, 1
  {
    if |calls| == 0 then w
    else ExecAll(cfg, Exec(cfg, w, calls[0]).0, calls[1..])
  }

  lemma {:induction false} RunInParts(cfg: Config, w: World, a: seq<Call>, b: seq<Call>)
    ensures ExecAll(cfg, w, a + b) == ExecAll(cfg, ExecAll(cfg, w, a), b)
    decreases |a|
  {
    if |a| == 0 {
      assert a + b == b;
    } else {
      assert (a + b)[1..] == a[1..] + b;
      RunInParts(cfg, Exec(cfg, w, a[0]).0, a[1..], b);
    }
  }

  lemma RunOne(cfg: Config, w: World, c: Call)
    ensures ExecAll(cfg, w, [c]) == Exec(cfg, w, c).0
  {
    assert [c][1..] == [];
  }

  /** The storage before the first proposal. */
  predicate Genesis(cfg: Config, w: World) {
    && w.proposals == [] && w.proposalOf == map[] && w.voting == map[]
    && w.proposalCount == 0 && w.log == [] && |w.senate| <= cfg.senateMax
  }
}
