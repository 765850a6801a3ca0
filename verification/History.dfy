/** What the event log says on its own: the motions it leaves open, and whether it is one the pallet may produce. */
module History {
  import opened Words
  import opened Motions
  import opened Decisions
  import opened Collective

  /** A motion as the log tells it: how it was opened, and the last standing vote of every account. */
  datatype Motion = Motion(proposal: Proposal, index: U32, threshold: U32, seats: U32, at: U32, duration: U32,
                           ballot: Ballot)

  function End(m: Motion): U32 {
    SatAdd(m.at, m.duration)
  }

  ghost function ReplayStep(m: Option<Motion>, e: Entry, h: Hash): Option<Motion> {
    match e
    case Proposed(proposal, index, threshold, seats, at, duration) =>
      if proposal.hash == h then Some(Motion(proposal, index, threshold, seats, at, duration, map[])) else m
    case Voted(hash, _, who, approve, _, _) =>
      if hash == h && m.Some? then Some(m.value.(ballot := m.value.ballot[who := approve])) else m
    case Removed(hash, _) => if hash == h then None else m
    case Purged(accounts) =>
      if m.Some? then Some(m.value.(ballot := m.value.ballot - accounts)) else m
    case _ => m
  }

  /** The motion open under `h` after the log, rebuilt from the log alone. */
  ghost function Replay(log: seq<Entry>, h: Hash): Option<Motion> {
    if |log| == 0 then None
    else ReplayStep(Replay(log[..|log| - 1], h), log[|log| - 1], h)
  }

  /** `who`'s last vote on `h` that nothing since has taken back, found by reading the log backwards. */
  ghost function LastWord(log: seq<Entry>, h: Hash, who: Account): Option<bool> {
    if |log| == 0 then None
    else match log[|log| - 1]
      case Voted(hash, _, account, approve, _, _) =>
        if hash == h && account == who then Some(approve) else LastWord(log[..|log| - 1], h, who)
      case Proposed(proposal, _, _, _, _, _) =>
        if proposal.hash == h then None else LastWord(log[..|log| - 1], h, who)
      case Removed(hash, _) =>
        if hash == h then None else LastWord(log[..|log| - 1], h, who)
      case Purged(accounts) =>
        if who in accounts then None else LastWord(log[..|log| - 1], h, who)
      case _ => LastWord(log[..|log| - 1], h, who)
  }

  datatype Kind = Openings | Approvals | Removals

  /** The motion indices of all entries of one kind, in order. */
  function Indices(log: seq<Entry>, kind: Kind): seq<U32> {
    if |log| == 0 then []
    else Indices(log[..|log| - 1], kind) + EntryIndex(log[|log| - 1], kind)
  }

  function EntryIndex(e: Entry, kind: Kind): seq<U32> {
    match kind
    case Openings => if e.Proposed? then [e.index] else []
    case Approvals => if e.Approved? then [e.index] else []
    case Removals => if e.Removed? then [e.index] else []
  }

  ghost function Count(b: Ballot): Tally {
    Tally(AsU32(|Supporters(b)|), AsU32(|Opponents(b)|))
  }

  /** Whether `e` may follow `past`. */
  ghost predicate EntryOk(cfg: Config, past: seq<Entry>, e: Entry) {
    match e
    case Proposed(proposal, index, threshold, seats, _, duration) =>
      && index == |Indices(past, Openings)| && Replay(past, proposal.hash).None?
      && threshold == seats / 2 + 1 && duration >= cfg.motionDuration
    case Voted(hash, index, who, approve, yes, no) =>
      var m := Replay(past, hash);
      && m.Some? && m.value.index == index && Vote(m.value.ballot, who) != Some(approve)
      && Tally(yes, no) == Count(m.value.ballot[who := approve])
    case Closed(hash, index, verdict, seats, at) =>
      var m := Replay(past, hash);
      && m.Some? && m.value.index == index && m.value.at <= at
      && ClosedOk(m.value, verdict, seats, at)
    case Approved(hash, index, yes, seats) =>
      && |past| > 0 && past[|past| - 1].Closed?
      && var c := past[|past| - 1];
         c.hash == hash && c.index == index && c.seats == seats && c.verdict.approved && c.verdict.tally.yes == yes
    case Removed(hash, index) => Replay(past, hash).Some? && Replay(past, hash).value.index == index
    case _ => true
  }

  /** A verdict consistent with the standing votes of the motion it closes. */
  ghost predicate ClosedOk(m: Motion, verdict: Verdict, seats: U32, at: U32) {
    var raw := Count(m.ballot);
    && (verdict.approved <==> verdict.tally.yes >= m.threshold)
    && (!verdict.timed ==> verdict.tally == raw)
    && (!verdict.timed && !verdict.approved ==> raw.no + m.threshold > seats)
    && (verdict.timed ==>
          at >= End(m) && raw.yes < m.threshold && raw.yes + raw.no < seats && Filled(raw, verdict, seats))
  }

  /** The abstentions stand with the side the default vote took: the ayes if approved, otherwise the nays. */
  ghost predicate Filled(raw: Tally, verdict: Verdict, seats: U32) {
    && verdict.tally.yes + verdict.tally.no == seats
    && (verdict.approved ==> verdict.tally.no == raw.no)
    && (!verdict.approved ==> verdict.tally.yes == raw.yes)
  }

  /** Whether a motion passes, from its standing votes: by its ayes alone, or, while its nays leave room for the
      threshold, by the default vote. */
  ghost predicate Passes(strategy: Strategy, m: Motion, seats: U32, primeAye: bool) {
    var raw := Count(m.ballot);
    || raw.yes >= m.threshold
    || (&& raw.no + m.threshold <= seats
        && (primeAye || (strategy == MoreThanMajorityThenPrimeDefaultVote && 2 * raw.yes > seats && seats < U32_MAX)))
  }

  /** Whether a motion may be closed: its ayes or its nays have settled it, or its time is up. */
  ghost predicate Closable(m: Motion, seats: U32, now: U32) {
    var raw := Count(m.ballot);
    raw.yes >= m.threshold || raw.no + m.threshold > seats || now >= End(m)
  }

  /** Every entry may follow the ones before it. */
  ghost predicate Audit(cfg: Config, log: seq<Entry>) {
    |log| == 0 || (Audit(cfg, log[..|log| - 1]) && EntryOk(cfg, log[..|log| - 1], log[|log| - 1]))
  }

  // ----- reading a log that grew by one entry

  lemma Grow(cfg: Config, log: seq<Entry>, e: Entry)
    ensures forall h :: Replay(log + [e], h) == ReplayStep(Replay(log, h), e, h)
    ensures forall kind :: Indices(log + [e], kind) == Indices(log, kind) + EntryIndex(e, kind)
    ensures Audit(cfg, log + [e]) <==> Audit(cfg, log) && EntryOk(cfg, log, e)
  {
    assert (log + [e])[..|log|] == log;
  }

  /** The replayed ballot holds exactly each account's last word. */
  lemma {:induction false} ReplayIsLastWord(log: seq<Entry>, h: Hash, who: Account)
    ensures Replay(log, h).Some? ==> Vote(Replay(log, h).value.ballot, who) == LastWord(log, h, who)
  {
    if |log| > 0 {
      ReplayIsLastWord(log[..|log| - 1], h, who);
    }
  }

  lemma {:induction false} AuditPrefix(cfg: Config, log: seq<Entry>, k: nat)
    requires Audit(cfg, log) && k < |log|
    ensures Audit(cfg, log[..k]) && EntryOk(cfg, log[..k], log[k])
  {
    if k < |log| - 1 {
      AuditPrefix(cfg, log[..|log| - 1], k);
      assert log[..|log| - 1][..k] == log[..k];
    }
  }

  /** An audited log opens every motion with a strict-majority threshold and at least the configured duration. */
  lemma {:induction false} ReplayOpening(cfg: Config, log: seq<Entry>, h: Hash)
    requires Audit(cfg, log)
    ensures Replay(log, h).Some? ==>
              var m := Replay(log, h).value;
              m.threshold == m.seats / 2 + 1 && m.duration >= cfg.motionDuration
  {
    if |log| > 0 {
      ReplayOpening(cfg, log[..|log| - 1], h);
    }
  }
}
