/** How `do_close` turns a tally into a verdict: early approval, early disapproval, timed close. */
module Decisions {
  import opened Words
  import opened Motions

  /** The two `DefaultVote` implementations. */
  datatype Strategy = PrimeDefaultVote | MoreThanMajorityThenPrimeDefaultVote

  datatype Tally = Tally(yes: U32, no: U32)

  function DefaultVote(strategy: Strategy, primeVote: Option<bool>, yes: U32, len: U32): bool {
    var prime := primeVote.Some? && primeVote.value;
    match strategy
    case PrimeDefaultVote => prime
    case MoreThanMajorityThenPrimeDefaultVote => SatMul(yes, 2) > len || prime
  }

  predicate EarlyApproved(t: Tally, threshold: U32) {
    t.yes >= threshold
  }

  predicate EarlyDisapproved(t: Tally, seats: U32, threshold: U32) {
    SatSub(seats, t.no) < threshold
  }

  /** The abstentions counted on the side of the default vote. */
  function Fill(t: Tally, seats: U32, default: bool): Tally {
    var abstentions := SatSub(seats, SatAdd(t.yes, t.no));
    if default then t.(yes := SatAdd(t.yes, abstentions)) else t.(no := SatAdd(t.no, abstentions))
  }

  datatype Verdict = Verdict(approved: bool, timed: bool, tally: Tally)

  function TallyOf(v: Votes): Tally {
    Tally(AsU32(|v.ayes|), AsU32(|v.nays|))
  }

  function PrimeVote(v: Votes, prime: Option<Account>): Option<bool> {
    if prime.Some? then Some(prime.value in v.ayes) else None
  }

  /** The verdict `do_close` reaches; `None` is TooEarlyToCloseProposal. */
  function Decide(strategy: Strategy, v: Votes, seats: U32, prime: Option<Account>, now: U32): Option<Verdict> {
    var t := TallyOf(v);
    if EarlyApproved(t, v.threshold) then Some(Verdict(true, false, t))
    else if EarlyDisapproved(t, seats, v.threshold) then Some(Verdict(false, false, t))
    else if now < v.end then None
    else
      var default := DefaultVote(strategy, PrimeVote(v, prime), t.yes, seats);
      var filled := Fill(t, seats, default);
      Some(Verdict(filled.yes >= v.threshold, true, filled))
  }

  // ----- early closing

  /** A way the seats that have not voted yet could still vote. */
  predicate Completes(t: Tally, seats: U32, final: Tally) {
    t.yes <= final.yes && t.no <= final.no && final.yes + final.no == seats
  }

  /** Closing early is allowed exactly when the outstanding votes can no longer change the outcome. */
  lemma EarlyExactlyWhenDecided(t: Tally, seats: U32, threshold: U32)
    requires t.yes + t.no <= seats
    ensures EarlyApproved(t, threshold) <==> forall f :: Completes(t, seats, f) ==> f.yes >= threshold
    ensures EarlyDisapproved(t, seats, threshold) <==> forall f :: Completes(t, seats, f) ==> f.yes < threshold
  {
    assert Completes(t, seats, Tally(t.yes, seats - t.yes));
    assert Completes(t, seats, Tally(seats - t.no, t.no));
  }

  /** Some threshold meets both early conditions exactly when an aye stands among more votes than seats. */
  lemma EarlyExclusive(t: Tally, seats: U32)
    ensures (exists th: U32 :: EarlyApproved(t, th) && EarlyDisapproved(t, seats, th))
       <==> t.yes > 0 && t.yes + t.no > seats
  {
    if t.yes > 0 && t.yes + t.no > seats {
      assert EarlyApproved(t, t.yes) && EarlyDisapproved(t, seats, t.yes);
    }
  }

  /** The early verdict is the one the timed computation gives on the same tally, whatever the default. */
  lemma EarlyAgreesWithTimed(t: Tally, seats: U32, threshold: U32, default: bool)
    ensures EarlyApproved(t, threshold) ==> Fill(t, seats, default).yes >= threshold
    ensures !EarlyApproved(t, threshold) && EarlyDisapproved(t, seats, threshold) ==>
              Fill(t, seats, default).yes < threshold
  {
  }

  // ----- timed closing

  /** A tally that reaches the timed path. */
  predicate Undecided(t: Tally, seats: U32, threshold: U32) {
    !EarlyApproved(t, threshold) && !EarlyDisapproved(t, seats, threshold)
  }

  /** The timed path leaves an abstention to fill, fills all of them, and obeys the default vote. */
  lemma TimedPathFollowsDefault(t: Tally, seats: U32, threshold: U32, default: bool)
    requires Undecided(t, seats, threshold)
    ensures t.yes + t.no < seats
    ensures Fill(t, seats, default).yes + Fill(t, seats, default).no == seats
    ensures Fill(t, seats, default).yes >= threshold <==> default
    ensures if default then Fill(t, seats, default).no == t.no else Fill(t, seats, default).yes == t.yes
  {
  }

  /** The two default-vote strategies agree on every tally that reaches the timed path
      exactly when one aye fewer than the threshold is no majority of the seats,
      or no tally reaches it (threshold above the seats), or saturation hides every majority (2^32 - 1 seats). */
  lemma StrategiesAgreeExactly(threshold: U32, seats: U32)
    requires threshold > 0
    ensures (forall t, prime :: Undecided(t, seats, threshold) ==>
               DefaultVote(PrimeDefaultVote, prime, t.yes, seats)
               == DefaultVote(MoreThanMajorityThenPrimeDefaultVote, prime, t.yes, seats))
       <==> 2 * (threshold - 1) <= seats || seats < threshold || seats == U32_MAX
  {
    if 2 * (threshold - 1) > seats && seats >= threshold && seats < U32_MAX {
      var t := Tally(threshold - 1, 0);
      assert Undecided(t, seats, threshold);
      assert DefaultVote(MoreThanMajorityThenPrimeDefaultVote, None, t.yes, seats);
      assert !DefaultVote(PrimeDefaultVote, None, t.yes, seats);
    }
  }

  /** So a motion opened with at most as many seats is decided alike under both. */
  lemma StrategiesCoincide(v: Votes, proposalSeats: U32, seats: U32, prime: Option<Account>, now: U32)
    requires v.threshold == proposalSeats / 2 + 1 && proposalSeats <= seats
    ensures Decide(PrimeDefaultVote, v, seats, prime, now)
         == Decide(MoreThanMajorityThenPrimeDefaultVote, v, seats, prime, now)
  {
    StrategiesAgreeExactly(v.threshold, seats);
    if Undecided(TallyOf(v), seats, v.threshold) {
      assert DefaultVote(PrimeDefaultVote, PrimeVote(v, prime), TallyOf(v).yes, seats)
          == DefaultVote(MoreThanMajorityThenPrimeDefaultVote, PrimeVote(v, prime), TallyOf(v).yes, seats);
    }
  }
}
