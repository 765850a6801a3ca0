/** One motion's votes: two vectors that refine a map from accounts to their last vote. */
module Motions {
  import opened Words
  import opened Vectors

  type Account = nat

  datatype Votes = Votes(index: U32, threshold: U32, ayes: seq<Account>, nays: seq<Account>, end: U32)

  type Ballot = map<Account, bool>

  /** Every voter stands in exactly one of the two vectors, once. */
  ghost predicate WellFormed(v: Votes) {
    NoDup(v.ayes) && NoDup(v.nays) && Elems(v.ayes) !! Elems(v.nays)
  }

  /** The abstract value of the vectors. */
  ghost function BallotOf(v: Votes): Ballot {
    map a | a in Elems(v.ayes) + Elems(v.nays) :: a in v.ayes
  }

  ghost function Vote(b: Ballot, who: Account): Option<bool> {
    if who in b then Some(b[who]) else None
  }

  ghost function Supporters(b: Ballot): set<Account> {
    set a | a in b && b[a]
  }

  ghost function Opponents(b: Ballot): set<Account> {
    set a | a in b && !b[a]
  }

  /** The vector updates of `do_vote`; `None` is its DuplicateVote error. */
  function CastVote(v: Votes, who: Account, approve: bool): Option<Votes> {
    var positionYes, positionNo := Position(v.ayes, who), Position(v.nays, who);
    if approve then
      if positionYes.Some? then None
      else Some(v.(ayes := v.ayes + [who],
                   nays := if positionNo.Some? then SwapRemove(v.nays, positionNo.value) else v.nays))
    else
      if positionNo.Some? then None
      else Some(v.(nays := v.nays + [who],
                   ayes := if positionYes.Some? then SwapRemove(v.ayes, positionYes.value) else v.ayes))
  }

  /** What `do_vote` reports as the account's first vote, and `has_voted` denies. */
  predicate HasVoted(v: Votes, who: Account) {
    Position(v.ayes, who).Some? || Position(v.nays, who).Some?
  }

  /** One motion after `retain` has dropped the votes of `out`. */
  function Purge(v: Votes, out: set<Account>): Votes {
    v.(ayes := Without(v.ayes, out), nays := Without(v.nays, out))
  }

  /** The vectors answer membership exactly as the map does. */
  lemma HasVotedIsMembership(v: Votes, who: Account)
    ensures HasVoted(v, who) <==> who in BallotOf(v)
  {
  }

  /** The vector lengths are the map's tallies. */
  lemma TalliesCountVoters(v: Votes)
    requires WellFormed(v)
    ensures |v.ayes| == |Supporters(BallotOf(v))|
    ensures |v.nays| == |Opponents(BallotOf(v))|
    ensures |v.ayes| + |v.nays| == |BallotOf(v).Keys|
  {
    var b := BallotOf(v);
    ElemsCard(v.ayes);
    ElemsCard(v.nays);
    assert Supporters(b) == Elems(v.ayes);
    assert Opponents(b) == Elems(v.nays);
    assert b.Keys == Elems(v.ayes) + Elems(v.nays);
  }

  lemma MoveVote(to: seq<Account>, from: seq<Account>, who: Account)
    requires NoDup(to) && NoDup(from) && Elems(to) !! Elems(from) && who !in to
    ensures var from' := if who in from then SwapRemove(from, Position(from, who).value) else from;
            && NoDup(to + [who]) && NoDup(from')
            && Elems(to + [who]) == Elems(to) + {who}
            && Elems(from') == Elems(from) - {who}
  {
    if who in from { SwapRemoveDropsOne(from, Position(from, who).value); }
  }

  /** `who` joins `to` at its end; if it stood in `from`, the last of `from` takes its place there. */
  ghost predicate Moved(to: seq<Account>, to': seq<Account>, from: seq<Account>, from': seq<Account>, who: Account) {
    && to' == to + [who]
    && (who !in from ==> from' == from)
    && (who in from ==> exists p: nat :: p < |from| && from[p] == who && LastMovedTo(from, from', p))
  }

  /** How `do_vote` orders the two vectors. */
  lemma CastVoteOrder(v: Votes, who: Account, approve: bool)
    requires WellFormed(v) && CastVote(v, who, approve).Some?
    ensures var v' := CastVote(v, who, approve).value;
            if approve then Moved(v.ayes, v'.ayes, v.nays, v'.nays, who)
            else Moved(v.nays, v'.nays, v.ayes, v'.ayes, who)
  {
    var from := if approve then v.nays else v.ayes;
    if who in from {
      var p := Position(from, who).value;
      SwapRemoveDropsOne(from, p);
    }
  }

  lemma SameBallot(v: Votes, b: Ballot)
    requires WellFormed(v)
    requires Elems(v.ayes) == Supporters(b) && Elems(v.nays) == Opponents(b)
    ensures BallotOf(v) == b
  {
    assert b.Keys == Supporters(b) + Opponents(b);
    forall a | a in b ensures BallotOf(v)[a] == b[a] {
      assert a in v.ayes <==> a in Elems(v.ayes);
    }
  }

  lemma BallotSides(v: Votes)
    requires WellFormed(v)
    ensures Supporters(BallotOf(v)) == Elems(v.ayes) && Opponents(BallotOf(v)) == Elems(v.nays)
  {
  }

  /** `do_vote` on the vectors is one update of the map, and a duplicate is a vote the map already holds. */
  lemma CastVoteRefinesMap(v: Votes, who: Account, approve: bool)
    requires WellFormed(v)
    ensures CastVote(v, who, approve).None? <==> Vote(BallotOf(v), who) == Some(approve)
    ensures CastVote(v, who, approve).Some? ==>
              var v' := CastVote(v, who, approve).value;
              && WellFormed(v')
              && BallotOf(v') == BallotOf(v)[who := approve]
              && (v'.index, v'.threshold, v'.end) == (v.index, v.threshold, v.end)
  {
    var r := CastVote(v, who, approve);
    if r.Some? {
      var b := BallotOf(v);
      BallotSides(v);
      if approve {
        MoveVote(v.ayes, v.nays, who);
        assert Supporters(b[who := true]) == Supporters(b) + {who};
        assert Opponents(b[who := true]) == Opponents(b) - {who};
      } else {
        MoveVote(v.nays, v.ayes, who);
        assert Supporters(b[who := false]) == Supporters(b) - {who};
        assert Opponents(b[who := false]) == Opponents(b) + {who};
      }
      SameBallot(r.value, b[who := approve]);
    }
  }

  /** The purge removes exactly `out` from the map and keeps everything else of the motion. */
  lemma PurgeRefinesMap(v: Votes, out: set<Account>)
    requires WellFormed(v)
    ensures WellFormed(Purge(v, out))
    ensures BallotOf(Purge(v, out)) == BallotOf(v) - out
  {
    var v' := Purge(v, out);
    WithoutElems(v.ayes, out);
    WithoutElems(v.nays, out);
    assert forall a :: a in v'.ayes <==> a in Elems(v'.ayes);
    assert BallotOf(v') == BallotOf(v) - out;
  }
}
