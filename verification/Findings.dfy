/** Concrete runs of the runtime's configuration that show where the conditions of the general theorems are needed. */
module Findings {
  import opened Words
  import opened Vectors
  import opened Motions
  import opened Decisions
  import opened Collective
  import opened History
  import Governance
  import Origins

  const DURATION := 3600  // 12 hours of 12-second blocks
  const CFG := Config(10, DURATION, PrimeDefaultVote, Senate, 12)
  const MOTION := Proposal(5, 1, Weight(1, 1))
  const START := World([], map[], map[], 0, [1], None, 0, {7}, [])
  const PROPOSE := Propose(1, MOTION, 1, DURATION)
  const AYE := CastAsSenator(7, 5, 0, true)

  function CloseWith(calls: seq<Call>): Call {
    Close(5, 0, Weight(1, 1), 1, Dispatch(true, calls))
  }

  /** The one senator has voted aye on motion 0. */
  function Polled(): World {
    World([5], map[5 := MOTION], map[5 := Votes(0, 1, [7], [], DURATION)], 1, [1], None, 0, {7},
          [Proposed(MOTION, 0, 1, 1, 0, DURATION), Voted(5, 0, 7, true, 1, 0)])
  }

  lemma OpenAndPoll()
    ensures ExecAll(CFG, START, [PROPOSE, AYE]) == Polled()
  {
    var w1 := OpenMotion(START, MOTION, 1, 1, DURATION);
    assert Exec(CFG, START, PROPOSE).0 == w1;
    assert w1.voting[5] == Votes(0, 1, [], [], DURATION);
    var none: seq<Account> := [];
    assert Position(none, 7) == None && none + [7] == [7];
    assert CastVote(w1.voting[5], 7, true) == Some(Votes(0, 1, [7], [], DURATION));
    var w2 := DoVote(w1, 7, 5, 0, true).value;
    assert w2.voting == Polled().voting && w2.log == Polled().log;
    assert w1.proposals == [5] && w1.proposalOf == Polled().proposalOf;
    assert Exec(CFG, w1, AYE).0 == Polled();
    assert [PROPOSE, AYE] == [PROPOSE] + [AYE];
    RunInParts(CFG, START, [PROPOSE], [AYE]);
    RunOne(CFG, START, PROPOSE);
    RunOne(CFG, w1, AYE);
  }

  /** Removing a senator directly leaves a vote of an account that is no senator. */
  lemma DirectRemovalLeavesVote()
    ensures Genesis(CFG, START)
    ensures !Governance.VotersOnRoll(CFG, ExecAll(CFG, START, [PROPOSE, AYE] + [DropSenator(7)]))
  {
    OpenAndPoll();
    RunInParts(CFG, START, [PROPOSE, AYE], [DropSenator(7)]);
    RunOne(CFG, Polled(), DropSenator(7));
    var w := Exec(CFG, Polled(), DropSenator(7)).0;
    assert 7 in BallotOf(w.voting[5]) by { assert 7 in w.voting[5].ayes; }
    assert 7 !in Governance.Roll(CFG, w);
  }

  const CARRIED := Verdict(true, false, Tally(1, 0))

  /** What closing the motion leaves in the log: the approval, then all its dispatch wrote. */
  lemma CloseLog(w: World, calls: seq<Call>)
    requires CloseVerdict(CFG, w, 5, 0, Weight(1, 1), 1) == Success(CARRIED)
    ensures var begun := AnnounceVerdict(CFG, w, 5, 0, CARRIED);
            && |begun.log| == |w.log| + 2 && w.log <= begun.log
            && begun.log[|w.log| + 1] == Approved(5, 0, 1, Seats(CFG, w))
            && ExecAll(CFG, begun, calls).log <= ExecAll(CFG, w, [CloseWith(calls)]).log
  {
    RunOne(CFG, w, CloseWith(calls));
  }

  /** A motion proposed to a Senate of one is dispatched by its one aye after the Senate has grown to two:
      an origin that the strict-majority gate rejects. */
  lemma GrownSenateDispatchesWithoutMajority()
    ensures var run := [PROPOSE, AYE] + [AddSenator(8)] + [CloseWith([])];
            Genesis(CFG, START) && Approved(5, 0, 1, 2) in ExecAll(CFG, START, run).log
    ensures !Origins.EnsureMajoritySenate(Origins.Members(1, 2))
  {
    OpenAndPoll();
    RunInParts(CFG, START, [PROPOSE, AYE], [AddSenator(8)]);
    RunInParts(CFG, START, [PROPOSE, AYE] + [AddSenator(8)], [CloseWith([])]);
    RunOne(CFG, Polled(), AddSenator(8));
    var grown := Polled().(senate := {7, 8});
    assert Exec(CFG, Polled(), AddSenator(8)).0 == grown;
    CloseLog(grown, []);
    assert Seats(CFG, grown) == 2;
    assert ExecAll(CFG, grown, [CloseWith([])]).log[3] == Approved(5, 0, 1, 2);
  }

  lemma PolledCarries()
    ensures CloseVerdict(CFG, Polled(), 5, 0, Weight(1, 1), 1) == Success(CARRIED)
  {
  }

  lemma NestedCloseApprovesTwice(w: World)
    requires CloseVerdict(CFG, w, 5, 0, Weight(1, 1), 1) == Success(CARRIED)
    ensures !NoDup(Indices(ExecAll(CFG, w, [CloseWith([CloseWith([])])]).log, Approvals))
  {
    var inner: seq<Call> := [CloseWith([])];
    var begun := AnnounceVerdict(CFG, w, 5, 0, CARRIED);
    CloseLog(w, inner);
    CloseLog(begun, []);
    var log := ExecAll(CFG, w, [CloseWith(inner)]).log;
    var first, second := |w.log| + 1, |begun.log| + 1;
    assert log[first] == begun.log[first] && log[second] == Approved(5, 0, 1, Seats(CFG, begun));
    TwoApprovals(log, first, second);
  }

  /** A dispatch that closes its own motion again dispatches it twice, because removal comes after dispatch. */
  lemma SelfCloseDispatchesTwice()
    ensures var run := [PROPOSE, AYE] + [CloseWith([CloseWith([])])];
            !NoDup(Indices(ExecAll(CFG, START, run).log, Approvals))
  {
    OpenAndPoll();
    PolledCarries();
    RunInParts(CFG, START, [PROPOSE, AYE], [CloseWith([CloseWith([])])]);
    NestedCloseApprovesTwice(Polled());
  }

  lemma {:induction false} ApprovalCounted(log: seq<Entry>, k: nat)
    requires k < |log| && log[k].Approved?
    ensures log[k].index in Indices(log, Approvals)
  {
    if k < |log| - 1 { ApprovalCounted(log[..|log| - 1], k); }
  }

  lemma {:induction false} TwoApprovals(log: seq<Entry>, j: nat, k: nat)
    requires j < k < |log| && log[j].Approved? && log[k].Approved? && log[j].index == log[k].index
    ensures !NoDup(Indices(log, Approvals))
  {
    var front := log[..|log| - 1];
    if k < |log| - 1 {
      TwoApprovals(front, j, k);
      var some, all := Indices(front, Approvals), Indices(log, Approvals);
      var a, b :| 0 <= a < b < |some| && some[a] == some[b];
      assert all[a] == all[b];
    } else {
      ApprovalCounted(front, j);
      var all := Indices(log, Approvals);
      var a :| 0 <= a < |Indices(front, Approvals)| && Indices(front, Approvals)[a] == log[j].index;
      assert all[a] == all[|all| - 1];
    }
  }
}
