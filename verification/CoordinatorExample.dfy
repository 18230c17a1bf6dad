/**
 A run with two things one would not expect. Caller 2 lists B. Caller 0 lists through the link L, which leads to A, and
 caller 1 lists A directly; both wait for the newer scan, of A, which times out. L is re-pointed to B, so caller 0 links
 that scan to the older one. Caller 1, retrying, inherits the scan of B and is refused, although A never moved.
 */
module CoordinatorExample {
  import opened Listing
  import opened Coordinator
  import opened CoordinatorLifecycle

  const A := Key("A", "")

  const B := Key("B", "")

  function Shares(scans: seq<Scan>, active: map<Key, nat>, finished: nat, link: string): Shared {
    Shared(scans, active, finished, map[], map[], map["A" := 0, "B" := 1], 2, map["L" := link])
  }

  /** Scan 0, the older one. */
  function OfB(waiters: int, phase: Phase): Scan { Scan(B, 1, 0, waiters, None, false, phase) }

  /** Scan 1. */
  function OfA(waiters: int, followup: Option<nat>, canceled: bool, phase: Phase): Scan {
    Scan(A, 0, 0, waiters, followup, canceled, phase)
  }

  function Lone(pc: Pc): map<nat, Caller> { map[2 := Caller(Progress, "B", "", None, [], pc)] }

  function Two(linked: Pc): map<nat, Caller> {
    map[2 := Caller(Progress, "B", "", None, [], Waiting(OLDER)), 0 := Caller(Progress, "L", "", None, [], linked)]
  }

  function All(linked: Pc, direct: Pc): map<nat, Caller> {
    map[2 := Caller(Progress, "B", "", None, [], Waiting(OLDER)), 0 := Caller(Progress, "L", "", None, [], linked),
        1 := Caller(Snapshot, "A", "", None, [], direct)]
  }

  const OLDER := Visit(B, 1, 0)

  const NEWER := Visit(A, 0, 1)

  const TIMED_OUT := Done(Broke(DeadlineExceeded), 0)

  const EXPIRED := Fault(DeadlineExceeded)

  const EVENTS := [
    Call(2, Progress, "B", ""), Step(2, Resolve), Step(2, Identify(None)), Join(2),
    Call(0, Progress, "L", ""), Step(0, Resolve), Step(0, Identify(None)), Join(0),
    Call(1, Snapshot, "A", ""), Step(1, Resolve), Step(1, Identify(None)), Join(1),
    Finish(1, Some(DeadlineExceeded)), Step(0, Wake), Step(0, ReadIdentity(None)), Leave(0),
    Step(0, Settle(false)), Step(0, Recheck), Step(0, Confirm(None)), World(Relink("L", "B")),
    Step(0, Resolve), Step(0, Identify(None)), Join(0), Step(1, Wake),
    Step(1, ReadIdentity(None)), Leave(1), Cancel(1), Step(1, Settle(false)),
    Join(1), Observe(0), Finish(0, None), Step(1, Wake),
    Step(1, ReadIdentity(None)), Leave(1), Step(1, Settle(false))]

  /** All callers wait. */
  function Early(k: nat): State {
    var none, one := Shares([], map[], 0, "A"), Shares([OfB(1, Running([]))], map[B := 0], 0, "A");
    var two := Shares([OfB(1, Running([])), OfA(1, None, false, Running([]))], map[B := 0, A := 1], 0, "A");
    match k
    case 0 => State(map[], none)
    case 1 => State(Lone(Idle(None)), none)
    case 2 => State(Lone(Resolved(B, None)), none)
    case 3 => State(Lone(Joining(B, 1, None)), none)
    case 4 => State(Lone(Waiting(OLDER)), one)
    case 5 => State(Two(Idle(None)), one)
    case 6 => State(Two(Resolved(A, None)), one)
    case 7 => State(Two(Joining(A, 0, None)), one)
    case 8 => State(Two(Waiting(NEWER)), two)
    case 9 => State(All(Waiting(NEWER), Idle(None)), two)
    case 10 => State(All(Waiting(NEWER), Resolved(A, None)), two)
    case 11 => State(All(Waiting(NEWER), Joining(A, 0, None)), two)
    case _ => State(All(Waiting(NEWER), Waiting(NEWER)),
                    Shares([OfB(1, Running([])), OfA(2, None, false, Running([]))], map[B := 0, A := 1], 0, "A"))
  }

  /** The newer scan times out, and caller 0 links it to the older one. */
  function Middle(k: nat): State {
    var both := Shares([OfB(1, Running([])), OfA(2, None, false, TIMED_OUT)], map[B := 0], 1, "A");
    var left := Shares([OfB(1, Running([])), OfA(1, None, false, TIMED_OUT)], map[B := 0], 1, "A");
    var moved := Shares([OfB(1, Running([])), OfA(1, None, false, TIMED_OUT)], map[B := 0], 1, "B");
    match k
    case 13 => State(All(Waiting(NEWER), Waiting(NEWER)), both)
    case 14 => State(All(Woken(NEWER), Waiting(NEWER)), both)
    case 15 => State(All(Leaving(NEWER, EXPIRED), Waiting(NEWER)), both)
    case 16 => State(All(Left(NEWER, EXPIRED), Waiting(NEWER)), left)
    case 17 => State(All(Confirming(NEWER, EXPIRED), Waiting(NEWER)), left)
    case 18 => State(All(Rechecking(NEWER, EXPIRED, A), Waiting(NEWER)), left)
    case 19 => State(All(Idle(Some(1)), Waiting(NEWER)), left)
    case 20 => State(All(Idle(Some(1)), Waiting(NEWER)), moved)
    case 21 => State(All(Resolved(B, Some(1)), Waiting(NEWER)), moved)
    case _ => State(All(Joining(B, 1, Some(1)), Waiting(NEWER)), moved)
  }

  /** Caller 1 inherits the older scan. */
  function Late(k: nat): State {
    var linked := Shares([OfB(2, Running([])), OfA(1, Some(0), false, TIMED_OUT)], map[B := 0], 1, "B");
    var left := Shares([OfB(2, Running([])), OfA(0, Some(0), false, TIMED_OUT)], map[B := 0], 1, "B");
    var ended := OfA(0, Some(0), true, TIMED_OUT);
    var over := Shares([OfB(2, Running([])), ended], map[B := 0], 1, "B");
    match k
    case 23 => State(All(Waiting(OLDER), Waiting(NEWER)), linked)
    case 24 => State(All(Waiting(OLDER), Woken(NEWER)), linked)
    case 25 => State(All(Waiting(OLDER), Leaving(NEWER, EXPIRED)), linked)
    case 26 => State(All(Waiting(OLDER), Canceling(NEWER, EXPIRED)), left)
    case 27 => State(All(Waiting(OLDER), Left(NEWER, EXPIRED)), over)
    case 28 => State(All(Waiting(OLDER), Joining(A, 0, Some(1))), over)
    case 29 => State(All(Waiting(OLDER), Waiting(Visit(A, 0, 0))),
                     Shares([OfB(3, Running([])), ended], map[B := 0], 1, "B"))
    case _ => State(All(Waiting(OLDER), Waiting(Visit(A, 0, 0))),
                    Shares([OfB(3, Running([map[]])), ended], map[B := 0], 1, "B"))
  }

  /** The scan of B ends well, and caller 1 is refused. */
  function Last(lister: Lister, k: nat): State {
    var visit, refusal := Visit(A, 0, 0), Fault(LifecycleChanged);
    var ended, phase := OfA(0, Some(0), true, TIMED_OUT), Done(Listed(lister.assemble([map[]], "")), 1);
    var three, two := Shares([OfB(3, phase), ended], map[], 2, "B"), Shares([OfB(2, phase), ended], map[], 2, "B");
    match k
    case 31 => State(All(Waiting(OLDER), Waiting(visit)), three)
    case 32 => State(All(Waiting(OLDER), Woken(visit)), three)
    case 33 => State(All(Waiting(OLDER), Leaving(visit, refusal)), three)
    case 34 => State(All(Waiting(OLDER), Left(visit, refusal)), two)
    case _ => State(All(Waiting(OLDER), Returned(Raised(LifecycleChanged))), two)
  }

  function At(lister: Lister, k: nat): State {
    if k < 13 then Early(k) else if k < 23 then Middle(k) else if k < 31 then Late(k) else Last(lister, k)
  }

  ghost predicate StepOk(lister: Lister, k: nat)
    requires k < |EVENTS|
  {
    IsStep(lister, At(lister, k), EVENTS[k], At(lister, k + 1))
  }

  lemma FirstCalls(lister: Lister)
    ensures StepOk(lister, 0)
  {}

  lemma FirstResolves(lister: Lister)
    ensures StepOk(lister, 1)
  {}

  lemma FirstIdentifies(lister: Lister)
    ensures StepOk(lister, 2)
  {}

  lemma FirstOpens(lister: Lister)
    ensures StepOk(lister, 3)
  {}

  lemma LinkedCalls(lister: Lister)
    ensures StepOk(lister, 4)
  {}

  lemma LinkedResolves(lister: Lister)
    ensures StepOk(lister, 5)
  {}

  lemma LinkedIdentifies(lister: Lister)
    ensures StepOk(lister, 6)
  {}

  lemma LinkedOpens(lister: Lister)
    ensures StepOk(lister, 7)
  {
    var sh := At(lister, 7).shared;
    assert Target(sh, A, None) == None;
    assert Joined(sh, A, 0, None).0.scans == [OfB(1, Running([])), OfA(1, None, false, Running([]))];
  }

  lemma DirectCalls(lister: Lister)
    ensures StepOk(lister, 8)
  {}

  lemma DirectResolves(lister: Lister)
    ensures StepOk(lister, 9)
  {}

  lemma DirectIdentifies(lister: Lister)
    ensures StepOk(lister, 10)
  {}

  lemma DirectJoins(lister: Lister)
    ensures StepOk(lister, 11)
  {
    var sh := At(lister, 11).shared;
    assert Target(sh, A, None) == Some(1);
    assert Joined(sh, A, 0, None).0.scans == [OfB(1, Running([])), OfA(2, None, false, Running([]))];
  }

  lemma TimesOut(lister: Lister)
    ensures StepOk(lister, 12)
  {
    var after := SharedAfter(At(lister, 12), lister, EVENTS[12]);
    assert after.active == map[B := 0];
    assert after.scans == [OfB(1, Running([])), OfA(2, None, false, TIMED_OUT)];
  }

  lemma LinkedWakes(lister: Lister)
    ensures StepOk(lister, 13)
  {}

  lemma LinkedReads(lister: Lister)
    ensures StepOk(lister, 14)
  {}

  lemma LinkedLeaves(lister: Lister)
    ensures StepOk(lister, 15)
  {}

  lemma LinkedSettles(lister: Lister)
    ensures StepOk(lister, 16)
  {}

  lemma LinkedRechecks(lister: Lister)
    ensures StepOk(lister, 17)
  {}

  lemma LinkedConfirms(lister: Lister)
    ensures StepOk(lister, 18)
  {}

  lemma Relinks(lister: Lister)
    ensures StepOk(lister, 19)
  {}

  lemma LinkedResolvesAgain(lister: Lister)
    ensures StepOk(lister, 20)
  {}

  lemma LinkedIdentifiesAgain(lister: Lister)
    ensures StepOk(lister, 21)
  {}

  lemma LinkedJoinsOlder(lister: Lister)
    ensures StepOk(lister, 22)
  {
    var sh := At(lister, 22).shared;
    assert Target(sh, B, Some(1)) == Some(0);
    assert Joined(sh, B, 1, Some(1)).0.scans == [OfB(2, Running([])), OfA(1, Some(0), false, TIMED_OUT)];
  }

  lemma DirectWakes(lister: Lister)
    ensures StepOk(lister, 23)
  {}

  lemma DirectReads(lister: Lister)
    ensures StepOk(lister, 24)
  {}

  lemma DirectLeaves(lister: Lister)
    ensures StepOk(lister, 25)
  {}

  lemma DirectCancels(lister: Lister)
    ensures StepOk(lister, 26)
  {}

  lemma DirectSettles(lister: Lister)
    ensures StepOk(lister, 27)
  {}

  lemma DirectInherits(lister: Lister)
    ensures StepOk(lister, 28)
  {
    var sh := At(lister, 28).shared;
    assert Target(sh, A, Some(1)) == Some(0);
    assert Joined(sh, A, 0, Some(1)).0.scans == [OfB(3, Running([])), OfA(0, Some(0), true, TIMED_OUT)];
  }

  lemma Observes(lister: Lister)
    ensures StepOk(lister, 29)
  {
    var nothing: seq<Tree> := [];
    assert nothing + [TreeOf(At(lister, 29).shared, "B")] == [map[]];
    var after := SharedAfter(At(lister, 29), lister, EVENTS[29]);
    assert after.scans == [OfB(3, Running([map[]])), OfA(0, Some(0), true, TIMED_OUT)];
  }

  lemma Finishes(lister: Lister)
    ensures StepOk(lister, 30)
  {
    var after := SharedAfter(At(lister, 30), lister, EVENTS[30]);
    assert after.active == map[];
    assert after.scans == At(lister, 31).shared.scans;
  }

  lemma DirectWakesAgain(lister: Lister)
    ensures StepOk(lister, 31)
  {}

  lemma DirectRefused(lister: Lister)
    ensures StepOk(lister, 32)
  {}

  lemma DirectLeavesAgain(lister: Lister)
    ensures StepOk(lister, 33)
  {}

  lemma DirectReturns(lister: Lister)
    ensures StepOk(lister, 34)
  {}

  lemma EveryStep(lister: Lister, k: nat)
    requires k < |EVENTS|
    ensures StepOk(lister, k)
  {
    match k
    case 0 => FirstCalls(lister);
    case 1 => FirstResolves(lister);
    case 2 => FirstIdentifies(lister);
    case 3 => FirstOpens(lister);
    case 4 => LinkedCalls(lister);
    case 5 => LinkedResolves(lister);
    case 6 => LinkedIdentifies(lister);
    case 7 => LinkedOpens(lister);
    case 8 => DirectCalls(lister);
    case 9 => DirectResolves(lister);
    case 10 => DirectIdentifies(lister);
    case 11 => DirectJoins(lister);
    case 12 => TimesOut(lister);
    case 13 => LinkedWakes(lister);
    case 14 => LinkedReads(lister);
    case 15 => LinkedLeaves(lister);
    case 16 => LinkedSettles(lister);
    case 17 => LinkedRechecks(lister);
    case 18 => LinkedConfirms(lister);
    case 19 => Relinks(lister);
    case 20 => LinkedResolvesAgain(lister);
    case 21 => LinkedIdentifiesAgain(lister);
    case 22 => LinkedJoinsOlder(lister);
    case 23 => DirectWakes(lister);
    case 24 => DirectReads(lister);
    case 25 => DirectLeaves(lister);
    case 26 => DirectCancels(lister);
    case 27 => DirectSettles(lister);
    case 28 => DirectInherits(lister);
    case 29 => Observes(lister);
    case 30 => Finishes(lister);
    case 31 => DirectWakesAgain(lister);
    case 32 => DirectRefused(lister);
    case 33 => DirectLeavesAgain(lister);
    case _ => DirectReturns(lister);
  }

  lemma RunOf(lister: Lister, states: seq<State>)
    requires |states| == |EVENTS| + 1 && forall k :: 0 <= k < |states| ==> states[k] == At(lister, k)
    ensures IsRun(lister, states, EVENTS)
  {
    assert Init(At(lister, 0));
    forall k | 0 <= k < |EVENTS| ensures IsStep(lister, states[k], EVENTS[k], states[k + 1]) {
      EveryStep(lister, k);
    }
  }

  /** Caller 1, if it has called, asked for A, which is where it was. */
  predicate Untouched(s: State) {
    1 in s.callers ==> s.callers[1].path == "" && Unmoved(s.shared, s.callers[1].root, A, 0)
  }

  lemma EarlyUntouched(k: nat)
    ensures Untouched(Early(k))
  {}

  lemma MiddleUntouched(k: nat)
    ensures Untouched(Middle(k))
  {}

  lemma LateUntouched(k: nat)
    ensures Untouched(Late(k))
  {}

  lemma LastUntouched(lister: Lister, k: nat)
    ensures Untouched(Last(lister, k))
  {}

  lemma NothingMoves(lister: Lister, k: nat)
    ensures Untouched(At(lister, k))
  {
    EarlyUntouched(k);
    MiddleUntouched(k);
    LateUntouched(k);
    LastUntouched(lister, k);
  }

  /** After 23 steps the followup of scan 1 is scan 0, which was created before it and is still running. */
  lemma LinkPointsBack(lister: Lister) returns (states: seq<State>)
    ensures IsRun(lister, states, EVENTS)
    ensures var scans := states[23].shared.scans;
            |scans| == 2 && scans[1].followup == Some(0) && scans[0].phase.Running?
  {
    states := seq(|EVENTS| + 1, (k: nat) => At(lister, k));
    RunOf(lister, states);
  }

  /** Caller 1 is refused, and from its call on its root was A, unlinked, with the same directory in place. */
  lemma RefusedWithoutChange(lister: Lister) returns (states: seq<State>)
    ensures IsRun(lister, states, EVENTS) && NeverMoved(states, 1, A, 0)
    ensures var s := states[|EVENTS|]; 1 in s.callers && s.callers[1].pc == Returned(Raised(LifecycleChanged))
  {
    states := seq(|EVENTS| + 1, (k: nat) => At(lister, k));
    RunOf(lister, states);
    forall k | 0 <= k < |states| && 1 in states[k].callers
      ensures states[k].callers[1].path == A.path && Unmoved(states[k].shared, states[k].callers[1].root, A, 0)
    {
      NothingMoves(lister, k);
    }
  }
}
