/**
 Which attempts parallel validation lets pass, in either publication order:
 exactly those whose keys overlap with no write of a transaction that committed
 between the attempt's beginning and its look at the committed list, or that was
 in the active set when the attempt entered it.
 */
module ParallelOccDecisions {
  import opened Txns
  import opened ParallelOcc
  import opened ParallelOccTheorems
  import opened OccValidation

  // i is not executing, or began when n transactions had committed.
  predicate BeganAt(s: State, i: TxnId, n: nat)
    requires Sized(s)
  {
    && i < |s.txns|
    && (s.phases[i].Running? ==> s.phases[i].start == n)
    && (s.phases[i].Ran? ==> s.phases[i].start == n)
  }

  ghost predicate NoBegin(steps: seq<Step>, i: TxnId) {
    forall m :: 0 <= m < |steps| ==> steps[m] != Begin(i)
  }

  lemma StepKeepsStart(s: State, step: Step, i: TxnId, n: nat)
    requires Sized(s) && BeganAt(s, i, n) && step != Begin(i)
    ensures BeganAt(Do(s, step), i, n)
    ensures Do(s, step).txns[i] == s.txns[i] && |s.committed| <= |Do(s, step).committed|
  {
  }

  lemma {:induction false} RunKeepsStart(s: State, steps: seq<Step>, i: TxnId, n: nat)
    requires Sized(s) && BeganAt(s, i, n) && NoBegin(steps, i)
    ensures BeganAt(RunFrom(s, steps), i, n)
    ensures RunFrom(s, steps).txns[i] == s.txns[i] && |s.committed| <= |RunFrom(s, steps).committed|
  {
    if steps == [] {
    } else {
      var last := |steps| - 1;
      RunKeepsStart(s, steps[..last], i, n);
      StepKeepsStart(RunFrom(s, steps[..last]), steps[last], i, n);
    }
  }

  // What an entry recorded when it was made.
  predicate SameEntry(a: Entry, b: Entry) {
    a.txn == b.txn && a.start == b.start && a.out == b.out && a.saved == b.saved && a.seen == b.seen
  }

  lemma {:induction false} RunKeepsEntry(s: State, steps: seq<Step>, e: nat)
    requires Sized(s) && e < |s.entries|
    ensures e < |RunFrom(s, steps).entries| && SameEntry(RunFrom(s, steps).entries[e], s.entries[e])
  {
    if steps == [] {
    } else {
      var last := |steps| - 1;
      RunKeepsEntry(s, steps[..last], e);
      if Enabled(RunFrom(s, steps[..last]), steps[last]) {
        EntriesGrow(RunFrom(s, steps[..last]), steps[last], e);
      }
    }
  }

  // Only transactions that have been submitted are in the lists.
  ghost predicate InRange(s: State) {
    && (forall c :: 0 <= c < |s.committed| ==> s.committed[c] < |s.txns|)
    && (forall t :: t in s.active ==> t < |s.txns|)
    && (forall e, t :: 0 <= e < |s.entries| && t in s.entries[e].saved ==> t < |s.txns|)
  }

  lemma StepKeepsRange(s: State, step: Step)
    requires Sized(s) && InRange(s) && Enabled(s, step)
    ensures InRange(Do(s, step))
  {
    var s' := Do(s, step);
    CommittedGrows(s, step);
    forall e, t | 0 <= e < |s'.entries| && t in s'.entries[e].saved ensures t < |s'.txns| {
      if e < |s.entries| {
        EntriesGrow(s, step, e);
      } else {
        assert s'.entries[e].saved == s.active;
      }
    }
  }

  lemma {:induction false} RunKeepsRange(s: State, steps: seq<Step>)
    requires Sized(s) && InRange(s)
    ensures InRange(RunFrom(s, steps))
  {
    if steps == [] {
    } else {
      var last := |steps| - 1;
      RunKeepsRange(s, steps[..last]);
      if Enabled(RunFrom(s, steps[..last]), steps[last]) {
        StepKeepsRange(RunFrom(s, steps[..last]), steps[last]);
      }
    }
  }

  // A conflict of transaction i with the committed list between two positions.
  predicate OverlapBetween(s: State, i: TxnId, from: nat, upTo: nat) {
    && i < |s.txns| && upTo <= |s.committed|
    && exists c :: from <= c < upTo && s.committed[c] < |s.txns| && Overlapping(s.txns[i], s.txns[s.committed[c]])
  }

  predicate OverlapWith(s: State, i: TxnId, others: set<TxnId>) {
    i < |s.txns| && exists t :: t in others && t < |s.txns| && Overlapping(s.txns[i], s.txns[t])
  }

  predicate Verdict(status: Status, out: Outcome, overlap: bool) {
    status == if overlap then Failed else if out.commit then Applying(out.writes.Keys) else Aborted
  }

  // The states of one attempt: it begins, runs, enters the active set, and is
  // about to validate.
  ghost function Entering(publishFirst: bool, db: Db, front: seq<Step>, i: TxnId, mid: seq<Step>): (s: State)
    requires Enabled(Run(publishFirst, db, front), Begin(i))
    ensures Sized(s)
  {
    RunFrom(AfterBegin(Run(publishFirst, db, front), i), mid)
  }

  // Every attempt, in every run and in either publication order: it fails exactly
  // when it overlaps with a write of someone who committed after its beginning,
  // as far as it looks, or of someone who was in the active set when it entered.
  // Otherwise its own vote decides.
  lemma FailsExactlyOnOverlap(publishFirst: bool, db: Db, front: seq<Step>, i: TxnId,
                              mid: seq<Step>, later: seq<Step>, upTo: nat)
    requires Enabled(Run(publishFirst, db, front), Begin(i)) && NoBegin(mid, i)
    requires Enabled(Entering(publishFirst, db, front, i, mid), Enter(i))
    requires var s1 := Entering(publishFirst, db, front, i, mid);
      Enabled(RunFrom(AfterEnter(s1, i), later), Validate(|s1.entries|, upTo))
    ensures var n, s1 := |Run(publishFirst, db, front).committed|, Entering(publishFirst, db, front, i, mid);
      var s, e := RunFrom(AfterEnter(s1, i), later), |s1.entries|;
      && s.entries[e].txn == i && s.entries[e].out == s1.phases[i].out && |s1.committed| <= upTo
      && Verdict(AfterValidate(s, e, upTo).entries[e].status, s1.phases[i].out,
                 OverlapBetween(s, i, n, upTo) || OverlapWith(s, i, s1.active))
  {
    var s0 := Run(publishFirst, db, front);
    var s1, n := Entering(publishFirst, db, front, i, mid), |s0.committed|;
    var e, s := |s1.entries|, RunFrom(AfterEnter(s1, i), later);
    RunKeepsStart(AfterBegin(s0, i), mid, i, n);
    RunKeepsEntry(AfterEnter(s1, i), later, e);
    RangeThrough(publishFirst, db, front, i, mid, later);
    ParallelMeans(s, e, upTo);
  }

  lemma RangeThrough(publishFirst: bool, db: Db, front: seq<Step>, i: TxnId, mid: seq<Step>, later: seq<Step>)
    requires Enabled(Run(publishFirst, db, front), Begin(i))
    requires Enabled(Entering(publishFirst, db, front, i, mid), Enter(i))
    ensures InRange(RunFrom(AfterEnter(Entering(publishFirst, db, front, i, mid), i), later))
  {
    var s0, s1 := Run(publishFirst, db, front), Entering(publishFirst, db, front, i, mid);
    RunKeepsRange(Init(publishFirst, db), front);
    StepKeepsRange(s0, Begin(i));
    RunKeepsRange(AfterBegin(s0, i), mid);
    StepKeepsRange(s1, Enter(i));
    RunKeepsRange(AfterEnter(s1, i), later);
  }

  /******* What the sets and lists hold *******/

  // Whose writes the committed list shows: those who have published.
  predicate Published(s: State, i: TxnId)
    requires i < |s.phases|
  {
    match s.phases[i]
    case Entered(e) => e < |s.entries| && s.entries[e].status.Leaving? && s.publishFirst
    case Returned(e) => e < |s.entries| && s.entries[e].status.Committed?
    case _ => false
  }

  ghost predicate CommitsOk(s: State)
    requires Sized(s)
  {
    && Distinct(s.committed)
    && forall i: TxnId :: i in s.committed <==> i < |s.txns| && Published(s, i)
  }

  lemma CommittedMoves(s: State, step: Step)
    requires Sized(s) && Enabled(s, step)
    ensures Do(s, step).committed == s.committed + if step.Publish? then [Mover(s, step)] else []
  {
  }

  lemma OtherPublished(s: State, step: Step, i: TxnId)
    requires Sized(s) && Enabled(s, step) && i < |s.txns| && PhaseOk(s, i) && i != Mover(s, step)
    ensures i < |Do(s, step).phases| && Published(Do(s, step), i) == Published(s, i)
  {
    OthersStay(s, step, i);
    var ph := s.phases[i];
    if ph.Entered? || ph.Returned? {
      EntriesGrow(s, step, ph.entry);
      EntryMoves(s, step, ph.entry);
    }
  }

  lemma OwnPublished(s: State, step: Step)
    requires Inv(s) && Enabled(s, step) && !step.Submit?
    ensures Mover(s, step) < |s.txns| && Mover(s, step) < |Do(s, step).phases|
    ensures step.Publish? ==> !Published(s, Mover(s, step)) && Published(Do(s, step), Mover(s, step))
    ensures !step.Publish? ==> Published(Do(s, step), Mover(s, step)) == Published(s, Mover(s, step))
  {
    if ByEntry(step) {
      assert EntryOk(s, step.entry);
      MoverLive(s, step);
      OwnPhase(s, step);
      EntriesGrow(s, step, step.entry);
      EntryMoves(s, step, step.entry);
    } else if step.Assign? {
      assert s.requests[0] in s.requests;
    }
  }

  lemma StepKeepsCommits(s: State, step: Step)
    requires Inv(s) && CommitsOk(s) && Enabled(s, step)
    ensures CommitsOk(Do(s, step))
  {
    var s' := Do(s, step);
    CommittedMoves(s, step);
    CommittedGrows(s, step);
    if !step.Submit? {
      OwnPublished(s, step);
    }
    forall i: TxnId ensures i in s'.committed <==> i < |s'.txns| && Published(s', i) {
      if i < |s.txns| && i != Mover(s, step) {
        assert PhaseOk(s, i);
        OtherPublished(s, step, i);
      }
    }
  }

  // The committed list holds exactly those who have published, once each.
  lemma {:induction false} CommittedExactly(publishFirst: bool, db: Db, steps: seq<Step>)
    requires publishFirst || QuietRun(Init(publishFirst, db), steps)
    ensures CommitsOk(Run(publishFirst, db, steps))
  {
    if steps == [] {
    } else {
      var last := |steps| - 1;
      CommittedExactly(publishFirst, db, steps[..last]);
      Safe(publishFirst, db, steps[..last]);
      if Enabled(Run(publishFirst, db, steps[..last]), steps[last]) {
        StepKeepsCommits(Run(publishFirst, db, steps[..last]), steps[last]);
      }
    }
  }

  // The active set holds exactly those who have entered and not left again.
  lemma ActiveExactly(publishFirst: bool, db: Db, steps: seq<Step>, t: TxnId)
    requires publishFirst || QuietRun(Init(publishFirst, db), steps)
    ensures var s := Run(publishFirst, db, steps);
      t in s.active <==>
        exists e :: 0 <= e < |s.entries| && s.entries[e].txn == t
          && (s.entries[e].status.Pending? || s.entries[e].status.Applying? || (publishFirst && s.entries[e].status.Leaving?))
  {
    var s := Run(publishFirst, db, steps);
    Safe(publishFirst, db, steps);
    if t in s.active {
      assert PhaseOk(s, t);
    }
    forall e | 0 <= e < |s.entries| && s.entries[e].txn == t && InSet(s, s.entries[e].status) ensures t in s.active {
      MemberActive(s, e);
    }
  }

  lemma MemberActive(s: State, e: nat)
    requires Inv(s) && e < |s.entries| && InSet(s, s.entries[e].status)
    ensures s.entries[e].txn in s.active
  {
    assert EntryOk(s, e) && PhaseOk(s, s.entries[e].txn);
  }

  ghost predicate Forward(s: State, s': State) {
    Advances(s.requests, s'.requests) && s.committed <= s'.committed
  }

  // Who goes to the end of the requests, if anyone does.
  lemma RequestsMove(s: State, step: Step) returns (more: seq<TxnId>)
    requires Sized(s) && Enabled(s, step)
    ensures Do(s, step).requests == if step.Assign? then s.requests[1..] else s.requests + more
  {
    more := [];
    match step
    case Submit(_) => more := [|s.txns|];
    case Validate(e, upTo) => more := if Valid(s, e, upTo) then [] else [s.entries[e].txn];
    case _ =>
  }

  lemma StepForward(s: State, step: Step)
    requires Sized(s) && Enabled(s, step)
    ensures Forward(s, Do(s, step))
  {
    var more := RequestsMove(s, step);
    CommittedMoves(s, step);
    AdvancesPlus(s.requests, more);
    if step.Assign? {
      AdvancesPop(s.requests, []);
    }
  }

  // Requests are first in, first out, restarts included; the committed list only
  // grows at its end.
  lemma {:induction false} FirstInFirstOut(s: State, steps: seq<Step>)
    requires Sized(s)
    ensures Forward(s, RunFrom(s, steps))
  {
    if steps == [] {
      AdvancesPlus(s.requests, []);
    } else {
      var last := |steps| - 1;
      var mid := RunFrom(s, steps[..last]);
      FirstInFirstOut(s, steps[..last]);
      if Enabled(mid, steps[last]) {
        StepForward(mid, steps[last]);
        AdvancesOn(s.requests, mid.requests, Do(mid, steps[last]).requests);
      }
    }
  }
}
