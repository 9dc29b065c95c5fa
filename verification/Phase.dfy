/** The VM phase graph. */
module Phase {
  datatype VmPhase =
    | Pending | Provisioning | Starting | Running | Stopping | Stopped | Deleting | Deleted | Failed

  predicate CanTransitionTo(from: VmPhase, to: VmPhase) {
    match from
    case Pending => to.Provisioning?
    case Provisioning => to.Starting? || to.Failed?
    case Starting => to.Running? || to.Failed?
    case Running => to.Stopping? || to.Failed?
    case Stopping => to.Stopped? || to.Failed?
    case Stopped => to.Starting? || to.Deleting?
    case Failed => to.Deleting?
    case Deleting => to.Deleted? || to.Failed?
    case Deleted => false
  }

  predicate IsActive(p: VmPhase) {
    p.Provisioning? || p.Starting? || p.Running? || p.Stopping?
  }

  predicate IsTerminal(p: VmPhase) {
    p.Deleted?
  }

  /** The place of a phase in the life of a VM that never fails. */
  function Place(p: VmPhase): int {
    match p
    case Pending => 0
    case Provisioning => 1
    case Starting => 2
    case Running => 3
    case Stopping => 4
    case Stopped => 5
    case Deleting => 6
    case Deleted => 7
    case Failed => -1
  }

  /**
   The edges are the strict order of a VM's life, one place at a time, with
   failure from any work in progress and deletion after it, and one way back:
   a stopped VM can start again.
   */
  lemma StrictOrder(p: VmPhase, q: VmPhase)
    ensures CanTransitionTo(p, q) <==>
            || (!p.Failed? && !q.Failed? && Place(q) == Place(p) + 1)
            || (q.Failed? && (IsActive(p) || p.Deleting?))
            || (p.Failed? && q.Deleting?)
            || (p.Stopped? && q.Starting?)
  {
  }

  /** A run of legal edges, as the phases it visits. */
  ghost predicate LegalRun(run: seq<VmPhase>) {
    forall i :: 0 < i < |run| ==> CanTransitionTo(run[i - 1], run[i])
  }

  predicate Dying(p: VmPhase) {
    p.Failed? || p.Deleting? || p.Deleted?
  }

  /** Once failed or being deleted, no run of legal edges is active again or leaves that group. */
  lemma {:induction false} DyingForGood(run: seq<VmPhase>, i: nat)
    requires i < |run| && LegalRun(run) && Dying(run[0])
    ensures Dying(run[i]) && !IsActive(run[i])
  {
    if i > 0 {
      DyingForGood(run, i - 1);
      assert CanTransitionTo(run[i - 1], run[i]);
    }
  }

  ghost predicate Reaches(from: VmPhase, to: VmPhase) {
    exists run :: LegalRun(run) && |run| >= 1 && run[0] == from && run[|run| - 1] == to
  }

  lemma ReachesVia(run: seq<VmPhase>)
    requires LegalRun(run) && |run| >= 1
    ensures Reaches(run[0], run[|run| - 1])
  {
  }

  /**
   A phase can become active again by legal edges exactly when it is not
   failed or being deleted, and every phase can be brought to `Deleted`.
   */
  lemma ReachableEnds(p: VmPhase)
    ensures (exists q :: IsActive(q) && Reaches(p, q)) <==> !Dying(p)
    ensures Reaches(p, Deleted)
    ensures IsTerminal(p) <==> forall q :: !CanTransitionTo(p, q)
  {
    assert p != Deleted ==> exists q :: CanTransitionTo(p, q) by {
      assert p == Pending ==> CanTransitionTo(p, Provisioning);
      assert p == Stopped || p == Failed ==> CanTransitionTo(p, Deleting);
      assert p != Pending && p != Stopped && p != Failed && p != Deleted ==> CanTransitionTo(p, Failed);
    }
    var toEnd :=
      match p
      case Pending => [Pending, Provisioning, Failed, Deleting, Deleted]
      case Deleting => [Deleting, Deleted]
      case Deleted => [Deleted]
      case Failed => [Failed, Deleting, Deleted]
      case Stopped => [Stopped, Deleting, Deleted]
      case _ => [p, Failed, Deleting, Deleted];
    ReachesVia(toEnd);
    if !Dying(p) {
      var toActive := if p.Pending? then [p, Provisioning] else if p.Stopped? then [p, Starting] else [p];
      ReachesVia(toActive);
      assert IsActive(toActive[|toActive| - 1]);
    } else {
      forall q | IsActive(q)
        ensures !Reaches(p, q)
      {
        if Reaches(p, q) {
          var run :| LegalRun(run) && |run| >= 1 && run[0] == p && run[|run| - 1] == q;
          DyingForGood(run, |run| - 1);
        }
      }
    }
  }
}
