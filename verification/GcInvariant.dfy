// What holds between any two steps of the collector or of the program.

module GcInvariant {
  import opened GcState
  import opened GcMark
  import opened GcSweepAll

  ghost predicate AllCurWhite(g: G) { forall o :: o in g.heap ==> CurWhite(g, o) }

  ghost predicate RootMarked(g: G) {
    !White(g, g.main) && forall c :: c in Ids(g.registry) ==> !White(g, c)
  }

  ghost predicate BucketsClean(g: G) {
    g.sweepstrgc < |g.strt| && forall b :: 0 <= b < g.sweepstrgc ==> BucketClean(g, b, |g.strt[b]|)
  }

  ghost predicate StringsClean(g: G) {
    forall o :: o in g.heap && g.heap[o].body.Str? ==> CurWhite(g, o)
  }

  // Between collections all is white.  While marking, no black object refers to a white
  // one.  While sweeping, what has been passed is white again.
  ghost predicate PhaseOk(g: G) {
    match g.phase
    case Pause => AllCurWhite(g)
    case Propagate => Tri(g, {}, 0) && RootMarked(g)
    case SweepString => g.sweepgc == 0 && BucketsClean(g)
    case Sweep => StringsClean(g) && RootsClean(g)
    case Finalize => AllCurWhite(g)
  }

  ghost predicate Inv(g: G) { Shape(g) && NoDangling(g) && PhaseOk(g) }

  // The safety property: all the program can reach is in the heap and not dead.
  lemma Safe(g: G, o: Id)
    requires Inv(g) && Reachable(g, o)
    ensures o in g.heap && Live(g, o)
  {
    ReachableLive(g, o);
  }

  // Outside the sweep phases nothing is dead, so every object can be trusted.
  lemma NothingDead(g: G)
    requires Inv(g) && !g.phase.SweepString? && !g.phase.Sweep?
    ensures forall o :: o in g.heap ==> Live(g, o)
    ensures Typed(g)
  {
    forall o | o in g.heap ensures Live(g, o) {
      if g.phase.Propagate? { assert TriAt(g, {}, 0, o); } else { assert CurWhite(g, o); }
    }
    forall o | o in g.heap ensures TypedAt(g, o) { assert ChildrenLive(g, o); }
  }
}
