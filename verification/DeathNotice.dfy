/** Announcing that a page died: by the pump at end of stream, or claimed silently by
    a deliberate teardown, whichever comes first. Every step is one atomic operation
    or one critical section. */
module DeathNotice {
  import opened Options

  datatype Announce =
    | NotCalled
    | Won                              // the exchange found false
    | MarkedDead
    | HasCallback(cb: Option<nat>)     // copied under the mutex, about to call

  datatype Stop = NotStopping | Claimed | Stopped

  datatype View = View(
    announced: bool, alive: bool, onDied: Option<nat>,
    announcers: map<nat, Announce>, stoppers: map<nat, Stop>,
    stopCameFirst: bool,               // some stop() found the flag still false
    fired: seq<nat>)                   // the death callbacks that ran

  const START := View(false, true, None, map[], map[], false, [])

  datatype Step =
    | SetOnDied(cb: Option<nat>)
    | Exchanges(id: nat)
    | StoresDead(id: nat)
    | CopiesCallback(id: nat)
    | Fires(id: nat)
    | StopClaims(id: nat)
    | StopStoresDead(id: nat)

  function AnnounceOf(v: View, id: nat): Announce {
    if id in v.announcers then v.announcers[id] else NotCalled
  }

  function StopOf(v: View, id: nat): Stop {
    if id in v.stoppers then v.stoppers[id] else NotStopping
  }

  predicate Enabled(v: View, s: Step) {
    match s
    case SetOnDied(_) => true
    case Exchanges(id) => AnnounceOf(v, id).NotCalled?
    case StoresDead(id) => AnnounceOf(v, id).Won?
    case CopiesCallback(id) => AnnounceOf(v, id).MarkedDead?
    case Fires(id) => AnnounceOf(v, id).HasCallback?
    case StopClaims(id) => !StopOf(v, id).Claimed?
    case StopStoresDead(id) => StopOf(v, id).Claimed?
  }

  function Next(v: View, s: Step): View
    requires Enabled(v, s)
  {
    match s
    case SetOnDied(cb) => v.(onDied := cb)
    case Exchanges(id) =>
      v.(announced := true, announcers := if v.announced then v.announcers else v.announcers[id := Won])
    case StoresDead(id) => v.(alive := false, announcers := v.announcers[id := MarkedDead])
    case CopiesCallback(id) => v.(announcers := v.announcers[id := HasCallback(v.onDied)])
    case Fires(id) =>
      var cb := AnnounceOf(v, id).cb;
      v.(announcers := v.announcers[id := NotCalled],
         fired := v.fired + if cb.Some? then [cb.value] else [])
    case StopClaims(id) =>
      v.(announced := true, stoppers := v.stoppers[id := Claimed],
         stopCameFirst := v.stopCameFirst || !v.announced)
    case StopStoresDead(id) => v.(alive := false, stoppers := v.stoppers[id := Stopped])
  }

  predicate Busy(v: View, id: nat) {
    !AnnounceOf(v, id).NotCalled?
  }

  predicate PastMarking(v: View, id: nat) {
    AnnounceOf(v, id).MarkedDead? || AnnounceOf(v, id).HasCallback?
  }

  ghost predicate Inv(v: View) {
    && |v.fired| <= 1
    && (!v.announced || v.stopCameFirst ==> v.fired == [])
    && (!v.announced || v.stopCameFirst || v.fired != [] ==> forall id: nat :: !Busy(v, id))
    && (forall a: nat, b: nat :: Busy(v, a) && Busy(v, b) ==> a == b)
    && (v.stopCameFirst ==> v.announced)
    && (v.fired != [] ==> !v.alive)
    && (forall id: nat :: PastMarking(v, id) ==> !v.alive)
  }

  lemma StepKeepsInv(v: View, s: Step)
    requires Inv(v) && Enabled(v, s)
    ensures Inv(Next(v, s))
  {
    var n := Next(v, s);
    match s {
      case Exchanges(id) =>
        assert forall k: nat :: Busy(n, k) ==> Busy(v, k) || (k == id && !v.announced);
        assert forall k: nat :: PastMarking(n, k) ==> PastMarking(v, k);
      case StoresDead(id) =>
        assert Busy(v, id);
        assert forall k: nat :: Busy(n, k) == Busy(v, k);
      case CopiesCallback(id) =>
        assert Busy(v, id) && PastMarking(v, id);
        assert forall k: nat :: Busy(n, k) == Busy(v, k) && PastMarking(n, k) == PastMarking(v, k);
      case Fires(id) =>
        assert Busy(v, id) && PastMarking(v, id);
        assert forall k: nat :: (Busy(n, k) ==> Busy(v, k) && k != id) && (PastMarking(n, k) ==> PastMarking(v, k));
      case _ =>
        assert forall k: nat :: Busy(n, k) == Busy(v, k) && PastMarking(n, k) == PastMarking(v, k);
    }
  }

  function Run(v: View, steps: seq<Step>): Option<View>
    decreases |steps|
  {
    if steps == [] then Some(v)
    else if !Enabled(v, steps[0]) then None
    else Run(Next(v, steps[0]), steps[1..])
  }

  lemma {:induction false} RunKeepsInv(v: View, steps: seq<Step>)
    requires Inv(v) && Run(v, steps).Some?
    ensures Inv(Run(v, steps).value)
    decreases |steps|
  {
    if steps != [] {
      StepKeepsInv(v, steps[0]);
      RunKeepsInv(Next(v, steps[0]), steps[1..]);
    }
  }

  /** The death callback runs at most once over any run, never if a teardown claimed
      the announcement first, and never while the view still reports itself alive. */
  lemma AnnouncedAtMostOnce(steps: seq<Step>)
    requires Run(START, steps).Some?
    ensures var v := Run(START, steps).value;
            && |v.fired| <= 1
            && (v.stopCameFirst ==> v.fired == [])
            && (v.fired != [] ==> !v.alive)
  {
    RunKeepsInv(START, steps);
  }

  // ---- A death is announced ------------------------------------------------

  /** Someone is between the exchange and the callback. */
  ghost predicate SomeBusy(v: View) {
    exists id: nat :: Busy(v, id)
  }

  ghost predicate SomeClaimed(v: View) {
    exists id: nat :: StopOf(v, id).Claimed?
  }

  /** While `cb` is the callback: a claimed announcement is on its way to it, or has
      reached it. */
  ghost predicate Owed(v: View, cb: nat) {
    && v.onDied == Some(cb) && (v.fired == [] || v.fired == [cb])
    && (forall id: nat :: AnnounceOf(v, id).HasCallback? ==> AnnounceOf(v, id).cb == Some(cb))
    && (v.announced && !v.stopCameFirst && v.fired == [] ==> SomeBusy(v))
  }

  lemma StepKeepsOwed(v: View, cb: nat, s: Step)
    requires Inv(v) && Owed(v, cb) && Enabled(v, s) && !s.SetOnDied?
    ensures Owed(Next(v, s), cb)
  {
    var n := Next(v, s);
    if SomeBusy(v) && !s.Fires? {
      var id: nat :| Busy(v, id);
      assert Busy(n, id);
    }
    match s {
      case Exchanges(id) => if !v.announced { assert Busy(n, id); }
      case Fires(id) => assert Busy(v, id);
      case _ =>
    }
    forall k: nat ensures AnnounceOf(n, k).HasCallback? ==> AnnounceOf(n, k).cb == Some(cb) {
      assert AnnounceOf(v, k).HasCallback? ==> AnnounceOf(v, k).cb == Some(cb);
    }
  }

  lemma {:induction false} RunKeepsOwed(v: View, cb: nat, steps: seq<Step>)
    requires Inv(v) && Owed(v, cb) && Run(v, steps).Some? && forall s <- steps :: !s.SetOnDied?
    ensures Owed(Run(v, steps).value, cb)
    decreases |steps|
  {
    if steps != [] {
      assert steps[0] in steps;
      StepKeepsInv(v, steps[0]);
      StepKeepsOwed(v, cb, steps[0]);
      RunKeepsOwed(Next(v, steps[0]), cb, steps[1..]);
    }
  }

  predicate Ends(s: Step) {
    s.Exchanges? || s.StopClaims?
  }

  /** Who came first: an announcer or a teardown. */
  function FirstEnd(steps: seq<Step>): Option<Step> {
    if steps == [] then None else if Ends(steps[0]) then Some(steps[0]) else FirstEnd(steps[1..])
  }

  lemma {:induction false} FirstEndDecides(v: View, steps: seq<Step>)
    requires Run(v, steps).Some? && (v.stopCameFirst ==> v.announced)
    ensures var n, first := Run(v, steps).value, FirstEnd(steps);
            && (n.announced <==> v.announced || first.Some?)
            && (n.stopCameFirst <==> v.stopCameFirst || (!v.announced && first.Some? && first.value.StopClaims?))
    decreases |steps|
  {
    if steps != [] { FirstEndDecides(Next(v, steps[0]), steps[1..]); }
  }

  /** With a callback installed from the start, whatever the interleaving: once every
      announcer is through, the callback has run, exactly once, if an announcer came before
      every teardown, and has not run otherwise. */
  lemma DeathIsAnnounced(cb: nat, steps: seq<Step>)
    requires Run(START, [SetOnDied(Some(cb))] + steps).Some? && forall s <- steps :: !s.SetOnDied?
    requires !SomeBusy(Run(START, [SetOnDied(Some(cb))] + steps).value)
    ensures var v, first := Run(START, [SetOnDied(Some(cb))] + steps).value, FirstEnd(steps);
            && v.fired == (if v.announced && !v.stopCameFirst then [cb] else [])
            && (v.announced && !v.stopCameFirst <==> first.Some? && first.value.Exchanges?)
  {
    var all := [SetOnDied(Some(cb))] + steps;
    var v := Next(START, SetOnDied(Some(cb)));
    assert all[0] == SetOnDied(Some(cb)) && all[1..] == steps;
    RunKeepsInv(START, all);
    RunKeepsOwed(v, cb, steps);
    FirstEndDecides(v, steps);
    FirstIsAnEnd(steps);
  }

  lemma {:induction false} FirstIsAnEnd(steps: seq<Step>)
    ensures FirstEnd(steps).Some? ==> Ends(FirstEnd(steps).value)
    ensures FirstEnd(steps).None? <==> forall i | 0 <= i < |steps| :: !Ends(steps[i])
  {
    if steps != [] {
      FirstIsAnEnd(steps[1..]);
      assert forall i | 1 <= i < |steps| :: steps[i] == steps[1..][i - 1];
      assert forall i | 0 <= i < |steps| - 1 :: steps[1..][i] == steps[i + 1];
    }
  }

  /** Whoever claimed the announcement marks the view dead. */
  ghost predicate Marked(v: View) {
    && (!v.alive ==> v.announced) && (SomeClaimed(v) ==> v.announced)
    && (forall id: nat :: Busy(v, id) ==> v.announced)
    && (v.announced && v.alive ==> SomeBusy(v) || SomeClaimed(v))
  }

  lemma StepKeepsMarked(v: View, s: Step)
    requires Inv(v) && Marked(v) && Enabled(v, s)
    ensures Marked(Next(v, s))
  {
    var n := Next(v, s);
    forall id: nat ensures Busy(n, id) || StopOf(n, id).Claimed? ==> n.announced {
      assert Busy(n, id) ==> Busy(v, id) || n.announced;
      assert StopOf(n, id).Claimed? ==> StopOf(v, id).Claimed? || n.announced;
    }
    match s {
      case Exchanges(id) => if !v.announced { assert Busy(n, id); } else { StillOwing(v, n); }
      case StopClaims(id) => assert StopOf(n, id).Claimed?;
      case StopStoresDead(id) => assert StopOf(v, id).Claimed?;
      case Fires(id) => assert Busy(v, id) && PastMarking(v, id);
      case StoresDead(id) => assert Busy(v, id);
      case CopiesCallback(id) => assert Busy(v, id); assert Busy(n, id);
      case SetOnDied(_) => StillOwing(v, n);
    }
  }

  lemma StillOwing(v: View, n: View)
    requires n.announcers == v.announcers && n.stoppers == v.stoppers
    ensures SomeBusy(v) ==> SomeBusy(n)
    ensures SomeClaimed(v) ==> SomeClaimed(n)
  {
    if SomeBusy(v) {
      var id: nat :| Busy(v, id);
      assert Busy(n, id);
    }
    if SomeClaimed(v) {
      var id: nat :| StopOf(v, id).Claimed?;
      assert StopOf(n, id).Claimed?;
    }
  }

  lemma {:induction false} RunKeepsMarked(v: View, steps: seq<Step>)
    requires Inv(v) && Marked(v) && Run(v, steps).Some?
    ensures Marked(Run(v, steps).value)
    decreases |steps|
  {
    if steps != [] {
      StepKeepsInv(v, steps[0]);
      StepKeepsMarked(v, steps[0]);
      RunKeepsMarked(Next(v, steps[0]), steps[1..]);
    }
  }

  /** Once announcers and teardowns are through, the view reports itself alive exactly if
      none of them ever came. */
  lemma AliveExactlyWhen(steps: seq<Step>)
    requires Run(START, steps).Some?
    requires !SomeBusy(Run(START, steps).value) && !SomeClaimed(Run(START, steps).value)
    ensures Run(START, steps).value.alive <==> forall i | 0 <= i < |steps| :: !Ends(steps[i])
  {
    RunKeepsMarked(START, steps);
    FirstEndDecides(START, steps);
    FirstIsAnEnd(steps);
  }
}
