/**
 One drain layer: an accepting flag, a generation, a counter of admitted requests and the drain
 waiters.  The control layer of the cutover gate and the Gateway's traffic gate are both such a layer
 (apps/runtime-host/src/cutover.ts, apps/gateway/src/app.ts); every function below is one step that
 runs without an intervening `await`.
 */
module Drains {
  import opened Results

  /** What a drain promise resolves to, with the layer's generation and counter at that moment. */
  datatype Report = Report(drained: bool, timedOut: bool, interrupted: bool, generation: nat, active: int)

  datatype Layer = Layer(
    open: bool,
    generation: nat,
    active: int,
    permits: seq<bool>,         // the `released` flag of each counted admission's release closure
    waiters: map<nat, nat>,     // registered drain -> the generation it expects
    settled: map<nat, Report>,  // resolved drain -> its report
    begun: nat)                 // drains started so far; also the next drain's identity

  const FRESH := Layer(true, 0, 0, [], map[], map[], 0)

  /** The bound of the source's clamp when a request is released. */
  function AtLeastZero(n: int): int { if n < 0 then 0 else n }

  // --- waiters ---

  function Finish(l: Layer, w: nat, drained: bool, timedOut: bool, interrupted: bool): Layer {
    l.(waiters := l.waiters - {w},
       settled := l.settled[w := Report(drained, timedOut, interrupted, l.generation, l.active)])
  }

  /** A waiter's check leaves it registered exactly when it is not due. */
  predicate Due(l: Layer, w: nat)
    requires w in l.waiters
  {
    l.open || l.generation != l.waiters[w] || l.active == 0
  }

  function Verdict(l: Layer, w: nat): Report
    requires w in l.waiters
  {
    if l.open || l.generation != l.waiters[w]
    then Report(false, false, true, l.generation, l.active)
    else Report(true, false, false, l.generation, l.active)
  }

  /** A waiter's check: settle it if it is due. */
  function Check(l: Layer, w: nat): Layer
    requires w in l.waiters
  {
    if !Due(l, w) then l
    else l.(waiters := l.waiters - {w}, settled := l.settled[w := Verdict(l, w)])
  }

  predicate Fires(l: Layer, done: set<nat>, w: nat) {
    w in l.waiters && w in done && Due(l, w)
  }

  /** The layer after the checks of the waiters in `done` have run. */
  function NotifySome(l: Layer, done: set<nat>): Layer {
    l.(waiters := map w | w in l.waiters && !Fires(l, done, w) :: l.waiters[w],
       settled := map w | w in l.settled.Keys + l.waiters.Keys && (w in l.settled || Fires(l, done, w))
                    :: if Fires(l, done, w) then Verdict(l, w) else l.settled[w])
  }

  function Notify(l: Layer): Layer { NotifySome(l, l.waiters.Keys) }

  /** Checks do not disturb one another, so the order in which a notification runs them is immaterial. */
  lemma NotifyOne(l: Layer, done: set<nat>, w: nat)
    requires w in l.waiters && w !in done
    ensures w in NotifySome(l, done).waiters
    ensures Check(NotifySome(l, done), w) == NotifySome(l, done + {w})
  {
    var some, more := NotifySome(l, done), NotifySome(l, done + {w});
    assert w in some.waiters && Due(some, w) == Due(l, w) && Verdict(some, w) == Verdict(l, w);
    assert Check(some, w).waiters == more.waiters;
    assert Check(some, w).settled == more.settled;
  }

  // --- steps ---

  function Admit(l: Layer): Layer {
    l.(active := l.active + 1, permits := l.permits + [false])
  }

  function Release(l: Layer, permit: nat): Layer {
    if permit >= |l.permits| || l.permits[permit] then l
    else Notify(l.(active := AtLeastZero(l.active - 1), permits := l.permits[permit := true]))
  }

  function Quiesce(l: Layer): Layer {
    if l.open then Notify(l.(open := false, generation := l.generation + 1)) else l
  }

  function Reopen(l: Layer): Layer {
    Notify(l.(open := true, generation := l.generation + 1))
  }

  function Resume(l: Layer): Layer {
    if l.open then l else Reopen(l)
  }

  function Close(l: Layer): Layer {
    Notify(if l.open then l.(open := false, generation := l.generation + 1) else l)
  }

  /** Starts a drain at the current generation; the drain's identity is `l.begun`. */
  function Wait(l: Layer): Layer {
    var begun := l.(begun := l.begun + 1);
    if l.active == 0
    then Finish(begun, l.begun, true, false, false)
    else begun.(waiters := begun.waiters[l.begun := l.generation])
  }

  function TimeOut(l: Layer, w: nat): Layer {
    if w in l.waiters then Finish(l, w, false, true, false) else l
  }

  // --- what every step keeps ---

  /** Admitted and not yet released. */
  function Outstanding(permits: seq<bool>): (n: nat)
    ensures n <= |permits|
  {
    if permits == [] then 0
    else Outstanding(permits[..|permits| - 1]) + if permits[|permits| - 1] then 0 else 1
  }

  predicate ExactlyOne(r: Report) {
    && (r.drained || r.timedOut || r.interrupted)
    && !(r.drained && r.timedOut) && !(r.drained && r.interrupted) && !(r.timedOut && r.interrupted)
  }

  /** The conservation and no-lost-wake-up invariant. */
  ghost predicate Ok(l: Layer) {
    && l.active == Outstanding(l.permits)
    && (forall w: nat :: w < l.begun <==> w in l.waiters || w in l.settled)
    && (forall w: nat :: w in l.waiters ==> w !in l.settled)
    && (forall w: nat :: w in l.waiters ==> l.waiters[w] == l.generation && !l.open && l.active > 0)
    && (forall w: nat :: w in l.settled ==>
          ExactlyOne(l.settled[w]) && l.settled[w].generation <= l.generation && l.settled[w].active >= 0)
    && (forall w: nat :: w in l.settled && l.settled[w].drained ==>
          && l.settled[w].active == 0
          && (l.settled[w].generation == l.generation ==> !l.open && l.active == 0))
  }

  /** What holds between any state and any later one, whatever ran in between. */
  ghost predicate Evolves(a: Layer, b: Layer) {
    && a.generation <= b.generation
    && (a.generation == b.generation ==> a.open == b.open)
    && |a.permits| <= |b.permits|
    && (a.generation == b.generation && !a.open ==> |a.permits| == |b.permits|)
    && (a.generation == b.generation && !a.open ==> b.active <= a.active)
    && (forall p :: 0 <= p < |a.permits| && a.permits[p] ==> b.permits[p])
    && a.begun <= b.begun
    && (forall w: nat :: w in a.settled ==> w in b.settled && b.settled[w] == a.settled[w])
    && (forall w: nat :: w in a.waiters && w in b.waiters ==> b.waiters[w] == a.waiters[w])
    && (forall w: nat :: w in a.waiters && w in b.settled && b.settled[w].drained ==>
          b.settled[w].generation == a.waiters[w])
  }

  lemma {:induction false} OutstandingReleased(permits: seq<bool>, p: nat)
    requires p < |permits| && !permits[p]
    ensures Outstanding(permits[p := true]) == Outstanding(permits) - 1
  {
    var last := |permits| - 1;
    if p == last {
      assert permits[p := true][..last] == permits[..last];
    } else {
      assert permits[p := true][..last] == permits[..last][p := true];
      OutstandingReleased(permits[..last], p);
    }
  }

  lemma FreshOk()
    ensures Ok(FRESH)
  {
    assert Outstanding([]) == 0;
  }

  lemma EvolvesReflexive(l: Layer)
    requires Ok(l)
    ensures Evolves(l, l)
  {
  }

  lemma AdmitKeeps(l: Layer)
    requires Ok(l) && l.open
    ensures Ok(Admit(l)) && Evolves(l, Admit(l))
  {
    assert (l.permits + [false])[..|l.permits|] == l.permits;
  }

  /** Releasing takes the counter down by exactly one the first time and changes nothing after; the clamp never acts. */
  lemma ReleaseKeeps(l: Layer, permit: nat)
    requires Ok(l)
    ensures Ok(Release(l, permit)) && Evolves(l, Release(l, permit))
    ensures permit < |l.permits| && !l.permits[permit] ==> Release(l, permit).active == l.active - 1 >= 0
    ensures Release(Release(l, permit), permit) == Release(l, permit)
  {
    if permit < |l.permits| && !l.permits[permit] {
      OutstandingReleased(l.permits, permit);
    }
  }

  lemma QuiesceKeeps(l: Layer)
    requires Ok(l)
    ensures Ok(Quiesce(l)) && Evolves(l, Quiesce(l))
  {
  }

  lemma ReopenKeeps(l: Layer)
    requires Ok(l)
    ensures Ok(Reopen(l)) && Evolves(l, Reopen(l)) && Reopen(l).waiters == map[]
  {
  }

  lemma CloseKeeps(l: Layer)
    requires Ok(l)
    ensures Ok(Close(l)) && Evolves(l, Close(l)) && Close(l) == Quiesce(l)
  {
    if !l.open {
      assert forall w :: w in l.waiters ==> !Due(l, w);
      assert Notify(l).waiters == l.waiters;
      assert Notify(l).settled == l.settled;
    }
  }

  lemma WaitKeeps(l: Layer)
    requires Ok(l) && !l.open
    ensures Ok(Wait(l)) && Evolves(l, Wait(l))
  {
  }

  lemma TimeOutKeeps(l: Layer, w: nat)
    requires Ok(l)
    ensures Ok(TimeOut(l, w)) && Evolves(l, TimeOut(l, w))
  {
  }

  lemma EvolvesTransitive(a: Layer, b: Layer, c: Layer)
    requires Ok(a) && Ok(b) && Ok(c) && Evolves(a, b) && Evolves(b, c)
    ensures Evolves(a, c)
  {
  }

  lemma ResumeKeeps(l: Layer)
    requires Ok(l)
    ensures Ok(Resume(l)) && Evolves(l, Resume(l))
    ensures Ok(Quiesce(Resume(l))) && Evolves(l, Quiesce(Resume(l)))
  {
    EvolvesReflexive(l);
    ReopenKeeps(l);
    QuiesceKeeps(Resume(l));
    EvolvesTransitive(l, Resume(l), Quiesce(Resume(l)));
  }

  // --- any step ---

  /** Every way a layer is moved by one atomic step of either gate. */
  datatype Move =
    | Stay | Enter | Leave(permit: nat) | Expire(drain: nat) | Begin
    | Shut | Open | OpenIfShut | Bounce | ShutDown

  function Apply(l: Layer, m: Move): Layer {
    match m
    case Stay => l
    case Enter => if l.open then Admit(l) else l
    case Leave(permit) => Release(l, permit)
    case Expire(drain) => TimeOut(l, drain)
    case Begin => if l.open then l else Wait(l)
    case Shut => Quiesce(l)
    case Open => Reopen(l)
    case OpenIfShut => Resume(l)
    case Bounce => Quiesce(Resume(l))
    case ShutDown => Close(l)
  }

  lemma ApplyKeeps(l: Layer, m: Move)
    requires Ok(l)
    ensures Ok(Apply(l, m)) && Evolves(l, Apply(l, m))
  {
    EvolvesReflexive(l);
    match m
    case Enter => if l.open { AdmitKeeps(l); }
    case Leave(permit) => ReleaseKeeps(l, permit);
    case Expire(drain) => TimeOutKeeps(l, drain);
    case Begin => if !l.open { WaitKeeps(l); }
    case Shut => QuiesceKeeps(l);
    case Open => ReopenKeeps(l);
    case OpenIfShut => ResumeKeeps(l);
    case Bounce => ResumeKeeps(l);
    case ShutDown => CloseKeeps(l);
    case Stay =>
  }

  /** A closed layer keeps its generation under every move that does not reopen it on the way. */
  lemma ApplyClosed(l: Layer, m: Move)
    requires !l.open && !m.Bounce? && !Apply(l, m).open
    ensures Apply(l, m).generation == l.generation
  {
  }

  /**
   The fence: if a layer is closed and idle, and a later state has the same generation, then at every
   moment in between it was closed and idle and nothing had been admitted.
   */
  lemma Fence(a: Layer, m: Layer, b: Layer)
    requires Ok(m) && Evolves(a, m) && Evolves(m, b)
    requires !a.open && a.active == 0 && a.generation == b.generation
    ensures m.generation == a.generation && !m.open && m.active == 0 && |m.permits| == |a.permits|
  {
  }
}
