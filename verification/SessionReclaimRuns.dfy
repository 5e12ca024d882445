/** One reclaim request over a whole run: what it evicts, when, and how busy its candidates became meanwhile. */
module SessionReclaimRuns {
  import opened Results
  import opened Sequences
  import opened Sessions
  import opened SessionRuns
  import opened SessionReclaim

  // --- the evictions of one request ---

  /** The candidates a request has still to evict. */
  function Left(g: Gateway, r: nat): seq<nat> {
    if r in g.reclaims && g.reclaims[r].Reclaiming? then g.reclaims[r].rest else []
  }

  /** The candidates before the request's next turn, when this event is one. */
  function TurnList(g: Gateway, e: Event, r: nat): seq<nat> {
    match e
    case Post(p, _, cs, _) => if p == r && Enabled(g, e) && Full(g) then cs else []
    case ReclaimResumes(p) => if p == r then Left(g, r) else []
    case _ => []
  }

  /** What the event evicts for the request. */
  function Evicts(g: Gateway, e: Event, r: nat): seq<nat> {
    if Full(g) && TurnList(g, e, r) != [] then TurnList(g, e, r)[..1] else []
  }

  function EvictedBy(g: Gateway, es: seq<Event>, r: nat): seq<nat> {
    if es == [] then []
    else EvictedBy(g, es[..|es| - 1], r) + Evicts(After(g, es[..|es| - 1]), es[|es| - 1], r)
  }

  predicate TurnOf(e: Event, r: nat) { (e.Post? && e.r == r) || (e.ReclaimResumes? && e.r == r) }

  /** A turn closes no session but the one it evicts, and only while no slot is free. */
  lemma TurnCloses(g: Gateway, e: Event, r: nat, y: nat)
    requires TurnOf(e, r) && Open(g, y) && !Open(Step(g, e), y)
    ensures Full(g) && Evicts(g, e, r) == [y]
  {}

  predicate SameReclaim(g: Gateway, h: Gateway, r: nat) {
    (r in h.reclaims <==> r in g.reclaims) && (r in g.reclaims ==> h.reclaims[r] == g.reclaims[r])
  }

  lemma AdmissionLeft(g: Gateway, e: Event, r: nat)
    requires (e.Post? || e.ReclaimResumes? || e.Decide?) && e.r != r
    ensures SameReclaim(g, Step(g, e), r)
  {}

  lemma SlotLeft(g: Gateway, e: Event)
    requires e.Connects? || e.HandlerReturns? || e.SlotReleased? || e.Initializes? || e.RequestStarts? || e.RequestEnds?
    ensures Step(g, e).reclaims == g.reclaims
  {}

  lemma ClosingLeft(g: Gateway, e: Event)
    requires e.Disposes? || e.TransportEnds? || e.Sweep? || e.CatalogChanges? || e.ShutdownBegins? || e.ShutdownEnds?
    ensures Step(g, e).reclaims == g.reclaims
  {}

  lemma LeftStays(g: Gateway, e: Event, r: nat)
    requires !TurnOf(e, r) && !(e.Decide? && e.r == r)
    ensures SameReclaim(g, Step(g, e), r)
  {
    if e.Post? || e.ReclaimResumes? || e.Decide? {
      AdmissionLeft(g, e, r);
    } else if e.Disposes? || e.TransportEnds? || e.Sweep? || e.CatalogChanges? || e.ShutdownBegins? || e.ShutdownEnds? {
      ClosingLeft(g, e);
    } else {
      SlotLeft(g, e);
    }
  }

  lemma LeftStep(g: Gateway, e: Event, r: nat)
    requires !(e.Post? && e.r == r)
    ensures Evicts(g, e, r) + Left(Step(g, e), r) <= Left(g, r)
    ensures Left(Step(g, e), r) == Left(g, r)[|Evicts(g, e, r)|..] || Left(Step(g, e), r) == []
  {
    if e.ReclaimResumes? && e.r == r {
      var left := Left(g, r);
      if left != [] { assert left == left[..1] + left[1..]; }
    } else if e.Decide? && e.r == r {
    } else {
      LeftStays(g, e, r);
    }
  }

  /** No later initialise request reuses the name. */
  predicate NoneReuses(es: seq<Event>, r: nat) { forall e :: e in es ==> !(e.Post? && e.r == r) }

  lemma FirstTurn(g: Gateway, r: nat, x: nat, cs: seq<nat>, now: int)
    requires Enabled(g, Post(r, x, cs, now)) && Full(g)
    ensures var p := Post(r, x, cs, now); Evicts(g, p, r) + Left(Step(g, p), r) == cs
  {
    if cs != [] { assert cs == cs[..1] + cs[1..]; }
  }

  lemma {:induction false} EvictedSoFar(
    g: Gateway, r: nat, x: nat, cs: seq<nat>, now: int, es: seq<Event>)
    requires Enabled(g, Post(r, x, cs, now)) && Full(g) && NoneReuses(es, r)
    ensures var run := [Post(r, x, cs, now)] + es;
            EvictedBy(g, run, r) + Left(After(g, run), r) <= cs
  {
    var p := Post(r, x, cs, now);
    var run := [p] + es;
    if es == [] {
      FirstTurn(g, r, x, cs, now);
      assert run == [p] && run[..0] == [] && [] + Evicts(g, p, r) == Evicts(g, p, r);
    } else {
      var front := es[..|es| - 1];
      assert forall e :: e in front ==> e in es;
      EvictedSoFar(g, r, x, cs, now, front);
      assert es[|es| - 1] in es;
      assert run[..|run| - 1] == [p] + front && run[|run| - 1] == es[|es| - 1];
      var mid := After(g, [p] + front);
      LeftStep(mid, es[|es| - 1], r);
      PrefixExtends(EvictedBy(g, [p] + front, r), Evicts(mid, es[|es| - 1], r), Left(After(g, run), r), Left(mid, r),
                    cs);
    }
  }

  lemma PrefixExtends(a: seq<nat>, b: seq<nat>, c: seq<nat>, d: seq<nat>, all: seq<nat>)
    requires b + c <= d && a + d <= all
    ensures a + b + c <= all
  {
    Associates(a, b, c);
  }

  /**
   Whatever runs between its turns, an initialise request that found no capacity evicts distinct sessions that were
   reclaimable at its scan, in the scan's order, least recently active first.
   */
  lemma EvictsInScanOrder(g: Gateway, r: nat, x: nat, cs: seq<nat>, now: int, es: seq<Event>, i: nat, j: nat)
    requires Enabled(g, Post(r, x, cs, now)) && Full(g) && NoneReuses(es, r)
    ensures var evicted := EvictedBy(g, [Post(r, x, cs, now)] + es, r);
            && evicted <= cs
            && (i < |evicted| ==> Reclaimable(g, evicted[i], now))
            && (i < j < |evicted| ==>
                  && evicted[i] != evicted[j] && evicted[i] in g.entries && evicted[j] in g.entries
                  && g.entries[evicted[i]].lastActivityAt <= g.entries[evicted[j]].lastActivityAt)
  {
    EvictedSoFar(g, r, x, cs, now, es);
    var run := [Post(r, x, cs, now)] + es;
    var evicted := EvictedBy(g, run, r);
    assert evicted <= evicted + Left(After(g, run), r);
    assert evicted == cs[..|evicted|];
    if i < |evicted| { assert cs[i] in cs; }
  }

  lemma {:induction false} EvictedGrows(g: Gateway, es: seq<Event>, r: nat, k: nat)
    requires k <= |es|
    ensures EvictedBy(g, es[..k], r) <= EvictedBy(g, es, r)
    decreases |es|
  {
    if k == |es| {
      assert es[..k] == es;
    } else {
      assert es[..|es| - 1][..k] == es[..k];
      EvictedGrows(g, es[..|es| - 1], r, k);
    }
  }

  /** A turn of the request closes this session. */
  predicate ClosesAtTurn(g: Gateway, e: Event, r: nat, y: nat) {
    TurnOf(e, r) && Open(g, y) && !Open(Step(g, e), y)
  }

  lemma PrefixEnd<T>(a: seq<T>, y: T, all: seq<T>)
    requires a + [y] <= all
    ensures |a| < |all| && all[|a|] == y
  {
    assert all[|a|] == (a + [y])[|a|];
  }

  lemma EvictedAt(g: Gateway, run: seq<Event>, r: nat, k: nat, y: nat)
    requires k < |run| && ClosesAtTurn(After(g, run[..k]), run[k], r, y)
    ensures Full(After(g, run[..k]))
    ensures var at := |EvictedBy(g, run[..k], r)|;
            at < |EvictedBy(g, run, r)| && EvictedBy(g, run, r)[at] == y
  {
    TurnCloses(After(g, run[..k]), run[k], r, y);
    var upTo := run[..k + 1];
    assert upTo[..k] == run[..k] && upTo[k] == run[k];
    EvictedGrows(g, run, r, k + 1);
    PrefixEnd(EvictedBy(g, run[..k], r), y, EvictedBy(g, run, r));
  }

  /** And nothing else: what a turn of the request closes, it closes while no slot is free, and it is one of these. */
  lemma TurnsCloseEvicted(g: Gateway, r: nat, x: nat, cs: seq<nat>, now: int, es: seq<Event>, k: nat, y: nat)
    requires Enabled(g, Post(r, x, cs, now)) && Full(g) && NoneReuses(es, r) && k <= |es|
    requires var run := [Post(r, x, cs, now)] + es;
             ClosesAtTurn(After(g, run[..k]), run[k], r, y)
    ensures var run := [Post(r, x, cs, now)] + es;
            Full(After(g, run[..k])) && y in EvictedBy(g, run, r) && Reclaimable(g, y, now)
  {
    var run := [Post(r, x, cs, now)] + es;
    EvictedAt(g, run, r, k, y);
    var at := |EvictedBy(g, run[..k], r)|;
    EvictsInScanOrder(g, r, x, cs, now, es, at, at);
  }

  // --- what happens to a candidate meanwhile ---

  /** The event begins or ends a request on the entry, or registers it: what stamps its activity. */
  predicate Touches(g: Gateway, e: Event, x: nat) {
    && Enabled(g, e)
    && match e
       case Connects(r, succeeded, _) => succeeded && g.slots[r].entry == x
       case Initializes(r, _, _) => g.slots[r].entry == x
       case HandlerReturns(r, _) => g.slots[r].entry == x
       case RequestStarts(_, s, _, _) => g.sessions[s] == x
       case RequestEnds(q, _) => g.requests[q] == x
       case _ => false
  }

  /** The time a touching event stamps. */
  function TimeOf(e: Event): int {
    match e
    case Connects(_, _, now) => now
    case Initializes(_, _, now) => now
    case HandlerReturns(_, now) => now
    case RequestStarts(_, _, _, now) => now
    case RequestEnds(_, now) => now
    case _ => 0
  }

  predicate SameActivity(a: Entry, b: Entry) {
    a.lastActivityAt == b.lastActivityAt && a.activeRequestCount == b.activeRequestCount
  }

  /** Either the event touches the entry and stamps its time, or the entry's activity stays as it was. */
  predicate Stamped(g: Gateway, e: Event, x: nat) {
    && x in g.entries && x in Step(g, e).entries
    && if Touches(g, e, x) then Step(g, e).entries[x].lastActivityAt == TimeOf(e)
       else SameActivity(Step(g, e).entries[x], g.entries[x])
  }

  /** The same entry with the same activity in both states. */
  predicate Kept(g: Gateway, h: Gateway, x: nat) {
    x in g.entries && x in h.entries && SameActivity(h.entries[x], g.entries[x])
  }

  lemma NoticeKeepsActivity(e: Entry, reason: Reason)
    ensures SameActivity(NotifyClosed(e, reason), e) && SameActivity(WithReason(e, reason), e)
  {}

  lemma CloseKeepsActivity(e: Entry, reason: Reason, changes: nat)
    ensures SameActivity(CloseEntry(e, reason, changes), e)
  {
    var named := WithReason(e, reason);
    NoticeKeepsActivity(e, reason);
    NoticeKeepsActivity(named, reason);
    NoticeKeepsActivity(named.(closing := true, subscribed := false, closedAt := Some(changes)), reason);
  }

  lemma TurnKeeps(g: Gateway, r: nat, rest: seq<nat>, x: nat)
    requires x in g.entries
    ensures Kept(g, ReclaimTurn(g, r, rest), x)
  {
    if rest != [] && rest[0] in g.entries { CloseKeepsActivity(g.entries[rest[0]], CapacityReclaimed, g.changes); }
  }

  lemma PostStamps(g: Gateway, e: Event, x: nat)
    requires x in g.entries && e.Post?
    ensures Stamped(g, e, x)
  {
    TurnKeeps(g, e.r, e.candidates, x);
  }

  lemma ReclaimStamps(g: Gateway, e: Event, x: nat)
    requires x in g.entries && (e.ReclaimResumes? || e.Decide?)
    ensures Stamped(g, e, x)
  {
    if e.ReclaimResumes? && Enabled(g, e) { TurnKeeps(g, e.r, g.reclaims[e.r].rest, x); }
  }

  lemma ConnectStamps(g: Gateway, e: Event, x: nat)
    requires x in g.entries && Held(g.slots, g.entries) && e.Connects?
    ensures Stamped(g, e, x)
  {}

  lemma SlotStamps(g: Gateway, e: Event, x: nat)
    requires x in g.entries && Held(g.slots, g.entries) && (e.HandlerReturns? || e.SlotReleased?)
    ensures Stamped(g, e, x)
  {}

  lemma SessionStamps(g: Gateway, e: Event, x: nat)
    requires x in g.entries && Linked(g.sessions, g.entries)
    requires e.Initializes? || e.RequestStarts? || e.RequestEnds?
    ensures Stamped(g, e, x)
  {}

  lemma DisposeAllKeeps(g: Gateway, xs: set<nat>, reason: Reason, x: nat)
    requires x in g.entries
    ensures Kept(g, DisposeAll(g, xs, reason), x)
  {
    CloseKeepsActivity(g.entries[x], reason, g.changes);
  }

  lemma ClosingStamps(g: Gateway, e: Event, x: nat)
    requires x in g.entries && (e.Disposes? || e.TransportEnds?)
    ensures Stamped(g, e, x)
  {
    match e
    case Disposes(y, reason) => CloseKeepsActivity(g.entries[x], reason, g.changes);
    case TransportEnds(y) => CloseKeepsActivity(g.entries[x], TransportClosed, g.changes);
    case _ =>
  }

  lemma SweepingStamps(g: Gateway, e: Event, x: nat)
    requires x in g.entries && (e.Sweep? || e.CatalogChanges? || e.ShutdownBegins? || e.ShutdownEnds?)
    ensures Stamped(g, e, x)
  {
    match e
    case Sweep(now) => DisposeAllKeeps(g, SweptSet(g, now), IdleTimeout, x);
    case ShutdownBegins => DisposeAllKeeps(g, Registered(g.sessions), GatewayShutdown, x);
    case _ =>
  }

  lemma StepStamps(g: Gateway, e: Event, x: nat)
    requires x in g.entries && Counted(g)
    ensures Stamped(g, e, x)
  {
    if e.Post? {
      PostStamps(g, e, x);
    } else if e.ReclaimResumes? || e.Decide? {
      ReclaimStamps(g, e, x);
    } else if e.Connects? {
      ConnectStamps(g, e, x);
    } else if e.HandlerReturns? || e.SlotReleased? {
      SlotStamps(g, e, x);
    } else if e.Initializes? || e.RequestStarts? || e.RequestEnds? {
      SessionStamps(g, e, x);
    } else if e.Disposes? || e.TransportEnds? {
      ClosingStamps(g, e, x);
    } else {
      SweepingStamps(g, e, x);
    }
  }

  function Leaves(g: Gateway, x: nat): (seq<Event>, Event) -> bool {
    (before, e) => !Touches(After(g, before), e, x)
  }

  predicate Untouched(g: Gateway, es: seq<Event>, x: nat) { Everywhere(es, Leaves(g, x)) }

  /** The clock does not run back behind the scan: no request is stamped earlier. */
  predicate NotBefore(es: seq<Event>, now: int) {
    forall e :: e in es ==>
      e.Connects? || e.Initializes? || e.HandlerReturns? || e.RequestStarts? || e.RequestEnds? ==> TimeOf(e) >= now
  }

  /** The time of the last request that began or ended on the entry, if any did. */
  function LastTouch(g: Gateway, es: seq<Event>, x: nat): Option<int> {
    if es == [] then None
    else if Touches(After(g, es[..|es| - 1]), es[|es| - 1], x) then Some(TimeOf(es[|es| - 1]))
    else LastTouch(g, es[..|es| - 1], x)
  }

  lemma {:induction false} LastTouchStamps(g: Gateway, es: seq<Event>, x: nat)
    requires Inv(g) && x in g.entries
    ensures x in After(g, es).entries
    ensures match LastTouch(g, es, x)
            case None => SameActivity(After(g, es).entries[x], g.entries[x])
            case Some(last) => After(g, es).entries[x].lastActivityAt == last
  {
    if es != [] {
      var front := es[..|es| - 1];
      LastTouchStamps(g, front, x);
      RunKeeps(g, front);
      StepStamps(After(g, front), es[|es| - 1], x);
    }
  }

  lemma {:induction false} UntouchedHasNoLast(g: Gateway, es: seq<Event>, x: nat)
    ensures Untouched(g, es, x) <==> LastTouch(g, es, x).None?
  {
    if es != [] {
      UntouchedHasNoLast(g, es[..|es| - 1], x);
      EverywhereLast(es, Leaves(g, x));
    }
  }

  lemma {:induction false} LastTouchNotBefore(g: Gateway, es: seq<Event>, x: nat, now: int)
    requires NotBefore(es, now)
    ensures LastTouch(g, es, x).Some? ==> LastTouch(g, es, x).value >= now
  {
    if es != [] {
      var front := es[..|es| - 1];
      assert forall e :: e in front ==> e in es;
      assert es[|es| - 1] in es;
      LastTouchNotBefore(g, front, x, now);
    }
  }

  /**
   A candidate that is still registered and open when its turn comes is reclaimable at the clock of that turn if and
   only if no request began or ended on it since the scan, or none is in progress and the last that did is a reclaim
   period old.
   */
  lemma IdleAtTurn(g: Gateway, es: seq<Event>, x: nat, now: int, later: int)
    requires Inv(g) && Reclaimable(g, x, now) && now <= later
    requires Open(After(g, es), x) && x in Registered(After(g, es).sessions)
    ensures Reclaimable(After(g, es), x, later)
            <==> match LastTouch(g, es, x)
                 case None => true
                 case Some(last) =>
                   After(g, es).entries[x].activeRequestCount == 0 && last <= later - g.policy.capacityReclaimIdleMs
  {
    LastTouchStamps(g, es, x);
    RunKeeps(g, es);
  }

  /** By the scan's own clock it still meets the scan's condition if and only if no request began or ended on it. */
  lemma IdleIffUntouched(g: Gateway, es: seq<Event>, x: nat, now: int)
    requires Inv(g) && Reclaimable(g, x, now) && g.policy.capacityReclaimIdleMs > 0
    requires NotBefore(es, now)
    requires Open(After(g, es), x) && x in Registered(After(g, es).sessions)
    ensures Reclaimable(After(g, es), x, now) <==> Untouched(g, es, x)
  {
    IdleAtTurn(g, es, x, now, now);
    LastTouchNotBefore(g, es, x, now);
    UntouchedHasNoLast(g, es, x);
  }
}
