/** What ends a drain, and with which report (apps/runtime-host/src/cutover.ts, apps/gateway/src/app.ts). */
module DrainOutcomes {
  import opened Results
  import opened Drains
  import opened GatewayTraffic

  // --- drains ---

  /** Every drain that waited is settled with this report; the others keep theirs. */
  ghost predicate AllSettled(l: Layer, m: Layer, report: Report) {
    && m.waiters == map[]
    && (forall w :: w in l.waiters ==> w in m.settled && m.settled[w] == report)
    && (forall w :: w in l.settled && w !in l.waiters ==> w in m.settled && m.settled[w] == l.settled[w])
  }

  ghost predicate NoneSettled(l: Layer, m: Layer) { m.waiters == l.waiters && m.settled == l.settled }

  /** The end of the last outstanding request drains everything that waits; an earlier one settles nothing. */
  lemma ReleaseDrains(l: Layer, permit: nat)
    requires Ok(l) && !l.open && permit < |l.permits| && !l.permits[permit]
    ensures Outstanding(l.permits) == 1 ==>
              AllSettled(l, Drains.Release(l, permit), Report(true, false, false, l.generation, 0))
    ensures Outstanding(l.permits) > 1 ==> NoneSettled(l, Drains.Release(l, permit))
  {
    var m := l.(active := AtLeastZero(l.active - 1), permits := l.permits[permit := true]);
    if l.active > 1 {
      assert Notify(m).waiters == l.waiters;
      assert Notify(m).settled == l.settled;
    } else {
      assert Notify(m).waiters == map[];
    }
  }

  /** Reopening interrupts everything that waits. */
  lemma ReopenInterrupts(l: Layer)
    requires Ok(l)
    ensures AllSettled(l, Reopen(l), Report(false, false, true, l.generation + 1, l.active))
    ensures Reopen(l).open && Reopen(l).generation == l.generation + 1
  {
    assert Reopen(l).waiters == map[];
  }

  /** A timer times its own drain out, with the count of the moment, if it still waits; and no other. */
  lemma TimerTimesOut(l: Layer, w: nat)
    ensures w in l.waiters ==>
              TimeOut(l, w) == l.(waiters := l.waiters - {w},
                                  settled := l.settled[w := Report(false, true, false, l.generation, l.active)])
    ensures w !in l.waiters ==> TimeOut(l, w) == l
  {}

  // --- what the Gateway's traffic gate answers ---

  /** A closed gate refuses everything; an open one lets GETs pass uncounted and counts the rest. */
  lemma ArrivalAnswers(l: Layer, isGet: bool)
    ensures var (m, r) := AdmitRequest(l, isGet);
            && (r == Rejected503 <==> !l.open)
            && (r == Uncounted <==> l.open && isGet)
            && (r == Counted(|l.permits|) <==> l.open && !isGet)
            && (l.open && !isGet ==> m == l.(active := l.active + 1, permits := l.permits + [false]))
            && (!l.open || isGet ==> m == l)
  {}

  /** Resuming takes exactly the present generation, a safe integer, and opens a closed gate. */
  lemma ResumeAnswers(l: Layer, expected: int)
    ensures var (m, fault) := ResumeAt(l, expected);
            && (fault == None <==> expected == l.generation && expected <= 9007199254740991)
            && (fault == Some(InvalidInput) <==> !(0 <= expected <= 9007199254740991))
            && (fault == Some(StaleHash) <==> 0 <= expected <= 9007199254740991 && expected != l.generation)
            && (fault != None ==> m == l)
            && (fault == None ==> m.open && m.generation == l.generation + (if l.open then 0 else 1))
            && (fault == None ==> m.permits == l.permits)
  {}

  /** Waiting for idle takes the present generation, a closed gate and a timeout of at most five minutes. */
  lemma WaitAnswers(l: Layer, expected: int, timeoutMs: int)
    ensures var (m, r) := WaitForIdle(l, expected, timeoutMs);
            var named := expected == l.generation && expected <= 9007199254740991;
            && (r == Success(l.begun) <==> named && !l.open && 1 <= timeoutMs <= 300000)
            && (r.Failure? ==> m == l)
            && (r.Success? ==> r == Success(l.begun) && m == Wait(l))
            && (r == Failure(StaleHash) <==> 0 <= expected <= 9007199254740991 && expected != l.generation)
            && (r.Failure? ==> r.error == StaleHash || r.error == InvalidInput)
  {}
}
