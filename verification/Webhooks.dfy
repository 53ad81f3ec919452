/** De-duplication of provider events (internal/modules/orders/webhook.go): a claim
    committed under a row lock, then the handler, then the bookkeeping, with any
    number of deliveries of any event in flight. */
module Webhooks {

  datatype EventStatus = Received | Processed | Failed | ReplayDetected

  datatype EventRow = EventRow(digest: nat, status: EventStatus)

  /** A delivery that passed its claim and will be applied. */
  datatype Delivery = Delivery(event: nat, digest: nat)

  datatype Applied = Applied(event: nat, digest: nat, ok: bool)

  datatype State = State(table: map<nat, EventRow>, flight: seq<Delivery>, applied: seq<Applied>)

  datatype Outcome = Claimed | Duplicate | Mismatch

  /** A delivery may also be lost before its handler ran, or after it, before the
      bookkeeping was written. */
  datatype Step = Deliver(event: nat, digest: nat) | Finish(k: nat, ok: bool) | Crash(k: nat, ran: bool)

  const NOTHING: State := State(map[], [], [])

  /** The claim. The same event id with other bytes is recorded and refused; one
      already processed is acknowledged; everything else is applied. */
  function Claim(table: map<nat, EventRow>, event: nat, digest: nat): (Outcome, map<nat, EventRow>) {
    if event !in table then (Claimed, table[event := EventRow(digest, Received)])
    else if table[event].digest != digest then (Mismatch, table[event := table[event].(status := ReplayDetected)])
    else if table[event].status == Processed then (Duplicate, table)
    else (Claimed, table)
  }

  function Drop(flight: seq<Delivery>, k: nat): seq<Delivery>
    requires k < |flight|
  {
    flight[..k] + flight[k + 1..]
  }

  function Next(s: State, e: Step): State {
    match e
    case Deliver(event, digest) =>
      var (outcome, table) := Claim(s.table, event, digest);
      s.(table := table, flight := if outcome == Claimed then s.flight + [Delivery(event, digest)] else s.flight)
    case Finish(k, ok) =>
      if k >= |s.flight| || s.flight[k].event !in s.table then s else
      var d := s.flight[k];
      State(s.table[d.event := s.table[d.event].(status := if ok then Processed else Failed)],
            Drop(s.flight, k), s.applied + [Applied(d.event, d.digest, ok)])
    case Crash(k, ran) =>
      if k >= |s.flight| then s else
      var d := s.flight[k];
      s.(flight := Drop(s.flight, k),
         applied := if ran then s.applied + [Applied(d.event, d.digest, true)] else s.applied)
  }

  function Reach(steps: seq<Step>): State {
    if steps == [] then NOTHING else Next(Reach(steps[..|steps| - 1]), steps[|steps| - 1])
  }

  /** Everything applied, or about to be, is the content first received under its
      id, and an event is processed only after an application that succeeded. */
  predicate Faithful(s: State) {
    && (forall k :: 0 <= k < |s.flight| ==>
          s.flight[k].event in s.table && s.table[s.flight[k].event].digest == s.flight[k].digest)
    && (forall a :: 0 <= a < |s.applied| ==>
          s.applied[a].event in s.table && s.table[s.applied[a].event].digest == s.applied[a].digest)
    && (forall e :: e in s.table && s.table[e].status == Processed ==> Succeeded(s.applied, e))
  }

  predicate Succeeded(applied: seq<Applied>, event: nat) {
    exists a :: 0 <= a < |applied| && applied[a].event == event && applied[a].ok
  }

  lemma SucceededGrows(applied: seq<Applied>, a: Applied, event: nat)
    requires Succeeded(applied, event) || (a.event == event && a.ok)
    ensures Succeeded(applied + [a], event)
  {
    if Succeeded(applied, event) {
      var x :| 0 <= x < |applied| && applied[x].event == event && applied[x].ok;
      assert (applied + [a])[x] == applied[x];
    } else {
      assert (applied + [a])[|applied|] == a;
    }
  }

  lemma NextKeepsFaithful(s: State, e: Step)
    requires Faithful(s)
    ensures Faithful(Next(s, e))
    ensures forall event :: event in s.table ==>
              event in Next(s, e).table && Next(s, e).table[event].digest == s.table[event].digest
  {
    if !e.Deliver? && e.k < |s.flight| && (e.Crash? ==> e.ran) {
      var d := s.flight[e.k];
      var after := Next(s, e);
      forall x | x in after.table && after.table[x].status == Processed ensures Succeeded(after.applied, x) {
        SucceededGrows(s.applied, Applied(d.event, d.digest, e.Crash? || e.ok), x);
      }
    }
  }

  lemma {:induction false} ReachIsFaithful(steps: seq<Step>)
    ensures Faithful(Reach(steps))
  {
    if steps != [] {
      hide Faithful, Next;
      ReachIsFaithful(steps[..|steps| - 1]);
      NextKeepsFaithful(Reach(steps[..|steps| - 1]), steps[|steps| - 1]);
    } else {
      assert Faithful(NOTHING);
    }
  }

  /** Altered content is never applied: whatever is delivered, all applications of
      one event id carry the same bytes. */
  lemma NeverAltered(steps: seq<Step>, a: nat, b: nat)
    requires a < |Reach(steps).applied| && b < |Reach(steps).applied|
    requires Reach(steps).applied[a].event == Reach(steps).applied[b].event
    ensures Reach(steps).applied[a].digest == Reach(steps).applied[b].digest
  {
    ReachIsFaithful(steps);
    hide Reach, Succeeded;
  }

  /** A processed event was applied successfully. */
  lemma ProcessedMeansApplied(steps: seq<Step>, event: nat)
    requires event in Reach(steps).table && Reach(steps).table[event].status == Processed
    ensures Succeeded(Reach(steps).applied, event)
  {
    ReachIsFaithful(steps);
    hide Reach, Succeeded;
  }

  /** What a delivery is answered with and what it leaves: the first is recorded with
      its bytes and applied, one of other bytes is refused and marks the event as
      replayed, one of an event already processed changes nothing, and any other is
      applied once more. */
  lemma DeliveryIs(s: State, event: nat, digest: nat)
    ensures var (answer, _) := Claim(s.table, event, digest);
            var after := Next(s, Deliver(event, digest));
            var taken := s.flight + [Delivery(event, digest)];
            && after.applied == s.applied
            && (event !in s.table ==>
                  answer == Claimed && after.table == s.table[event := EventRow(digest, Received)]
                  && after.flight == taken)
            && (event in s.table && s.table[event].digest != digest ==>
                  answer == Mismatch && after.flight == s.flight
                  && after.table == s.table[event := EventRow(s.table[event].digest, ReplayDetected)])
            && (event in s.table && s.table[event] == EventRow(digest, Processed) ==>
                  answer == Duplicate && after == s)
            && (event in s.table && s.table[event].digest == digest && s.table[event].status != Processed ==>
                  answer == Claimed && after.table == s.table && after.flight == taken)
  {
  }

  /** What the end of a delivery leaves: an application that ends is written down,
      processed or failed; one that crashed is not, though it may have run. */
  lemma EndIs(s: State, k: nat)
    requires Faithful(s) && k < |s.flight|
    ensures var d := s.flight[k];
            var others := s.flight[..k] + s.flight[k + 1..];
            && (forall ok :: Next(s, Finish(k, ok))
                             == State(s.table[d.event := EventRow(d.digest, if ok then Processed else Failed)], others,
                                      s.applied + [Applied(d.event, d.digest, ok)]))
            && Next(s, Crash(k, true)) == State(s.table, others, s.applied + [Applied(d.event, d.digest, true)])
            && Next(s, Crash(k, false)) == State(s.table, others, s.applied)
  {
    hide Succeeded;
  }

  // ---- when a processed event is applied again -----------------------------------

  predicate IsProcessed(s: State, event: nat) {
    event in s.table && s.table[event].status == Processed
  }

  predicate InFlight(s: State, event: nat) {
    exists k :: 0 <= k < |s.flight| && s.flight[k].event == event
  }

  /** The step applies a delivery of the event that is in flight. */
  predicate Applies(s: State, e: Step, event: nat) {
    (e.Finish? || (e.Crash? && e.ran)) && e.k < |s.flight| && s.flight[e.k].event == event
  }

  /** A delivery of other bytes, or a failing end of an application in flight. */
  predicate Reopens(s: State, e: Step, event: nat)
    requires event in s.table
  {
    || (e.Deliver? && e.event == event && e.digest != s.table[event].digest)
    || (e.Finish? && !e.ok && Applies(s, e, event))
  }

  /** The mark of a processed event is lost by exactly those steps, and gained by
      exactly an application that succeeds and is written down. */
  lemma MarkIsLostIff(s: State, e: Step, event: nat)
    requires event in s.table
    ensures event in Next(s, e).table && Next(s, e).table[event].digest == s.table[event].digest
    ensures IsProcessed(s, event) ==> (!IsProcessed(Next(s, e), event) <==> Reopens(s, e, event))
    ensures !IsProcessed(s, event) ==> (IsProcessed(Next(s, e), event) <==> e.Finish? && e.ok && Applies(s, e, event))
  {
  }

  function From(s: State, steps: seq<Step>): State {
    if steps == [] then s else Next(From(s, steps[..|steps| - 1]), steps[|steps| - 1])
  }

  /** Some step took the mark of the processed event away. */
  predicate SomeReopening(s: State, steps: seq<Step>, event: nat) {
    steps != [] &&
    var init := steps[..|steps| - 1];
    || SomeReopening(s, init, event)
    || (IsProcessed(From(s, init), event) && Reopens(From(s, init), steps[|steps| - 1], event))
  }

  /** How many deliveries of the event are in flight. */
  function Waiting(flight: seq<Delivery>, event: nat): nat {
    if flight == [] then 0
    else Waiting(flight[..|flight| - 1], event) + if flight[|flight| - 1].event == event then 1 else 0
  }

  /** How many times the event was applied. */
  function Times(applied: seq<Applied>, event: nat): nat {
    if applied == [] then 0
    else Times(applied[..|applied| - 1], event) + if applied[|applied| - 1].event == event then 1 else 0
  }

  /** The step delivers the event's own bytes while it is not marked processed. */
  predicate LetsIn(s: State, e: Step, event: nat) {
    event in s.table && e == Deliver(event, s.table[event].digest) && !IsProcessed(s, event)
  }

  /** The step loses a delivery of the event before its handler ran. */
  predicate Loses(s: State, e: Step, event: nat) {
    e.Crash? && !e.ran && e.k < |s.flight| && s.flight[e.k].event == event
  }

  function LetIn(s: State, steps: seq<Step>, event: nat): nat {
    if steps == [] then 0 else
    var init := steps[..|steps| - 1];
    LetIn(s, init, event) + if LetsIn(From(s, init), steps[|steps| - 1], event) then 1 else 0
  }

  function LostUnrun(s: State, steps: seq<Step>, event: nat): nat {
    if steps == [] then 0 else
    var init := steps[..|steps| - 1];
    LostUnrun(s, init, event) + if Loses(From(s, init), steps[|steps| - 1], event) then 1 else 0
  }

  /** Applied once more after s. */
  predicate Reapplied(s: State, after: State, event: nat) {
    exists a :: |s.applied| <= a < |after.applied| && after.applied[a].event == event
  }

  lemma {:induction false} WaitingConcat(a: seq<Delivery>, b: seq<Delivery>, event: nat)
    ensures Waiting(a + b, event) == Waiting(a, event) + Waiting(b, event)
  {
    if b == [] {
      assert a + b == a;
    } else {
      var init := b[..|b| - 1];
      WaitingConcat(a, init, event);
      assert (a + b)[..|a + b| - 1] == a + init;
    }
  }

  lemma WaitingDrops(flight: seq<Delivery>, k: nat, event: nat)
    requires k < |flight|
    ensures Waiting(flight, event)
            == Waiting(Drop(flight, k), event) + if flight[k].event == event then 1 else 0
  {
    var before, one, rest := flight[..k], [flight[k]], flight[k + 1..];
    assert flight == (before + one) + rest && one[..0] == [];
    WaitingConcat(before + one, rest, event);
    WaitingConcat(before, one, event);
    WaitingConcat(before, rest, event);
  }

  lemma {:induction false} TimesConcat(a: seq<Applied>, b: seq<Applied>, event: nat)
    ensures Times(a + b, event) == Times(a, event) + Times(b, event)
    ensures Times(b, event) > 0 <==> exists n :: 0 <= n < |b| && b[n].event == event
  {
    if b == [] {
      assert a + b == a;
    } else {
      var init := b[..|b| - 1];
      TimesConcat(a, init, event);
      assert (a + b)[..|a + b| - 1] == a + init;
      assert forall n :: 0 <= n < |init| ==> init[n] == b[n];
    }
  }

  lemma ReappliedIff(s: State, after: State, event: nat)
    requires s.applied <= after.applied
    ensures Reapplied(s, after, event) <==> Times(after.applied, event) > Times(s.applied, event)
  {
    var more := after.applied[|s.applied|..];
    assert after.applied == s.applied + more;
    TimesConcat(s.applied, more, event);
    hide Times;
    forall n | 0 <= n < |more| ensures more[n] == after.applied[|s.applied| + n] {
    }
    if Reapplied(s, after, event) {
      var a :| |s.applied| <= a < |after.applied| && after.applied[a].event == event;
      assert more[a - |s.applied|].event == event;
    }
  }

  /** Each step turns a delivery into an application, lets one in, or loses one. */
  lemma StepBalances(s: State, e: Step, event: nat)
    requires Faithful(s) && event in s.table
    ensures var after := Next(s, e);
            && s.applied <= after.applied
            && Times(after.applied, event) + Waiting(after.flight, event) + (if Loses(s, e, event) then 1 else 0)
               == Times(s.applied, event) + Waiting(s.flight, event) + if LetsIn(s, e, event) then 1 else 0
  {
    hide Succeeded, Drop;
    match e
    case Deliver(x, digest) =>
      WaitingConcat(s.flight, [Delivery(x, digest)], event);
      assert [Delivery(x, digest)][..0] == [];
    case Finish(k, ok) =>
      if k < |s.flight| {
        WaitingDrops(s.flight, k, event);
        OneMoreTime(s.applied, Applied(s.flight[k].event, s.flight[k].digest, ok), event);
      }
    case Crash(k, ran) =>
      if k < |s.flight| {
        WaitingDrops(s.flight, k, event);
        OneMoreTime(s.applied, Applied(s.flight[k].event, s.flight[k].digest, true), event);
      }
  }

  lemma OneMoreTime(applied: seq<Applied>, a: Applied, event: nat)
    ensures Times(applied + [a], event) == Times(applied, event) + if a.event == event then 1 else 0
  {
    assert (applied + [a])[..|applied|] == applied;
  }

  lemma {:induction false} DeliveriesBalance(s: State, steps: seq<Step>, event: nat)
    requires Faithful(s) && IsProcessed(s, event)
    ensures var after := From(s, steps);
            && Faithful(after) && s.applied <= after.applied
            && event in after.table && after.table[event].digest == s.table[event].digest
            && (!IsProcessed(after, event) || LetIn(s, steps, event) > 0 ==> SomeReopening(s, steps, event))
            && Times(after.applied, event) + Waiting(after.flight, event) + LostUnrun(s, steps, event)
               == Times(s.applied, event) + Waiting(s.flight, event) + LetIn(s, steps, event)
  {
    hide Faithful, Next, Reopens, Times, Waiting, Loses;
    if steps == [] {
    } else {
      var init, e := steps[..|steps| - 1], steps[|steps| - 1];
      DeliveriesBalance(s, init, event);
      NextKeepsFaithful(From(s, init), e);
      MarkIsLostIff(From(s, init), e, event);
      StepBalances(From(s, init), e, event);
    }
  }

  /** From any reachable state with the event processed, over any further run: it is
      applied again exactly when the deliveries of it in flight there and those let in
      since outnumber the ones still in flight and the ones lost before their handler
      ran; and none is let in unless its mark was taken away. */
  lemma AppliedAgainIff(past: seq<Step>, steps: seq<Step>, event: nat)
    requires IsProcessed(Reach(past), event)
    ensures var s := Reach(past);
            var after := From(s, steps);
            && (Reapplied(s, after, event)
                <==> Waiting(s.flight, event) + LetIn(s, steps, event)
                     > Waiting(after.flight, event) + LostUnrun(s, steps, event))
            && (LetIn(s, steps, event) > 0 ==> SomeReopening(s, steps, event))
  {
    ReachIsFaithful(past);
    DeliveriesBalance(Reach(past), steps, event);
    hide Reach, From, LetIn, LostUnrun, Waiting, Times;
    ReappliedIff(Reach(past), From(Reach(past), steps), event);
  }

  /** No delivery of the event carries other bytes than those first received. */
  predicate Genuine(s: State, steps: seq<Step>, event: nat)
    requires event in s.table
  {
    forall n :: 0 <= n < |steps| && steps[n].Deliver? && steps[n].event == event ==>
      steps[n].digest == s.table[event].digest
  }

  /** Once processed and with no delivery of it in flight, an event is never applied
      again, however often it is delivered, as long as no delivery alters its bytes. */
  lemma {:induction false} ProcessedStaysProcessed(s: State, steps: seq<Step>, event: nat)
    requires IsProcessed(s, event) && !InFlight(s, event) && Genuine(s, steps, event)
    ensures var after := From(s, steps);
            && event in after.table && after.table[event] == s.table[event] && !InFlight(after, event)
            && s.applied <= after.applied && !Reapplied(s, after, event)
  {
    if steps == [] {
    } else {
      var init := steps[..|steps| - 1];
      assert Genuine(s, init, event) by {
        forall n | 0 <= n < |init| && init[n].Deliver? && init[n].event == event
          ensures init[n].digest == s.table[event].digest
        {
          assert steps[n] == init[n];
        }
      }
      ProcessedStaysProcessed(s, init, event);
    }
  }

  /** Retries of its own bytes can apply an event again exactly when a delivery of it
      is in flight or it is not marked processed. */
  lemma RetriesCanApplyIff(s: State, event: nat)
    requires event in s.table
    ensures (exists steps: seq<Step> :: Genuine(s, steps, event) && Reapplied(s, From(s, steps), event))
            <==> InFlight(s, event) || !IsProcessed(s, event)
  {
    if InFlight(s, event) {
      var k: nat :| k < |s.flight| && s.flight[k].event == event;
      OneFinish(s, k);
      assert Genuine(s, [Finish(k, true)], event);
    } else if !IsProcessed(s, event) {
      var steps := [Deliver(event, s.table[event].digest), Finish(|s.flight|, true)];
      assert Genuine(s, steps, event);
      assert steps[..1] == [steps[0]] && steps[..1][..0] == [];
      assert From(s, steps[..1]) == Next(s, steps[0]);
      var after := From(s, steps);
      assert after.applied[|s.applied|].event == event;
    } else {
      forall steps: seq<Step> | Genuine(s, steps, event) ensures !Reapplied(s, From(s, steps), event) {
        ProcessedStaysProcessed(s, steps, event);
      }
    }
  }

  lemma OneFinish(s: State, k: nat)
    requires k < |s.flight| && s.flight[k].event in s.table
    ensures Reapplied(s, From(s, [Finish(k, true)]), s.flight[k].event)
  {
    var steps := [Finish(k, true)];
    assert steps[..0] == [];
    assert From(s, steps) == Next(s, steps[0]);
    var after := From(s, steps);
    assert after.applied[|s.applied|].event == s.flight[k].event;
  }

  /** Two deliveries of the same bytes claimed before either is done: the event is
      processed by the first and applied a second time by the other. */
  lemma TwoInFlightApplyTwice(event: nat, genuine: nat)
    ensures var claims := [Deliver(event, genuine), Deliver(event, genuine)];
            && IsProcessed(Reach(claims + [Finish(0, true)]), event)
            && Reach(claims + [Finish(0, true)] + [Finish(0, true)]).applied
               == [Applied(event, genuine, true), Applied(event, genuine, true)]
  {
    var d := Delivery(event, genuine);
    var claims := [Deliver(event, genuine), Deliver(event, genuine)];
    assert claims[..1] == [claims[0]] && claims[..1][..0] == [];
    var s1 := State(map[event := EventRow(genuine, Received)], [d], []);
    assert map[][event := EventRow(genuine, Received)] == map[event := EventRow(genuine, Received)];
    assert Reach(claims[..1]) == s1;
    assert Reach(claims) == s1.(flight := [d, d]);
    var done := claims + [Finish(0, true)];
    assert done[..2] == claims && (done + [Finish(0, true)])[..3] == done;
    assert Drop([d, d], 0) == [d];
    var s3 := Reach(done);
    assert s3 == Next(Reach(claims), Finish(0, true));
    assert s3.flight == [d] && s3.applied == [Applied(event, genuine, true)] && event in s3.table;
  }

  /** One altered delivery reopens it: the mismatch overwrites the processed mark, and
      the next genuine retry is applied a second time. */
  lemma MismatchReopens(event: nat, genuine: nat, altered: nat)
    requires genuine != altered
    ensures var s := State(map[event := EventRow(genuine, Processed)], [], [Applied(event, genuine, true)]);
            var after := Next(Next(Next(s, Deliver(event, altered)), Deliver(event, genuine)), Finish(0, true));
            after.applied == [Applied(event, genuine, true), Applied(event, genuine, true)]
    ensures Reach([Deliver(event, genuine), Finish(0, true)])
            == State(map[event := EventRow(genuine, Processed)], [], [Applied(event, genuine, true)])
  {
    var steps := [Deliver(event, genuine), Finish(0, true)];
    assert steps[..1][..0] == [] && steps[..1] == [steps[0]];
    var s1 := State(map[event := EventRow(genuine, Received)], [Delivery(event, genuine)], []);
    assert map[][event := EventRow(genuine, Received)] == map[event := EventRow(genuine, Received)];
    assert Reach(steps[..1]) == s1;
    assert s1.table[event := EventRow(genuine, Processed)] == map[event := EventRow(genuine, Processed)];
    assert Drop(s1.flight, 0) == [];
    var s := State(map[event := EventRow(genuine, Processed)], [], [Applied(event, genuine, true)]);
    var s3 := Next(Next(s, Deliver(event, altered)), Deliver(event, genuine));
    assert s3.flight == [Delivery(event, genuine)];
  }
}
