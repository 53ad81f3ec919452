/** Refunds of one order running at the same time (internal/modules/orders/refund.go).

    Each transaction loads the order without a lock, then locks its item and reads
    what was refunded on it, then writes the order's total from what it loaded and
    moves the status by compare-and-set from the status it loaded, and commits.
    Any step can interleave with any other and any transaction can be aborted. */
module RefundRace {
  import opened Orders

  /** One refund: which item, and how much. */
  datatype Job = Job(item: nat, amount: int)

  /** `seen` is how many refunds had committed when the order was loaded. It and the
      count of commits are bookkeeping: nothing is decided by them. */
  datatype Pc =
    | Waiting
    | Loaded(status: Status, refunded: int, seen: nat)
    | ItemHeld(status: Status, refunded: int, already: int, seen: nat)
    | OrderHeld(refunded: int, already: int, seen: nat)
    | Committed
    | Refused

  /** What was paid for an item, and what was refunded of it. */
  datatype Line = Line(total: int, refunded: int)

  datatype State = State(
    lines: seq<Line>, grandTotal: int, refunded: int, status: Status, pcs: seq<Pc>, commits: nat)

  datatype Event = Load(j: nat) | LockItem(j: nat) | LockOrder(j: nat) | Commit(j: nat) | Abort(j: nat)

  predicate HoldsItem(pc: Pc) {
    pc.ItemHeld? || pc.OrderHeld?
  }

  predicate ItemBusy(jobs: seq<Job>, s: State, j: nat)
    requires j < |jobs| == |s.pcs|
  {
    exists k :: 0 <= k < |jobs| && k != j && jobs[k].item == jobs[j].item && HoldsItem(s.pcs[k])
  }

  predicate OrderBusy(s: State) {
    exists k :: 0 <= k < |s.pcs| && s.pcs[k].OrderHeld?
  }

  function SetPc(s: State, j: nat, pc: Pc): State
    requires j < |s.pcs|
  {
    s.(pcs := s.pcs[j := pc])
  }

  function Next(jobs: seq<Job>, s: State, e: Event): State {
    if e.j >= |jobs| || |s.pcs| != |jobs| || jobs[e.j].item >= |s.lines| then s else
    var job := jobs[e.j];
    var pc := s.pcs[e.j];
    match e
    case Load(j) =>
      if pc != Waiting then s
      else if s.status !in {Paid, Fulfilled, Completed, PartiallyRefunded, Disputed} then SetPc(s, j, Refused)
      else SetPc(s, j, Loaded(s.status, s.refunded, s.commits))
    case LockItem(j) =>
      if !pc.Loaded? || ItemBusy(jobs, s, j) then s
      else if job.amount <= 0 then SetPc(s, j, Refused)
      else if s.lines[job.item].refunded + job.amount > s.lines[job.item].total then SetPc(s, j, Refused)
      else SetPc(s, j, ItemHeld(pc.status, pc.refunded, s.lines[job.item].refunded, pc.seen))
    case LockOrder(j) =>
      if !pc.ItemHeld? || OrderBusy(s) then s
      else if s.status != pc.status || !Allowed(pc.status, RefundPending) then SetPc(s, j, Refused)
      else SetPc(s, j, OrderHeld(pc.refunded, pc.already, pc.seen))
    case Commit(j) =>
      if !pc.OrderHeld? then s
      else
        var total := pc.refunded + job.amount;
        SetPc(s, j, Committed).(
          lines := s.lines[job.item := s.lines[job.item].(refunded := pc.already + job.amount)],
          refunded := total,
          status := if total >= s.grandTotal then Refunded else PartiallyRefunded,
          commits := s.commits + 1)
    case Abort(j) => if pc == Committed then s else SetPc(s, j, Refused)
  }

  function Reach(jobs: seq<Job>, start: State, events: seq<Event>): State {
    if events == [] then start
    else Next(jobs, Reach(jobs, start, events[..|events| - 1]), events[|events| - 1])
  }

  /** The refunds committed on one item. */
  function CommittedOn(jobs: seq<Job>, pcs: seq<Pc>, item: nat): int
    requires |pcs| <= |jobs|
  {
    if pcs == [] then 0 else
    var n := |pcs| - 1;
    CommittedOn(jobs, pcs[..n], item) + if pcs[n] == Committed && jobs[n].item == item then jobs[n].amount else 0
  }

  function SumRefunded(lines: seq<Line>): int {
    if lines == [] then 0 else SumRefunded(lines[..|lines| - 1]) + lines[|lines| - 1].refunded
  }

  /** Before any of these refunds: nothing refunded yet. */
  predicate Start(jobs: seq<Job>, s: State) {
    && |s.pcs| == |jobs| && (forall j :: 0 <= j < |jobs| ==> s.pcs[j] == Waiting)
    && s.refunded == 0 && s.commits == 0
    && forall i :: 0 <= i < |s.lines| ==> s.lines[i].refunded == 0 <= s.lines[i].total
  }

  /** A transaction no commit has overtaken holds the order's present total; one that
      was overtaken holds less than the items add up to. */
  predicate LoadOk(s: State, pc: Pc)
    requires pc.Loaded? || HoldsItem(pc)
  {
    && pc.seen <= s.commits
    && if pc.seen == s.commits then pc.refunded == s.refunded else pc.refunded < SumRefunded(s.lines)
  }

  predicate RaceOk(jobs: seq<Job>, s: State) {
    && |s.pcs| == |jobs|
    && (forall i :: 0 <= i < |s.lines| ==>
          0 <= s.lines[i].refunded <= s.lines[i].total && s.lines[i].refunded == CommittedOn(jobs, s.pcs, i))
    && (forall j :: 0 <= j < |jobs| && HoldsItem(s.pcs[j]) ==>
          && jobs[j].item < |s.lines| && jobs[j].amount > 0
          && s.pcs[j].already == s.lines[jobs[j].item].refunded
          && s.pcs[j].already + jobs[j].amount <= s.lines[jobs[j].item].total)
    && (forall j, k :: 0 <= j < |jobs| && 0 <= k < |jobs| && j != k && HoldsItem(s.pcs[j]) && HoldsItem(s.pcs[k]) ==>
          jobs[j].item != jobs[k].item)
    && (forall j, k :: 0 <= j < |jobs| && 0 <= k < |jobs| && s.pcs[j].OrderHeld? && s.pcs[k].OrderHeld? ==> j == k)
    && (forall j :: 0 <= j < |jobs| && (s.pcs[j].Loaded? || HoldsItem(s.pcs[j])) ==> LoadOk(s, s.pcs[j]))
    && s.refunded <= SumRefunded(s.lines)
  }

  lemma {:induction false} CommittedUpdate(jobs: seq<Job>, pcs: seq<Pc>, j: nat, pc: Pc, item: nat)
    requires j < |pcs| <= |jobs| && pcs[j] != Committed
    ensures CommittedOn(jobs, pcs[j := pc], item)
            == CommittedOn(jobs, pcs, item) + if pc == Committed && jobs[j].item == item then jobs[j].amount else 0
  {
    var n := |pcs| - 1;
    if j < n {
      CommittedUpdate(jobs, pcs[..n], j, pc, item);
      assert pcs[j := pc][..n] == pcs[..n][j := pc];
    } else {
      assert pcs[j := pc][..n] == pcs[..n];
    }
  }

  lemma {:induction false} SumUpdate(lines: seq<Line>, i: nat, l: Line)
    requires i < |lines|
    ensures SumRefunded(lines[i := l]) == SumRefunded(lines) - lines[i].refunded + l.refunded
  {
    var n := |lines| - 1;
    if i < n {
      SumUpdate(lines[..n], i, l);
      assert lines[i := l][..n] == lines[..n][i := l];
    } else {
      assert lines[i := l][..n] == lines[..n];
    }
  }

  lemma PrivateStep(jobs: seq<Job>, s: State, j: nat, pc: Pc)
    requires RaceOk(jobs, s) && j < |jobs| && s.pcs[j] != Committed && pc != Committed
    requires pc.Loaded? || HoldsItem(pc) ==> LoadOk(s, pc)
    requires HoldsItem(pc) ==>
               && jobs[j].item < |s.lines| && jobs[j].amount > 0
               && pc.already == s.lines[jobs[j].item].refunded
               && pc.already + jobs[j].amount <= s.lines[jobs[j].item].total
    requires HoldsItem(pc) ==>
               forall k :: 0 <= k < |jobs| && k != j && HoldsItem(s.pcs[k]) ==> jobs[k].item != jobs[j].item
    requires pc.OrderHeld? ==> forall k :: 0 <= k < |jobs| && k != j ==> !s.pcs[k].OrderHeld?
    ensures RaceOk(jobs, SetPc(s, j, pc))
  {
    hide CommittedOn, SumRefunded;
    forall i | 0 <= i < |s.lines| ensures CommittedOn(jobs, s.pcs[j := pc], i) == CommittedOn(jobs, s.pcs, i) {
      CommittedUpdate(jobs, s.pcs, j, pc, i);
    }
  }

  lemma CommitStep(jobs: seq<Job>, s: State, j: nat)
    requires RaceOk(jobs, s) && j < |jobs| && s.pcs[j].OrderHeld?
    ensures RaceOk(jobs, Next(jobs, s, Commit(j)))
    ensures var after := Next(jobs, s, Commit(j));
            SumRefunded(after.lines) == SumRefunded(s.lines) + jobs[j].amount
            && after.refunded == s.pcs[j].refunded + jobs[j].amount
  {
    hide CommittedOn, SumRefunded;
    var item := jobs[j].item;
    var after := Next(jobs, s, Commit(j));
    SumUpdate(s.lines, item, after.lines[item]);
    forall i | 0 <= i < |s.lines|
      ensures CommittedOn(jobs, after.pcs, i) == CommittedOn(jobs, s.pcs, i) + if i == item then jobs[j].amount else 0
    {
      CommittedUpdate(jobs, s.pcs, j, Committed, i);
    }
  }

  lemma NextKeepsRaceOk(jobs: seq<Job>, s: State, e: Event)
    requires RaceOk(jobs, s)
    ensures RaceOk(jobs, Next(jobs, s, e))
  {
    if e.j < |jobs| && jobs[e.j].item < |s.lines| {
      if e.Commit? && s.pcs[e.j].OrderHeld? {
        CommitStep(jobs, s, e.j);
      } else {
        hide CommittedOn, SumRefunded, Allowed;
        var after := Next(jobs, s, e);
        assert after == s || after == SetPc(s, e.j, after.pcs[e.j]);
        if after != s { PrivateStep(jobs, s, e.j, after.pcs[e.j]); }
      }
    }
  }

  lemma {:induction false} NothingCommitted(jobs: seq<Job>, pcs: seq<Pc>, item: nat)
    requires |pcs| <= |jobs| && forall j :: 0 <= j < |pcs| ==> pcs[j] == Waiting
    ensures CommittedOn(jobs, pcs, item) == 0
  {
    if pcs == [] {
    } else {
      NothingCommitted(jobs, pcs[..|pcs| - 1], item);
    }
  }

  lemma {:induction false} NothingRefunded(lines: seq<Line>)
    requires forall i :: 0 <= i < |lines| ==> lines[i].refunded == 0
    ensures SumRefunded(lines) == 0
  {
    if lines == [] {
    } else {
      NothingRefunded(lines[..|lines| - 1]);
    }
  }

  lemma {:induction false} ReachIsRaceOk(jobs: seq<Job>, start: State, events: seq<Event>)
    requires Start(jobs, start)
    ensures RaceOk(jobs, Reach(jobs, start, events))
  {
    if events == [] {
      forall i | 0 <= i < |start.lines|
        ensures CommittedOn(jobs, start.pcs, i) == 0
      {
        NothingCommitted(jobs, start.pcs, i);
      }
      NothingRefunded(start.lines);
    } else {
      hide RaceOk, Next;
      ReachIsRaceOk(jobs, start, events[..|events| - 1]);
      NextKeepsRaceOk(jobs, Reach(jobs, start, events[..|events| - 1]), events[|events| - 1]);
    }
  }

  /** Under every interleaving, what was refunded on an item is exactly the sum of
      the refunds that committed on it, and never more than was paid. */
  lemma NeverRefundedBeyondPaid(jobs: seq<Job>, start: State, events: seq<Event>, item: nat)
    requires Start(jobs, start) && item < |Reach(jobs, start, events).lines|
    ensures var s := Reach(jobs, start, events);
            |s.pcs| == |jobs| && s.lines[item].refunded == CommittedOn(jobs, s.pcs, item) <= s.lines[item].total
  {
    ReachIsRaceOk(jobs, start, events);
    hide Reach, CommittedOn, SumRefunded;
  }

  /** Some refund committed although another had committed since it loaded the order. */
  predicate SomeOvertaken(jobs: seq<Job>, start: State, events: seq<Event>) {
    events != [] &&
    var s, e := Reach(jobs, start, events[..|events| - 1]), events[|events| - 1];
    || SomeOvertaken(jobs, start, events[..|events| - 1])
    || (e.Commit? && e.j < |jobs| && |s.pcs| == |jobs| && s.pcs[e.j].OrderHeld? && s.pcs[e.j].seen != s.commits)
  }

  /** A commit keeps the total exact, or as far behind, unless it was overtaken; then
      it leaves the total behind. */
  lemma CommitTotal(jobs: seq<Job>, s: State, e: Event)
    requires RaceOk(jobs, s)
    ensures var after := Next(jobs, s, e);
            var lag := SumRefunded(s.lines) - s.refunded;
            if e.Commit? && e.j < |jobs| && s.pcs[e.j].OrderHeld? && s.pcs[e.j].seen != s.commits
            then after.refunded < SumRefunded(after.lines)
            else SumRefunded(after.lines) - after.refunded == lag
  {
    if e.j < |jobs| && jobs[e.j].item < |s.lines| && e.Commit? && s.pcs[e.j].OrderHeld? {
      CommitStep(jobs, s, e.j);
      hide CommittedOn, SumRefunded, Next;
      assert LoadOk(s, s.pcs[e.j]);
    } else {
      hide CommittedOn, SumRefunded, Allowed;
    }
  }

  /** Over every run, the order's own total, read without a lock, never runs ahead of
      its items, and it equals their total if and only if no refund committed so far
      had another one commit between its load and its own commit: one such refund
      and the total stays behind for good. */
  lemma {:induction false} OrderTotalIsExactIff(jobs: seq<Job>, start: State, events: seq<Event>)
    requires Start(jobs, start)
    ensures var s := Reach(jobs, start, events);
            && s.refunded <= SumRefunded(s.lines)
            && (s.refunded == SumRefunded(s.lines) <==> !SomeOvertaken(jobs, start, events))
  {
    ReachIsRaceOk(jobs, start, events);
    hide CommittedOn, SumRefunded, Next;
    if events == [] {
      NothingRefunded(start.lines);
    } else {
      var init := events[..|events| - 1];
      ReachIsRaceOk(jobs, start, init);
      OrderTotalIsExactIff(jobs, start, init);
      CommitTotal(jobs, Reach(jobs, start, init), events[|events| - 1]);
    }
  }

  function SumTotals(lines: seq<Line>): int {
    if lines == [] then 0 else SumTotals(lines[..|lines| - 1]) + lines[|lines| - 1].total
  }

  /** The order's grand total is its items', above zero, and not refunded yet. */
  predicate Priced(s: State) {
    s.grandTotal == SumTotals(s.lines) > 0 && s.status != Refunded
  }

  lemma {:induction false} SameTotals(a: seq<Line>, b: seq<Line>)
    requires |a| == |b| && forall i :: 0 <= i < |a| ==> a[i].total == b[i].total
    ensures SumTotals(a) == SumTotals(b)
  {
    if a == [] {
    } else {
      SameTotals(a[..|a| - 1], b[..|b| - 1]);
    }
  }

  lemma {:induction false} FullyRefundedIff(lines: seq<Line>)
    requires forall i :: 0 <= i < |lines| ==> lines[i].refunded <= lines[i].total
    ensures SumRefunded(lines) <= SumTotals(lines)
    ensures SumRefunded(lines) == SumTotals(lines)
            <==> forall i :: 0 <= i < |lines| ==> lines[i].refunded == lines[i].total
  {
    if lines == [] {
    } else {
      var init := lines[..|lines| - 1];
      FullyRefundedIff(init);
      assert forall i :: 0 <= i < |init| ==> init[i] == lines[i];
    }
  }

  /** The status says refunded exactly when the order's own total has reached its
      grand total, which no step changes. */
  lemma {:induction false} StatusFollowsTotal(jobs: seq<Job>, start: State, events: seq<Event>)
    requires Start(jobs, start) && Priced(start)
    ensures var s := Reach(jobs, start, events);
            && s.grandTotal == start.grandTotal == SumTotals(s.lines)
            && (s.status == Refunded <==> s.refunded >= s.grandTotal)
  {
    if events == [] {
    } else {
      hide CommittedOn, SumRefunded, SumTotals, Allowed;
      var init, e := events[..|events| - 1], events[|events| - 1];
      StatusFollowsTotal(jobs, start, init);
      SameTotals(Reach(jobs, start, init).lines, Reach(jobs, start, events).lines);
    }
  }

  /** So an order is marked refunded if and only if every item is refunded in full
      and no refund was overtaken: with every item refunded in full, it stays
      partially refunded exactly when one was. */
  lemma RefundedStatusIff(jobs: seq<Job>, start: State, events: seq<Event>)
    requires Start(jobs, start) && Priced(start)
    ensures var s := Reach(jobs, start, events);
            s.status == Refunded
            <==> (forall i :: 0 <= i < |s.lines| ==> s.lines[i].refunded == s.lines[i].total)
                 && !SomeOvertaken(jobs, start, events)
  {
    StatusFollowsTotal(jobs, start, events);
    OrderTotalIsExactIff(jobs, start, events);
    ReachIsRaceOk(jobs, start, events);
    var s := Reach(jobs, start, events);
    hide Reach, CommittedOn, SumRefunded, SumTotals, SomeOvertaken;
    FullyRefundedIff(s.lines);
  }

  /** It does happen: after a first refund, two more that load the order together both
      go through, the second writes over the first's total, and an order whose every
      item was refunded in full stays partially refunded. */
  lemma OneTotalIsLost()
    ensures var jobs := [Job(0, 1), Job(1, 1), Job(2, 1)];
            var start := State([Line(1, 0), Line(1, 0), Line(1, 0)], 3, 0, Fulfilled, [Waiting, Waiting, Waiting], 0);
            var events := RefundOf(0) + [Load(1), Load(2)] + Finish(1) + Finish(2);
            var s := Reach(jobs, start, events);
            && Start(jobs, start) && Priced(start)
            && s.lines == [Line(1, 1), Line(1, 1), Line(1, 1)]
            && s.refunded == 2 && s.status == PartiallyRefunded
  {
    hide Next;
    var jobs := [Job(0, 1), Job(1, 1), Job(2, 1)];
    var start := State([Line(1, 0), Line(1, 0), Line(1, 0)], 3, 0, Fulfilled, [Waiting, Waiting, Waiting], 0);
    ThreeUnits(start.lines);
    var loads := [Load(1), Load(2)];
    ReachConcat(jobs, start, RefundOf(0) + loads + Finish(1), Finish(2));
    ReachConcat(jobs, start, RefundOf(0) + loads, Finish(1));
    ReachConcat(jobs, start, RefundOf(0), loads);
    ReachConcat(jobs, start, [Load(0)], Finish(0));
    OneStep(jobs, start, Load(0));
    var s0 := Reach(jobs, start, [Load(0)]);
    ThreeSteps(jobs, s0, LockItem(0), LockOrder(0), Commit(0));
    FirstRefund(jobs, start);
    var s1 := Reach(jobs, start, RefundOf(0));
    TwoSteps(jobs, s1, loads[0], loads[1]);
    BothLoad(jobs, s1);
    var s2 := Reach(jobs, s1, loads);
    ThreeSteps(jobs, s2, LockItem(1), LockOrder(1), Commit(1));
    SecondCommits(jobs, s2);
    var s3 := Reach(jobs, s2, Finish(1));
    ThreeSteps(jobs, s3, LockItem(2), LockOrder(2), Commit(2));
    ThirdCommits(jobs, s3);
  }

  /** What follows a refund's load, and a whole refund with nothing in between. */
  function Finish(j: nat): seq<Event> {
    [LockItem(j), LockOrder(j), Commit(j)]
  }

  function RefundOf(j: nat): seq<Event> {
    [Load(j)] + Finish(j)
  }

  lemma ThreeUnits(lines: seq<Line>)
    requires lines == [Line(1, 0), Line(1, 0), Line(1, 0)]
    ensures SumTotals(lines) == 3
  {
    assert lines[..2][..1] == lines[..1] && lines[..1][..0] == [];
    assert SumTotals(lines[..1]) == 1 && SumTotals(lines[..2]) == 2;
  }

  lemma {:induction false} ReachConcat(jobs: seq<Job>, s: State, a: seq<Event>, b: seq<Event>)
    ensures Reach(jobs, s, a + b) == Reach(jobs, Reach(jobs, s, a), b)
  {
    hide Next;
    if b == [] {
      assert a + b == a;
    } else {
      ReachConcat(jobs, s, a, b[..|b| - 1]);
      assert (a + b)[..|a + b| - 1] == a + b[..|b| - 1];
    }
  }

  lemma OneStep(jobs: seq<Job>, s: State, a: Event)
    ensures Reach(jobs, s, [a]) == Next(jobs, s, a)
  {
    hide Next;
    assert [a][..0] == [];
  }

  lemma TwoSteps(jobs: seq<Job>, s: State, a: Event, b: Event)
    ensures Reach(jobs, s, [a, b]) == Next(jobs, Next(jobs, s, a), b)
  {
    hide Next;
    OneStep(jobs, s, a);
    assert [a, b][..1] == [a];
  }

  lemma ThreeSteps(jobs: seq<Job>, s: State, a: Event, b: Event, c: Event)
    ensures Reach(jobs, s, [a, b, c]) == Next(jobs, Next(jobs, Next(jobs, s, a), b), c)
  {
    hide Next;
    TwoSteps(jobs, s, a, b);
    assert [a, b, c][..2] == [a, b];
  }

  lemma FirstRefund(jobs: seq<Job>, s: State)
    requires jobs == [Job(0, 1), Job(1, 1), Job(2, 1)]
    requires s == State([Line(1, 0), Line(1, 0), Line(1, 0)], 3, 0, Fulfilled, [Waiting, Waiting, Waiting], 0)
    ensures Next(jobs, Next(jobs, Next(jobs, Next(jobs, s, Load(0)), LockItem(0)), LockOrder(0)), Commit(0))
            == State([Line(1, 1), Line(1, 0), Line(1, 0)], 3, 1, PartiallyRefunded, [Committed, Waiting, Waiting], 1)
  {
  }

  lemma BothLoad(jobs: seq<Job>, s: State)
    requires jobs == [Job(0, 1), Job(1, 1), Job(2, 1)]
    requires s == State([Line(1, 1), Line(1, 0), Line(1, 0)], 3, 1, PartiallyRefunded, [Committed, Waiting, Waiting], 1)
    ensures Next(jobs, Next(jobs, s, Load(1)), Load(2))
            == s.(pcs := [Committed, Loaded(PartiallyRefunded, 1, 1), Loaded(PartiallyRefunded, 1, 1)])
  {
  }

  lemma SecondCommits(jobs: seq<Job>, s: State)
    requires jobs == [Job(0, 1), Job(1, 1), Job(2, 1)]
    requires s == State([Line(1, 1), Line(1, 0), Line(1, 0)], 3, 1, PartiallyRefunded,
                        [Committed, Loaded(PartiallyRefunded, 1, 1), Loaded(PartiallyRefunded, 1, 1)], 1)
    ensures Next(jobs, Next(jobs, Next(jobs, s, LockItem(1)), LockOrder(1)), Commit(1))
            == State([Line(1, 1), Line(1, 1), Line(1, 0)], 3, 2, PartiallyRefunded,
                     [Committed, Committed, Loaded(PartiallyRefunded, 1, 1)], 2)
  {
  }

  lemma ThirdCommits(jobs: seq<Job>, s: State)
    requires jobs == [Job(0, 1), Job(1, 1), Job(2, 1)]
    requires s == State([Line(1, 1), Line(1, 1), Line(1, 0)], 3, 2, PartiallyRefunded,
                        [Committed, Committed, Loaded(PartiallyRefunded, 1, 1)], 2)
    ensures var after := Next(jobs, Next(jobs, Next(jobs, s, LockItem(2)), LockOrder(2)), Commit(2));
            after.lines == [Line(1, 1), Line(1, 1), Line(1, 1)] && after.refunded == 2
            && after.status == PartiallyRefunded
  {
  }

  // ---- one refund at a time ----------------------------------------------------------

  function Steps(jobs: seq<Job>, s: State, j: nat): State {
    Next(jobs, Next(jobs, Next(jobs, Next(jobs, s, Load(j)), LockItem(j)), LockOrder(j)), Commit(j))
  }

  /** A refund that nobody disturbs commits exactly when the order was paid and is
      neither disputed nor refunded in full, and the amount is positive and still
      covered by the item. Then it adds the amount to the item and to the order, and
      moves the status; otherwise it leaves both alone. */
  lemma UndisturbedRefundIs(jobs: seq<Job>, s: State, j: nat)
    requires j < |jobs| == |s.pcs| && jobs[j].item < |s.lines| && s.pcs[j] == Waiting
    requires forall k :: 0 <= k < |jobs| ==> !HoldsItem(s.pcs[k])
    ensures var job := jobs[j];
            var l := s.lines[job.item];
            var total := s.refunded + job.amount;
            Steps(jobs, s, j)
            == if (s.status == Paid || s.status == Fulfilled || s.status == Completed || s.status == PartiallyRefunded)
                  && 0 < job.amount <= l.total - l.refunded
               then State(s.lines[job.item := Line(l.total, l.refunded + job.amount)], s.grandTotal, total,
                          if total >= s.grandTotal then Refunded else PartiallyRefunded,
                          s.pcs[j := Committed], s.commits + 1)
               else s.(pcs := s.pcs[j := Refused])
  {
    var loaded := Next(jobs, s, Load(j));
    assert loaded.pcs == s.pcs[j := loaded.pcs[j]];
    assert !ItemBusy(jobs, loaded, j);
    var held := Next(jobs, loaded, LockItem(j));
    assert held.pcs == s.pcs[j := held.pcs[j]];
    assert !OrderBusy(held);
    var locked := Next(jobs, held, LockOrder(j));
    assert locked.pcs == s.pcs[j := locked.pcs[j]];
  }

  /** A refund of an order that was not paid, or is refunded or charged back, is refused
      when it loads it; any other remembers the status it found. While another refund
      holds its item, or any holds the order, it waits; one whose order moved since its
      load is refused; and an abort gives up its locks. */
  lemma DisturbancesAre(jobs: seq<Job>, s: State, j: nat)
    requires j < |jobs| == |s.pcs| && jobs[j].item < |s.lines|
    ensures s.pcs[j] == Waiting ==>
              Next(jobs, s, Load(j))
              == if s.status == Paid || s.status == Fulfilled || s.status == Completed
                    || s.status == PartiallyRefunded || s.status == Disputed
                 then s.(pcs := s.pcs[j := Loaded(s.status, s.refunded, s.commits)])
                 else s.(pcs := s.pcs[j := Refused])
    ensures (exists k :: 0 <= k < |jobs| && k != j && jobs[k].item == jobs[j].item
                         && (s.pcs[k].ItemHeld? || s.pcs[k].OrderHeld?)) ==>
              Next(jobs, s, LockItem(j)) == s
    ensures (exists k :: 0 <= k < |jobs| && s.pcs[k].OrderHeld?) ==> Next(jobs, s, LockOrder(j)) == s
    ensures s.pcs[j].ItemHeld? && (forall k :: 0 <= k < |jobs| ==> !s.pcs[k].OrderHeld?) && s.status != s.pcs[j].status
            ==> Next(jobs, s, LockOrder(j)) == s.(pcs := s.pcs[j := Refused])
    ensures s.pcs[j] != Committed ==> Next(jobs, s, Abort(j)) == s.(pcs := s.pcs[j := Refused])
  {
  }

  /** A refund that committed or was refused stays so, whatever happens. */
  lemma DoneStaysDone(jobs: seq<Job>, s: State, e: Event, j: nat)
    requires j < |jobs| == |s.pcs| && (s.pcs[j] == Committed || s.pcs[j] == Refused)
    ensures Next(jobs, s, e).pcs[j] == s.pcs[j]
  {
    hide ItemBusy, OrderBusy;
  }
}
