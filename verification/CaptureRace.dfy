/** The browser callback and the provider's webhook recording one order's payment
    at the same time, under read-committed isolation.

    Each client loads the order, looks its capture key up, inserts the entry,
    then moves the order from awaiting_payment with a compare-and-set that takes
    the row lock, and commits. Clients may hold different payments for the order,
    so neither the key nor the lookup alone keeps them apart. Any step can
    interleave with any other; a transaction can be aborted at any point; other
    work may move the order when no one holds its row. */
module CaptureRace {
  import opened Orders
  import opened Transactions

  datatype Kind = Browser | Webhook

  datatype Client = Client(kind: Kind, payment: nat)

  datatype Pc =
    | Waiting(runs: nat)
    | Loaded(runs: nat)
    | Missing(runs: nat)
    | Keyed(runs: nat, inserted: bool)
    | Locked(runs: nat, inserted: bool)
    | Recorded
    | AlreadyDone
    | TurnedAway
    | GaveUp

  /** `entries` holds the payments whose capture entry is committed, `licensed` how
      many times a licence row was written for an item of the order. */
  datatype State = State(status: Status, entries: seq<nat>, licensed: nat, pcs: seq<Pc>)

  datatype Event =
    | Load(c: nat) | Lookup(c: nat) | Insert(c: nat) | Move(c: nat) | Commit(c: nat)
    | Abort(c: nat, retryable: bool)
    | Other(to: Status)

  predicate Holds(pc: Pc, client: Client, payment: nat) {
    (pc.Keyed? || pc.Locked?) && pc.inserted && client.payment == payment
  }

  /** Another transaction's uncommitted capture key makes the insert wait. */
  predicate KeyBusy(clients: seq<Client>, s: State, c: nat)
    requires c < |clients| && |s.pcs| == |clients|
  {
    exists d :: 0 <= d < |clients| && d != c && Holds(s.pcs[d], clients[d], clients[c].payment)
  }

  predicate RowLocked(s: State) {
    exists d :: 0 <= d < |s.pcs| && s.pcs[d].Locked?
  }

  function Retry(runs: nat): Pc {
    if runs <= MAX_RETRY then Waiting(runs) else GaveUp
  }

  predicate InTransaction(pc: Pc) {
    pc.Loaded? || pc.Missing? || pc.Keyed? || pc.Locked?
  }

  function SetPc(s: State, c: nat, pc: Pc): State
    requires c < |s.pcs|
  {
    s.(pcs := s.pcs[c := pc])
  }

  function Step(clients: seq<Client>, s: State, e: Event): State {
    if |s.pcs| != |clients| then s else
    match e
    case Other(to) =>
      // Everything else that moves an order; recording a payment is what the clients do.
      if RowLocked(s) || !Allowed(s.status, to) || to == Paid then s else s.(status := to)
    case Load(c) =>
      if c >= |clients| || !s.pcs[c].Waiting? then s
      else if s.status in {Paid, Fulfilled, Completed} then SetPc(s, c, AlreadyDone)
      else if s.status != AwaitingPayment
      then SetPc(s, c, if clients[c].kind == Browser then TurnedAway else AlreadyDone)
      else SetPc(s, c, Loaded(s.pcs[c].runs + 1))
    case Lookup(c) =>
      if c >= |clients| || !s.pcs[c].Loaded? then s
      else if clients[c].payment in s.entries then SetPc(s, c, Keyed(s.pcs[c].runs, false))
      else SetPc(s, c, Missing(s.pcs[c].runs))
    case Insert(c) =>
      if c >= |clients| || !s.pcs[c].Missing? || KeyBusy(clients, s, c) then s
      else if clients[c].payment in s.entries then SetPc(s, c, Retry(s.pcs[c].runs))
      else SetPc(s, c, Keyed(s.pcs[c].runs, true))
    case Move(c) =>
      if c >= |clients| || !s.pcs[c].Keyed? || RowLocked(s) then s
      else if s.status != AwaitingPayment then SetPc(s, c, TurnedAway)
      else SetPc(s, c, Locked(s.pcs[c].runs, s.pcs[c].inserted))
    case Commit(c) =>
      if c >= |clients| || !s.pcs[c].Locked? then s
      else
        SetPc(s, c, Recorded).(
          status := Fulfilled,
          entries := if s.pcs[c].inserted then s.entries + [clients[c].payment] else s.entries,
          licensed := s.licensed + 1)
    case Abort(c, retryable) =>
      if c >= |clients| || !InTransaction(s.pcs[c]) then s
      else SetPc(s, c, if retryable then Retry(s.pcs[c].runs) else GaveUp)
  }

  function Initial(clients: seq<Client>): State {
    State(Draft, [], 0, seq(|clients|, _ => Waiting(0)))
  }

  function Reach(clients: seq<Client>, events: seq<Event>): State {
    if events == [] then Initial(clients)
    else Step(clients, Reach(clients, events[..|events| - 1]), events[|events| - 1])
  }

  predicate OneRecorded(pcs: seq<Pc>) {
    && (exists c :: 0 <= c < |pcs| && pcs[c] == Recorded)
    && forall c, d :: 0 <= c < |pcs| && 0 <= d < |pcs| && pcs[c] == Recorded && pcs[d] == Recorded ==> c == d
  }

  predicate NoneRecorded(pcs: seq<Pc>) {
    forall c :: 0 <= c < |pcs| ==> pcs[c] != Recorded
  }

  predicate RaceOk(clients: seq<Client>, s: State) {
    && |s.pcs| == |clients|
    && (if Captured(s.status) then |s.entries| == 1 && s.licensed == 1 && OneRecorded(s.pcs)
        else s.entries == [] && s.licensed == 0 && NoneRecorded(s.pcs))
    && (forall c :: 0 <= c < |s.pcs| && s.pcs[c] == Recorded ==> clients[c].payment in s.entries)
    && (forall c, d :: 0 <= c < |s.pcs| && 0 <= d < |s.pcs| && s.pcs[c].Locked? && s.pcs[d].Locked? ==> c == d)
    && (forall c :: 0 <= c < |s.pcs| && s.pcs[c].Locked? ==> s.status == AwaitingPayment && s.pcs[c].inserted)
    && (forall c :: 0 <= c < |s.pcs| && s.pcs[c].Keyed? && !s.pcs[c].inserted ==> Captured(s.status))
    && (forall c :: 0 <= c < |s.pcs| ==>
          (s.pcs[c].Waiting? ==> s.pcs[c].runs <= MAX_RETRY)
          && (InTransaction(s.pcs[c]) ==> s.pcs[c].runs <= MAX_RETRY + 1))
  }

  /** A captured order never waits for payment again. */
  lemma CapturedForGood(from: Status, to: Status)
    requires Allowed(from, to) && to != Paid
    ensures Captured(from) <==> Captured(to)
    ensures Captured(from) ==> to != AwaitingPayment
  {
  }

  lemma QuietPcs(clients: seq<Client>, s: State, c: nat, pc: Pc)
    requires RaceOk(clients, s) && c < |s.pcs| && s.pcs[c] != Recorded && pc != Recorded && !pc.Locked?
    requires pc.Keyed? && !pc.inserted ==> Captured(s.status)
    requires (pc.Waiting? ==> pc.runs <= MAX_RETRY) && (InTransaction(pc) ==> pc.runs <= MAX_RETRY + 1)
    ensures RaceOk(clients, SetPc(s, c, pc))
  {
    hide Captured;
    var after := s.pcs[c := pc];
    if Captured(s.status) {
      var r :| 0 <= r < |s.pcs| && s.pcs[r] == Recorded;
      assert after[r] == Recorded;
    }
  }

  /** Steps that neither lock the row nor commit leave the order and its entries
      alone. */
  lemma PrivateStep(clients: seq<Client>, s: State, e: Event)
    requires RaceOk(clients, s) && (e.Load? || e.Lookup? || e.Insert? || e.Abort?)
    ensures RaceOk(clients, Step(clients, s, e))
  {
    hide Allowed, KeyBusy;
    if e.c < |clients| && !s.pcs[e.c].Recorded? {
      var after := Step(clients, s, e);
      assert after == s || after == SetPc(s, e.c, after.pcs[e.c]);
      if after != s { QuietPcs(clients, s, e.c, after.pcs[e.c]); }
    }
  }

  lemma StepKeepsRaceOk(clients: seq<Client>, s: State, e: Event)
    requires RaceOk(clients, s)
    ensures RaceOk(clients, Step(clients, s, e))
  {
    hide Allowed;
    match e
    case Other(to) =>
      if !RowLocked(s) && Allowed(s.status, to) && to != Paid {
        CapturedForGood(s.status, to);
      }
    case Move(c) =>
      if c < |clients| && s.pcs[c].Keyed? {
        QuietPcs(clients, s, c, TurnedAway);
        if !RowLocked(s) && s.status == AwaitingPayment { LockKeepsRaceOk(clients, s, c); }
      }
    case Commit(c) =>
      if c < |clients| && s.pcs[c].Locked? { CommitKeepsRaceOk(clients, s, c); }
    case _ => PrivateStep(clients, s, e);
  }

  lemma LockKeepsRaceOk(clients: seq<Client>, s: State, c: nat)
    requires RaceOk(clients, s) && c < |clients| && s.pcs[c].Keyed? && !RowLocked(s) && s.status == AwaitingPayment
    ensures RaceOk(clients, Step(clients, s, Move(c)))
  {
  }

  lemma CommitKeepsRaceOk(clients: seq<Client>, s: State, c: nat)
    requires RaceOk(clients, s) && c < |clients| && s.pcs[c].Locked?
    ensures RaceOk(clients, Step(clients, s, Commit(c)))
  {
    var after := Step(clients, s, Commit(c));
    assert after.pcs[c] == Recorded;
    forall d | 0 <= d < |s.pcs| && d != c
      ensures after.pcs[d] == s.pcs[d] && !s.pcs[d].Locked? && s.pcs[d] != Recorded
    {
    }
  }

  lemma {:induction false} ReachIsRaceOk(clients: seq<Client>, events: seq<Event>)
    ensures RaceOk(clients, Reach(clients, events))
  {
    if events == [] {
    } else {
      hide RaceOk, Step;
      ReachIsRaceOk(clients, events[..|events| - 1]);
      StepKeepsRaceOk(clients, Reach(clients, events[..|events| - 1]), events[|events| - 1]);
    }
  }

  /** In every interleaving at most one recordCapture commits, and the order is in
      a post-capture status exactly when one did: then it has one capture entry and
      its licences were written once. */
  lemma AtMostOneCaptureCommits(clients: seq<Client>, events: seq<Event>)
    ensures var s := Reach(clients, events);
            && (Captured(s.status) <==> exists c :: 0 <= c < |s.pcs| && s.pcs[c] == Recorded)
            && (forall c, d ::
                  0 <= c < |s.pcs| && 0 <= d < |s.pcs| && s.pcs[c] == Recorded && s.pcs[d] == Recorded ==> c == d)
            && |s.entries| == s.licensed == (if Captured(s.status) then 1 else 0)
  {
    ReachIsRaceOk(clients, events);
    hide Reach, Captured;
    var s := Reach(clients, events);
    if Captured(s.status) {
      assert OneRecorded(s.pcs);
    }
  }

  // ---- payments that are acknowledged and not recorded ---------------------------

  /** The statuses of an order that was never paid and is not waiting for a payment. */
  predicate Unpayable(s: Status) {
    s in {Draft, PaymentFailed, Cancelled, Expired}
  }

  /** A webhook is acknowledged at its load, with nothing recorded for the order,
      exactly in these statuses; with its own payment unrecorded, also when the order
      was captured by another payment. */
  lemma LoadDropsIff(clients: seq<Client>, events: seq<Event>, c: nat)
    requires c < |clients| && clients[c].kind == Webhook
    requires |Reach(clients, events).pcs| == |clients| && Reach(clients, events).pcs[c].Waiting?
    ensures var s := Reach(clients, events);
            var after := Step(clients, s, Load(c));
            && (after.pcs[c] == AlreadyDone && after.entries == [] <==> Unpayable(s.status))
            && (after.pcs[c] == AlreadyDone && clients[c].payment !in after.entries
                <==> Unpayable(s.status) || (Captured(s.status) && clients[c].payment !in s.entries))
  {
    ReachIsRaceOk(clients, events);
    hide Reach;
  }

  /** Event n is the load that decided what becomes of a waiting client. */
  predicate LoadsAt(clients: seq<Client>, events: seq<Event>, c: nat, n: nat) {
    && n < |events| && events[n] == Load(c)
    && var s := Reach(clients, events[..n]); c < |s.pcs| && s.pcs[c].Waiting?
  }

  /** Some load of a client found the order in a status other than awaiting_payment. */
  ghost predicate TurnedBack(clients: seq<Client>, events: seq<Event>, c: nat) {
    exists n: nat :: LoadsAt(clients, events, c, n) && Reach(clients, events[..n]).status != AwaitingPayment
  }

  /** Some load of a client found it neither paid nor waiting for a payment. */
  ghost predicate TurnedBackUnpaid(clients: seq<Client>, events: seq<Event>, c: nat) {
    exists n: nat :: LoadsAt(clients, events, c, n) && Unpayable(Reach(clients, events[..n]).status)
  }

  lemma PrefixOfPrefix(clients: seq<Client>, events: seq<Event>, c: nat, n: nat)
    requires events != [] && n < |events| - 1
    ensures events[..|events| - 1][..n] == events[..n]
    ensures LoadsAt(clients, events[..|events| - 1], c, n) <==> LoadsAt(clients, events, c, n)
  {
    hide Reach;
    assert events[..|events| - 1][..n] == events[..n];
  }

  /** One more event turns a client back exactly when it is such a load. */
  lemma OneMoreLoad(clients: seq<Client>, events: seq<Event>, c: nat)
    requires events != []
    ensures var init := events[..|events| - 1];
            && (TurnedBack(clients, events, c)
                <==> TurnedBack(clients, init, c)
                     || (LoadsAt(clients, events, c, |events| - 1) && Reach(clients, init).status != AwaitingPayment))
            && (TurnedBackUnpaid(clients, events, c)
                <==> TurnedBackUnpaid(clients, init, c)
                     || (LoadsAt(clients, events, c, |events| - 1) && Unpayable(Reach(clients, init).status)))
  {
    hide Reach, LoadsAt, Unpayable;
    var init := events[..|events| - 1];
    forall n: nat | n < |events| - 1
      ensures init[..n] == events[..n] && (LoadsAt(clients, init, c, n) <==> LoadsAt(clients, events, c, n))
    {
      PrefixOfPrefix(clients, events, c, n);
    }
    LoadsInside(clients, events, c);
    LoadsInside(clients, init, c);
    if TurnedBack(clients, init, c) {
      var n: nat :| LoadsAt(clients, init, c, n) && Reach(clients, init[..n]).status != AwaitingPayment;
      assert LoadsAt(clients, events, c, n) && Reach(clients, events[..n]).status != AwaitingPayment;
    }
    if TurnedBackUnpaid(clients, init, c) {
      var n: nat :| LoadsAt(clients, init, c, n) && Unpayable(Reach(clients, init[..n]).status);
      assert LoadsAt(clients, events, c, n) && Unpayable(Reach(clients, events[..n]).status);
    }
  }

  lemma LoadsInside(clients: seq<Client>, events: seq<Event>, c: nat)
    ensures forall n: nat :: LoadsAt(clients, events, c, n) ==> n < |events|
  {
    hide Reach;
  }

  /** A webhook's fate is fixed by its load: it ends acknowledged and unrecorded
      exactly when it was turned back there. */
  lemma {:induction false} AcknowledgedIff(clients: seq<Client>, events: seq<Event>, c: nat)
    requires c < |clients| && clients[c].kind == Webhook
    ensures |Reach(clients, events).pcs| == |clients|
    ensures Reach(clients, events).pcs[c] == AlreadyDone <==> TurnedBack(clients, events, c)
    ensures TurnedBack(clients, events, c) && !Captured(Reach(clients, events).status) ==>
              TurnedBackUnpaid(clients, events, c)
  {
    ReachIsRaceOk(clients, events);
    if events == [] {
      hide Captured, Unpayable;
      LoadsInside(clients, events, c);
    } else {
      hide TurnedBack, TurnedBackUnpaid;
      var init, e := events[..|events| - 1], events[|events| - 1];
      ReachIsRaceOk(clients, init);
      AcknowledgedIff(clients, init, c);
      OneMoreLoad(clients, events, c);
      var s := Reach(clients, init);
      assert Reach(clients, events) == Step(clients, s, e);
      assert LoadsAt(clients, events, c, |events| - 1) <==> e == Load(c) && s.pcs[c].Waiting?;
      hide Reach;
      if Captured(s.status) { CapturedStays(clients, s, e); }
      FateOf(clients, s, e, c);
      EveryStatus(s.status);
    }
  }

  lemma EveryStatus(s: Status)
    ensures s == AwaitingPayment || Unpayable(s) || Captured(s)
  {
  }

  lemma CapturedStays(clients: seq<Client>, s: State, e: Event)
    requires RaceOk(clients, s) && Captured(s.status)
    ensures Captured(Step(clients, s, e).status)
  {
    hide KeyBusy;
    if e.Other? && Allowed(s.status, e.to) && e.to != Paid { CapturedForGood(s.status, e.to); }
  }

  lemma FateOf(clients: seq<Client>, s: State, e: Event, c: nat)
    requires RaceOk(clients, s) && c < |clients| && clients[c].kind == Webhook
    ensures |Step(clients, s, e).pcs| == |clients|
    ensures Step(clients, s, e).pcs[c] == AlreadyDone
            <==> s.pcs[c] == AlreadyDone || (e == Load(c) && s.pcs[c].Waiting? && s.status != AwaitingPayment)
  {
    hide KeyBusy, Allowed;
  }

  /** Over every run: a webhook's captured payment ends acknowledged without an entry
      of its own if and only if its load found the order not awaiting payment and no
      other client recorded that payment; and the order then has no entry at all if
      and only if the load found it unpayable and nobody captured it since. */
  lemma PaymentIsDroppedIff(clients: seq<Client>, events: seq<Event>, c: nat)
    requires c < |clients| && clients[c].kind == Webhook
    ensures var s := Reach(clients, events);
            && |s.pcs| == |clients|
            && (s.pcs[c] == AlreadyDone && clients[c].payment !in s.entries
                <==> TurnedBack(clients, events, c)
                     && forall d :: 0 <= d < |clients| && clients[d].payment == clients[c].payment ==>
                          s.pcs[d] != Recorded)
            && (s.pcs[c] == AlreadyDone && s.entries == []
                <==> TurnedBackUnpaid(clients, events, c) && !Captured(s.status))
  {
    ReachIsRaceOk(clients, events);
    AcknowledgedIff(clients, events, c);
    UnpaidIsTurnedBack(clients, events, c);
    EntriesAreRecorded(clients, Reach(clients, events), clients[c].payment);
    hide Reach, Captured, Unpayable, TurnedBack, TurnedBackUnpaid;
  }

  lemma UnpaidIsTurnedBack(clients: seq<Client>, events: seq<Event>, c: nat)
    ensures TurnedBackUnpaid(clients, events, c) ==> TurnedBack(clients, events, c)
  {
    hide Reach;
    if TurnedBackUnpaid(clients, events, c) {
      var n: nat :| LoadsAt(clients, events, c, n) && Unpayable(Reach(clients, events[..n]).status);
      hide LoadsAt;
      assert Reach(clients, events[..n]).status != AwaitingPayment;
    }
  }

  /** A payment has an entry exactly when a client recorded it. */
  lemma EntriesAreRecorded(clients: seq<Client>, s: State, payment: nat)
    requires RaceOk(clients, s)
    ensures payment in s.entries
            <==> exists d :: 0 <= d < |clients| && clients[d].payment == payment && s.pcs[d] == Recorded
  {
    hide Captured;
    if payment in s.entries {
      assert |s.entries| == 1 && OneRecorded(s.pcs);
    }
  }

  /** After the order expired, and after one failed attempt before a second one is
      begun, a webhook's captured payment is dropped. */
  lemma LatePaymentIsDropped(payment: nat, status: Status)
    requires status == Expired || status == PaymentFailed
    ensures var s := Reach([Client(Webhook, payment)], [Other(AwaitingPayment), Other(status), Load(0)]);
            s.status == status && s.pcs == [AlreadyDone] && s.entries == []
  {
    var clients := [Client(Webhook, payment)];
    var events := [Other(AwaitingPayment), Other(status), Load(0)];
    assert events[..2][..1] == events[..1] && events[..1][..0] == [];
    assert Reach(clients, events[..1]) == State(AwaitingPayment, [], 0, [Waiting(0)]);
    assert Reach(clients, events[..2]) == State(status, [], 0, [Waiting(0)]);
  }

  // ---- one client at a time ----------------------------------------------------------

  function Steps(clients: seq<Client>, s: State, c: nat): State {
    Step(clients, Step(clients, Step(clients, Step(clients, Step(clients, s, Load(c)), Lookup(c)), Insert(c)), Move(c)),
         Commit(c))
  }

  /** A client that nobody disturbs records its payment exactly when the order awaits
      payment: then the order is fulfilled, its entry is written unless it was before,
      and licences are issued once more. Otherwise nothing changes; a webhook is told
      all is done, and a browser that the order cannot be paid, unless it already was. */
  lemma UndisturbedClientIs(clients: seq<Client>, s: State, c: nat)
    requires c < |clients| == |s.pcs| && s.pcs[c].Waiting?
    requires forall d :: 0 <= d < |clients| ==> !s.pcs[d].Keyed? && !s.pcs[d].Locked?
    ensures var payment := clients[c].payment;
            Steps(clients, s, c)
            == if s.status == AwaitingPayment
               then State(Fulfilled, if payment in s.entries then s.entries else s.entries + [payment], s.licensed + 1,
                          s.pcs[c := Recorded])
               else
                 var done := s.status == Paid || s.status == Fulfilled || s.status == Completed
                             || clients[c].kind == Webhook;
                 s.(pcs := s.pcs[c := if done then AlreadyDone else TurnedAway])
  {
    var loaded := Step(clients, s, Load(c));
    var found := Step(clients, loaded, Lookup(c));
    assert found.pcs == s.pcs[c := found.pcs[c]];
    assert !KeyBusy(clients, found, c);
    var keyed := Step(clients, found, Insert(c));
    assert keyed.pcs == s.pcs[c := keyed.pcs[c]];
    assert !RowLocked(keyed);
    var locked := Step(clients, keyed, Move(c));
    assert locked.pcs == s.pcs[c := locked.pcs[c]];
  }

  /** A client waits while another has its key inserted and not yet committed, or holds
      the order's row; one that finds the key committed starts again, at most five times;
      one that finds the order moved is turned away. */
  lemma DisturbancesAre(clients: seq<Client>, s: State, c: nat)
    requires c < |clients| == |s.pcs|
    ensures var busy := exists d :: 0 <= d < |clients| && d != c && clients[d].payment == clients[c].payment
                                    && ((s.pcs[d].Keyed? && s.pcs[d].inserted)
                                        || (s.pcs[d].Locked? && s.pcs[d].inserted));
            var again := if s.pcs[c].Missing? && s.pcs[c].runs <= 5 then Waiting(s.pcs[c].runs) else GaveUp;
            s.pcs[c].Missing? ==>
              && (busy ==> Step(clients, s, Insert(c)) == s)
              && (!busy && clients[c].payment in s.entries ==>
                    Step(clients, s, Insert(c)) == s.(pcs := s.pcs[c := again]))
    ensures var locked := exists d :: 0 <= d < |clients| && s.pcs[d].Locked?;
            s.pcs[c].Keyed? ==>
              && (locked ==> Step(clients, s, Move(c)) == s)
              && (!locked && s.status != AwaitingPayment ==>
                    Step(clients, s, Move(c)) == s.(pcs := s.pcs[c := TurnedAway]))
    ensures s.pcs[c].Loaded? || s.pcs[c].Missing? || s.pcs[c].Keyed? || s.pcs[c].Locked? ==>
              && Step(clients, s, Abort(c, false)) == s.(pcs := s.pcs[c := GaveUp])
              && Step(clients, s, Abort(c, true))
                 == s.(pcs := s.pcs[c := if s.pcs[c].runs <= 5 then Waiting(s.pcs[c].runs) else GaveUp])
  {
    hide KeyBusy, RowLocked;
    BusyIs(clients, s, c);
  }

  lemma BusyIs(clients: seq<Client>, s: State, c: nat)
    requires c < |clients| == |s.pcs|
    ensures KeyBusy(clients, s, c)
            <==> exists d :: 0 <= d < |clients| && d != c && clients[d].payment == clients[c].payment
                             && ((s.pcs[d].Keyed? && s.pcs[d].inserted) || (s.pcs[d].Locked? && s.pcs[d].inserted))
    ensures RowLocked(s) <==> exists d :: 0 <= d < |clients| && s.pcs[d].Locked?
  {
  }

  /** A client that is done stays so, whatever happens. */
  lemma DoneStaysDone(clients: seq<Client>, s: State, e: Event, c: nat)
    requires c < |clients| == |s.pcs|
    requires s.pcs[c] == Recorded || s.pcs[c] == AlreadyDone || s.pcs[c] == TurnedAway || s.pcs[c] == GaveUp
    ensures Step(clients, s, e).pcs[c] == s.pcs[c]
  {
    hide KeyBusy, RowLocked;
  }
}
