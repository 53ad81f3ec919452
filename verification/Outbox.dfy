/** The transactional outbox (internal/outbox): messages leave the queue through
    any number of workers that claim, process and acknowledge them, crash, and
    come back late. Ids are positions, so messages are inserted in id order. Times
    are seconds. */
module Outbox {
  import opened Money

  const LOCK_SECONDS: nat := 300
  const BASE_BACKOFF: nat := 2
  const MAX_BACKOFF: nat := 600

  datatype Message = Message(
    key: Option<nat>, attempts: nat, availableAt: int, lockedAt: Option<int>, dispatched: bool, failed: bool)

  /** A message a worker holds, with the attempt number its claim returned. */
  datatype Claim = Claim(id: nat, attempt: nat)

  /** One completed run of a message's handlers. */
  datatype Run = Run(id: nat, attempt: nat, succeeded: bool)

  /** `claimed` holds every message a claim ever took. It is bookkeeping that nothing
      resets: a replay clears a message's attempts, but not what happened before. */
  datatype State = State(now: int, queue: seq<Message>, held: seq<Claim>, runs: seq<Run>, claimed: set<nat>)

  const EMPTY: State := State(0, [], [], [], {})

  predicate Pending(m: Message) {
    !m.dispatched && !m.failed
  }

  predicate Unlocked(m: Message, now: int) {
    m.lockedAt.None? || m.lockedAt.value < now - LOCK_SECONDS
  }

  /** No older message of the same key is still in the queue. */
  predicate OldestOfKey(queue: seq<Message>, id: nat)
    requires id < |queue|
  {
    queue[id].key.None? || forall x :: 0 <= x < id && queue[x].key == queue[id].key ==> !Pending(queue[x])
  }

  predicate Ready(queue: seq<Message>, now: int, id: nat) {
    && id < |queue| && Pending(queue[id]) && queue[id].availableAt <= now
    && Unlocked(queue[id], now) && OldestOfKey(queue, id)
  }

  predicate Eligible(s: State, id: nat) {
    Ready(s.queue, s.now, id)
  }

  /** The claim's order: availability, then id. */
  predicate Before(queue: seq<Message>, a: nat, b: nat)
    requires a < |queue| && b < |queue|
  {
    queue[a].availableAt < queue[b].availableAt || (queue[a].availableAt == queue[b].availableAt && a < b)
  }

  /** What the claiming statement may return: the first `limit` eligible messages,
      passing over those another claim has row-locked at that moment. */
  predicate Claimable(s: State, ids: seq<nat>, limit: nat, skipped: set<nat>) {
    && |ids| <= limit
    && (forall x :: 0 <= x < |ids| ==> Eligible(s, ids[x]) && ids[x] !in skipped)
    && (forall x, y :: 0 <= x < y < |ids| ==> Before(s.queue, ids[x], ids[y]))
    && (forall id :: 0 <= id < |s.queue| && Eligible(s, id) && id !in skipped && id !in ids ==>
          |ids| == limit && forall x :: 0 <= x < |ids| ==> Before(s.queue, ids[x], id))
  }

  datatype Event =
    | Publish(key: Option<nat>)
    | Wait(seconds: nat)
    | ClaimBatch(ids: seq<nat>, limit: nat, skipped: set<nat>)
    | Acknowledge(h: nat)
    | Reject(h: nat)
    | Crash(h: nat)
    | Replay(id: nat)

  // ---- backoff ---------------------------------------------------------------------

  function Doubled(n: nat): nat {
    if n == 0 then BASE_BACKOFF else 2 * Doubled(n - 1)
  }

  function Least(a: nat, b: nat): nat {
    if a <= b then a else b
  }

  /** min(2 * 2^(attempt-1), 600). */
  function BackoffFor(attempt: nat): nat {
    Least(Doubled(if attempt == 0 then 0 else attempt - 1), MAX_BACKOFF)
  }

  lemma {:induction false} DoubledGrows(a: nat, b: nat)
    requires a <= b
    ensures Doubled(a) <= Doubled(b)
    ensures Doubled(a) >= BASE_BACKOFF
    decreases b - a, a
  {
    if a < b {
      DoubledGrows(a, b - 1);
    } else if a > 0 {
      DoubledGrows(a - 1, a - 1);
    }
  }

  /** Waiting times never shrink from one attempt to the next. */
  lemma BackoffIsMonotone(a: nat, b: nat)
    requires a <= b
    ensures BASE_BACKOFF <= BackoffFor(a) <= BackoffFor(b) <= MAX_BACKOFF
  {
    DoubledGrows(if a == 0 then 0 else a - 1, if b == 0 then 0 else b - 1);
  }

  /** backoffFor doubles until the cap is reached, then clips. */
  method ComputeBackoff(attempt: nat) returns (b: nat)
    ensures b == BackoffFor(attempt)
  {
    b := BASE_BACKOFF;
    var i := 1;
    while i < attempt && b < MAX_BACKOFF
      invariant 1 <= i && (attempt >= 1 ==> i <= attempt) && (attempt == 0 ==> i == 1)
      invariant b == Doubled(i - 1)
    {
      b := b * 2;
      i := i + 1;
    }
    if i < attempt { DoubledGrows(i - 1, attempt - 1); }
    if b > MAX_BACKOFF { b := MAX_BACKOFF; }
  }

  // ---- processing ------------------------------------------------------------------

  /** Every handler of the topic runs, also after one has failed; the message is
      acknowledged exactly when none did. */
  method Process(handlers: seq<bool>) returns (acknowledge: bool, ran: nat)
    ensures ran == |handlers|
    ensures acknowledge <==> forall h :: 0 <= h < |handlers| ==> handlers[h]
  {
    if |handlers| == 0 { return true, 0; }
    var failed := false;
    ran := 0;
    while ran < |handlers|
      invariant 0 <= ran <= |handlers|
      invariant failed <==> exists h :: 0 <= h < ran && !handlers[h]
    {
      if !handlers[ran] && !failed { failed := true; }
      ran := ran + 1;
    }
    acknowledge := !failed;
  }

  // ---- steps -----------------------------------------------------------------------

  function Lock(m: Message, now: int): Message {
    m.(lockedAt := Some(now), attempts := m.attempts + 1)
  }

  function LockAll(queue: seq<Message>, ids: seq<nat>, now: int): (r: seq<Message>)
    requires forall x :: 0 <= x < |ids| ==> ids[x] < |queue|
    ensures |r| == |queue|
  {
    if ids == [] then queue else
    var before := LockAll(queue, ids[..|ids| - 1], now);
    before[ids[|ids| - 1] := Lock(before[ids[|ids| - 1]], now)]
  }

  function ClaimsOf(queue: seq<Message>, ids: seq<nat>): seq<Claim>
    requires forall x :: 0 <= x < |ids| ==> ids[x] < |queue|
  {
    if ids == [] then [] else
    var id := ids[|ids| - 1];
    ClaimsOf(queue, ids[..|ids| - 1]) + [Claim(id, queue[id].attempts + 1)]
  }

  function Dispatch(m: Message): Message {
    m.(dispatched := true, lockedAt := None)
  }

  /** nack: a dead letter once the attempts are used up, rescheduled before that.
      Neither it nor ack checks who holds the lock. */
  function Refuse(m: Message, attempt: nat, maxAttempts: nat, now: int): Message {
    if attempt >= maxAttempts then m.(failed := true, lockedAt := None)
    else m.(availableAt := now + BackoffFor(attempt), lockedAt := None)
  }

  function Drop(held: seq<Claim>, h: nat): seq<Claim>
    requires h < |held|
  {
    held[..h] + held[h + 1..]
  }

  function Next(s: State, e: Event, maxAttempts: nat): State {
    match e
    case Publish(key) => s.(queue := s.queue + [Message(key, 0, s.now, None, false, false)])
    case Wait(seconds) => s.(now := s.now + seconds)
    case ClaimBatch(ids, limit, skipped) =>
      if !Claimable(s, ids, limit, skipped) then s
      else s.(queue := LockAll(s.queue, ids, s.now), held := s.held + ClaimsOf(s.queue, ids),
              claimed := s.claimed + set id | id in ids)
    case Acknowledge(h) =>
      if h >= |s.held| || s.held[h].id >= |s.queue| then s else
      var c := s.held[h];
      s.(queue := s.queue[c.id := Dispatch(s.queue[c.id])], held := Drop(s.held, h),
         runs := s.runs + [Run(c.id, c.attempt, true)])
    case Reject(h) =>
      if h >= |s.held| || s.held[h].id >= |s.queue| then s else
      var c := s.held[h];
      s.(queue := s.queue[c.id := Refuse(s.queue[c.id], c.attempt, maxAttempts, s.now)], held := Drop(s.held, h),
         runs := s.runs + [Run(c.id, c.attempt, false)])
    case Crash(h) => if h >= |s.held| then s else s.(held := Drop(s.held, h))
    case Replay(id) =>
      if id >= |s.queue| || !s.queue[id].failed then s
      else s.(queue := s.queue[id := s.queue[id].(failed := false, attempts := 0, availableAt := s.now)])
  }

  function Reach(s: State, events: seq<Event>, maxAttempts: nat): State {
    if events == [] then s
    else Next(Reach(s, events[..|events| - 1], maxAttempts), events[|events| - 1], maxAttempts)
  }

  predicate NoReplay(events: seq<Event>) {
    forall n :: 0 <= n < |events| ==> !events[n].Replay?
  }

  // ---- no loss -----------------------------------------------------------------------

  /** A message left the queue only through a run that succeeded, or one that
      failed with its attempts used up. */
  predicate Accounted(m: Message, id: nat, runs: seq<Run>, maxAttempts: nat) {
    && (m.dispatched ==> exists r :: 0 <= r < |runs| && runs[r].id == id && runs[r].succeeded)
    && (m.failed ==> exists r ::
          0 <= r < |runs| && runs[r].id == id && !runs[r].succeeded && runs[r].attempt >= maxAttempts)
  }

  predicate AllAccounted(s: State, maxAttempts: nat) {
    forall id :: 0 <= id < |s.queue| ==> Accounted(s.queue[id], id, s.runs, maxAttempts)
  }

  /** Whatever has an attempt, is in a worker's hands or was run, was claimed. */
  predicate Marked(s: State) {
    && (forall id :: id in s.claimed ==> id < |s.queue|)
    && (forall id: nat :: id < |s.queue| && s.queue[id].attempts > 0 ==> id in s.claimed)
    && (forall h :: 0 <= h < |s.held| ==> s.held[h].id in s.claimed)
    && (forall r :: 0 <= r < |s.runs| ==> s.runs[r].id in s.claimed)
  }

  predicate QueueOk(s: State, maxAttempts: nat) {
    AllAccounted(s, maxAttempts) && Marked(s)
  }

  lemma {:induction false} LockAllIs(queue: seq<Message>, ids: seq<nat>, now: int)
    requires forall x :: 0 <= x < |ids| ==> ids[x] < |queue|
    requires forall x, y :: 0 <= x < y < |ids| ==> ids[x] != ids[y]
    ensures forall id :: 0 <= id < |queue| ==>
              LockAll(queue, ids, now)[id] == if id in ids then Lock(queue[id], now) else queue[id]
  {
    if ids == [] {
    } else {
      var init, last := ids[..|ids| - 1], ids[|ids| - 1];
      LockAllIs(queue, init, now);
      assert last !in init;
      assert ids == init + [last];
    }
  }

  lemma {:induction false} ClaimsAre(queue: seq<Message>, ids: seq<nat>)
    requires forall x :: 0 <= x < |ids| ==> ids[x] < |queue|
    ensures |ClaimsOf(queue, ids)| == |ids|
    ensures forall x :: 0 <= x < |ids| ==> ClaimsOf(queue, ids)[x] == Claim(ids[x], queue[ids[x]].attempts + 1)
  {
    if ids == [] {
    } else {
      ClaimsAre(queue, ids[..|ids| - 1]);
    }
  }

  lemma ClaimKeepsOk(s: State, ids: seq<nat>, limit: nat, skipped: set<nat>, maxAttempts: nat)
    requires QueueOk(s, maxAttempts) && Claimable(s, ids, limit, skipped)
    ensures QueueOk(Next(s, ClaimBatch(ids, limit, skipped), maxAttempts), maxAttempts)
  {
    var after := Next(s, ClaimBatch(ids, limit, skipped), maxAttempts);
    forall x, y | 0 <= x < y < |ids| ensures ids[x] != ids[y] { assert Before(s.queue, ids[x], ids[y]); }
    LockAllIs(s.queue, ids, s.now);
    ClaimsAre(s.queue, ids);
    forall id: nat | id < |s.queue|
      ensures Accounted(after.queue[id], id, s.runs, maxAttempts)
      ensures after.queue[id].attempts > 0 ==> id in after.claimed
    {
      assert Accounted(s.queue[id], id, s.runs, maxAttempts);
    }
    hide Accounted;
    forall h | 0 <= h < |after.held| ensures after.held[h].id in after.claimed {
      if h >= |s.held| { assert ids[h - |s.held|] in ids; }
    }
  }

  /** Finishing one run of a message that stays, or leaves, the queue. */
  lemma FinishKeepsOk(s: State, h: nat, m: Message, run: Run, maxAttempts: nat)
    requires QueueOk(s, maxAttempts) && h < |s.held| && run.id == s.held[h].id && run.attempt == s.held[h].attempt
    requires run.id < |s.queue| && m.attempts == s.queue[run.id].attempts
    requires var was := s.queue[run.id];
             && (m.dispatched ==> was.dispatched || run.succeeded)
             && (m.failed ==> was.failed || (!run.succeeded && run.attempt >= maxAttempts))
    ensures QueueOk(s.(queue := s.queue[run.id := m], held := Drop(s.held, h), runs := s.runs + [run]), maxAttempts)
  {
    var after := s.(queue := s.queue[run.id := m], held := Drop(s.held, h), runs := s.runs + [run]);
    forall id | 0 <= id < |s.queue| ensures Accounted(after.queue[id], id, after.runs, maxAttempts) {
      assert Accounted(s.queue[id], id, s.runs, maxAttempts);
      MoreRuns(s.queue[id], id, s.runs, run, maxAttempts);
      assert after.runs[|s.runs|] == run;
    }
    hide Accounted;
    assert Marked(after);
  }

  lemma MoreRuns(m: Message, id: nat, runs: seq<Run>, run: Run, maxAttempts: nat)
    requires Accounted(m, id, runs, maxAttempts)
    ensures Accounted(m, id, runs + [run], maxAttempts)
  {
    var more := runs + [run];
    if m.dispatched {
      var r :| 0 <= r < |runs| && runs[r].id == id && runs[r].succeeded;
      assert more[r] == runs[r];
    }
    if m.failed {
      var r :| 0 <= r < |runs| && runs[r].id == id && !runs[r].succeeded && runs[r].attempt >= maxAttempts;
      assert more[r] == runs[r];
    }
  }

  lemma NextKeepsOk(s: State, e: Event, maxAttempts: nat)
    requires QueueOk(s, maxAttempts)
    ensures QueueOk(Next(s, e, maxAttempts), maxAttempts)
  {
    hide Accounted, BackoffFor;
    match e
    case Publish(key) =>
      var after := Next(s, e, maxAttempts);
      forall id | 0 <= id < |after.queue| ensures Accounted(after.queue[id], id, after.runs, maxAttempts) {
        if id < |s.queue| {
          assert Accounted(s.queue[id], id, s.runs, maxAttempts);
        } else {
          NewMessageAccounted(after.queue[id], id, s.runs, maxAttempts);
        }
      }
    case Wait(_) =>
    case ClaimBatch(ids, limit, skipped) =>
      if Claimable(s, ids, limit, skipped) {
        hide QueueOk;
        ClaimKeepsOk(s, ids, limit, skipped, maxAttempts);
      }
    case Acknowledge(h) =>
      if h < |s.held| {
        var c := s.held[h];
        FinishKeepsOk(s, h, Dispatch(s.queue[c.id]), Run(c.id, c.attempt, true), maxAttempts);
      }
    case Reject(h) =>
      if h < |s.held| {
        var c := s.held[h];
        FinishKeepsOk(s, h, Refuse(s.queue[c.id], c.attempt, maxAttempts, s.now), Run(c.id, c.attempt, false),
                      maxAttempts);
      }
    case Crash(h) =>
    case Replay(id) => ReplayKeepsOk(s, id, maxAttempts);
  }

  lemma ReplayKeepsOk(s: State, id: nat, maxAttempts: nat)
    requires QueueOk(s, maxAttempts)
    ensures QueueOk(Next(s, Replay(id), maxAttempts), maxAttempts)
  {
    var after := Next(s, Replay(id), maxAttempts);
    forall x | 0 <= x < |s.queue| ensures Accounted(after.queue[x], x, after.runs, maxAttempts) {
      assert Accounted(s.queue[x], x, s.runs, maxAttempts);
    }
    hide Accounted;
  }

  lemma NewMessageAccounted(m: Message, id: nat, runs: seq<Run>, maxAttempts: nat)
    requires Pending(m)
    ensures Accounted(m, id, runs, maxAttempts)
  {
  }

  lemma {:induction false} ReachKeepsOk(events: seq<Event>, maxAttempts: nat)
    ensures QueueOk(Reach(EMPTY, events, maxAttempts), maxAttempts)
  {
    if events == [] {
      assert QueueOk(EMPTY, maxAttempts);
    } else {
      hide QueueOk, Next;
      ReachKeepsOk(events[..|events| - 1], maxAttempts);
      NextKeepsOk(Reach(EMPTY, events[..|events| - 1], maxAttempts), events[|events| - 1], maxAttempts);
    }
  }

  /** No message is lost, replays or not: one that is gone was dispatched by a run in
      which no handler failed, or was dead-lettered by a failing run at the last
      attempt. */
  lemma NoMessageIsLost(events: seq<Event>, maxAttempts: nat, id: nat)
    requires id < |Reach(EMPTY, events, maxAttempts).queue|
    requires !Pending(Reach(EMPTY, events, maxAttempts).queue[id])
    ensures exists r :: 0 <= r < |Reach(EMPTY, events, maxAttempts).runs|
                        && var run := Reach(EMPTY, events, maxAttempts).runs[r];
                        run.id == id && (run.succeeded || run.attempt >= maxAttempts)
  {
    ReachKeepsOk(events, maxAttempts);
    hide Reach;
    var s := Reach(EMPTY, events, maxAttempts);
    assert Accounted(s.queue[id], id, s.runs, maxAttempts);
  }

  /** A claimed message belongs to its worker for the length of the lock: nobody else
      can claim it before, and if the worker died, anybody can right after. */
  lemma ClaimedIsExclusive(s: State, ids: seq<nat>, limit: nat, skipped: set<nat>, maxAttempts: nat, id: nat,
                           seconds: nat)
    requires Claimable(s, ids, limit, skipped) && id in ids
    ensures var later := Next(Next(s, ClaimBatch(ids, limit, skipped), maxAttempts), Wait(seconds), maxAttempts);
            && later.queue[id].attempts == s.queue[id].attempts + 1
            && (Eligible(later, id) <==> seconds > LOCK_SECONDS)
  {
    var after := Next(s, ClaimBatch(ids, limit, skipped), maxAttempts);
    forall x, y | 0 <= x < y < |ids| ensures ids[x] != ids[y] { assert Before(s.queue, ids[x], ids[y]); }
    LockAllIs(s.queue, ids, s.now);
    assert Eligible(s, id);
    forall x | 0 <= x < |s.queue|
      ensures after.queue[x].key == s.queue[x].key && (Pending(after.queue[x]) <==> Pending(s.queue[x]))
    {
    }
  }

  /** A message whose handlers failed before its last attempt comes back exactly when
      its backoff has passed. */
  lemma RefusedComesBack(s: State, h: nat, maxAttempts: nat, seconds: nat)
    requires h < |s.held| && s.held[h].id < |s.queue| && s.held[h].attempt < maxAttempts
    requires Pending(s.queue[s.held[h].id]) && OldestOfKey(s.queue, s.held[h].id)
    ensures var later := Next(Next(s, Reject(h), maxAttempts), Wait(seconds), maxAttempts);
            Eligible(later, s.held[h].id) <==> seconds >= BackoffFor(s.held[h].attempt)
  {
    hide BackoffFor;
    var after := Next(s, Reject(h), maxAttempts);
    forall x | 0 <= x < |s.queue|
      ensures after.queue[x].key == s.queue[x].key && (Pending(after.queue[x]) <==> Pending(s.queue[x]))
    {
    }
  }

  /** A run that completes at or past the last attempt takes its message out of the
      queue, whichever way it ends, so failing handlers cannot keep one forever. */
  lemma LastAttemptEnds(s: State, h: nat, maxAttempts: nat)
    requires h < |s.held| && s.held[h].id < |s.queue| && s.held[h].attempt >= maxAttempts
    ensures !Pending(Next(s, Acknowledge(h), maxAttempts).queue[s.held[h].id])
    ensures !Pending(Next(s, Reject(h), maxAttempts).queue[s.held[h].id])
  {
  }

  // ---- ordering ------------------------------------------------------------------------

  /** A message that was ever claimed has no older message of its key in the queue. */
  predicate InOrder(s: State) {
    forall id :: id in s.claimed ==> id < |s.queue| && OldestOfKey(s.queue, id)
  }

  /** No newer message of the key was ever claimed, or replaying this one changes
      nothing that waits. */
  predicate SafeReplay(s: State, id: nat) {
    id < |s.queue| && s.queue[id].failed && !s.queue[id].dispatched && s.queue[id].key.Some? ==>
      forall x :: id < x < |s.queue| && s.queue[x].key == s.queue[id].key ==> x !in s.claimed
  }

  /** A replay keeps the order exactly when no newer message of its key was ever
      claimed before it, whatever became of that one since. */
  lemma ReplayKeepsOrderIff(s: State, id: nat, maxAttempts: nat)
    requires InOrder(s)
    ensures InOrder(Next(s, Replay(id), maxAttempts)) <==> SafeReplay(s, id)
  {
    var after := Next(s, Replay(id), maxAttempts);
    if id < |s.queue| && s.queue[id].failed {
      if SafeReplay(s, id) {
        forall b | b in after.claimed ensures b < |after.queue| && OldestOfKey(after.queue, b) {
          assert OldestOfKey(s.queue, b);
        }
      } else {
        var x :| id < x < |s.queue| && s.queue[x].key == s.queue[id].key && x in s.claimed;
        assert !OldestOfKey(after.queue, x) by {
          assert Pending(after.queue[id]) && after.queue[id].key == after.queue[x].key;
        }
      }
    }
  }

  /** Order is a matter of keys, of what is pending and of what was claimed. */
  lemma SameOrder(a: State, b: State)
    requires |a.queue| == |b.queue|
    requires forall id :: 0 <= id < |a.queue| ==>
                            b.queue[id].key == a.queue[id].key && (Pending(b.queue[id]) ==> Pending(a.queue[id]))
    requires forall id :: id in b.claimed ==> id < |a.queue| && OldestOfKey(a.queue, id)
    ensures InOrder(b)
  {
    hide Pending;
  }

  /** Every other step keeps it. */
  lemma StepKeepsOrder(s: State, e: Event, maxAttempts: nat)
    requires InOrder(s) && !e.Replay?
    ensures InOrder(Next(s, e, maxAttempts))
  {
    hide BackoffFor;
    var after := Next(s, e, maxAttempts);
    match e
    case Publish(_) =>
      forall b | b in after.claimed ensures b < |after.queue| && OldestOfKey(after.queue, b) {
        assert OldestOfKey(s.queue, b);
      }
    case Wait(_) =>
    case ClaimBatch(ids, limit, skipped) =>
      if Claimable(s, ids, limit, skipped) { ClaimKeepsOrder(s, ids, limit, skipped, maxAttempts); }
    case Acknowledge(h) => if h < |s.held| && s.held[h].id < |s.queue| { SameOrder(s, after); }
    case Reject(h) => if h < |s.held| && s.held[h].id < |s.queue| { SameOrder(s, after); }
    case Crash(_) =>
  }

  lemma ClaimKeepsOrder(s: State, ids: seq<nat>, limit: nat, skipped: set<nat>, maxAttempts: nat)
    requires InOrder(s) && Claimable(s, ids, limit, skipped)
    ensures InOrder(Next(s, ClaimBatch(ids, limit, skipped), maxAttempts))
  {
    forall x, y | 0 <= x < y < |ids| ensures ids[x] != ids[y] { assert Before(s.queue, ids[x], ids[y]); }
    LockAllIs(s.queue, ids, s.now);
    var after := Next(s, ClaimBatch(ids, limit, skipped), maxAttempts);
    forall id | id in after.claimed ensures id < |s.queue| && OldestOfKey(s.queue, id) {
      if id in ids { assert Eligible(s, id); }
    }
    hide OldestOfKey;
    SameOrder(s, after);
  }

  predicate AlwaysInOrder(events: seq<Event>, maxAttempts: nat) {
    forall n :: 0 <= n <= |events| ==> InOrder(Reach(EMPTY, events[..n], maxAttempts))
  }

  predicate SafeReplays(events: seq<Event>, maxAttempts: nat) {
    forall n :: 0 <= n < |events| && events[n].Replay? ==>
      SafeReplay(Reach(EMPTY, events[..n], maxAttempts), events[n].id)
  }

  lemma StepAt(events: seq<Event>, n: nat, maxAttempts: nat)
    requires n < |events|
    ensures Reach(EMPTY, events[..n + 1], maxAttempts)
            == Next(Reach(EMPTY, events[..n], maxAttempts), events[n], maxAttempts)
  {
    hide Next;
    assert events[..n + 1][..n] == events[..n];
  }

  lemma {:induction false} OrderSoFar(events: seq<Event>, n: nat, maxAttempts: nat)
    requires n <= |events| && SafeReplays(events, maxAttempts)
    ensures InOrder(Reach(EMPTY, events[..n], maxAttempts))
  {
    hide Next, SafeReplay, InOrder;
    if n == 0 {
      assert events[..0] == [];
      NothingOutOfOrder();
    } else {
      OrderSoFar(events, n - 1, maxAttempts);
      StepAt(events, n - 1, maxAttempts);
      var s := Reach(EMPTY, events[..n - 1], maxAttempts);
      if events[n - 1].Replay? {
        ReplayKeepsOrderIff(s, events[n - 1].id, maxAttempts);
      } else {
        StepKeepsOrder(s, events[n - 1], maxAttempts);
      }
    }
  }

  lemma NothingOutOfOrder()
    ensures InOrder(EMPTY)
  {
  }

  /** Over every run, with any workers, crashes, late acknowledgements, lock expiries
      and replays: the order holds throughout if and only if every replay found no
      newer message of its key ever claimed. */
  lemma OrderHoldsIff(events: seq<Event>, maxAttempts: nat)
    ensures AlwaysInOrder(events, maxAttempts) <==> SafeReplays(events, maxAttempts)
  {
    hide Next, SafeReplay, InOrder;
    if SafeReplays(events, maxAttempts) {
      forall n | 0 <= n <= |events| ensures InOrder(Reach(EMPTY, events[..n], maxAttempts)) {
        OrderSoFar(events, n, maxAttempts);
      }
    }
    if AlwaysInOrder(events, maxAttempts) {
      forall n | 0 <= n < |events| && events[n].Replay?
        ensures SafeReplay(Reach(EMPTY, events[..n], maxAttempts), events[n].id)
      {
        StepAt(events, n, maxAttempts);
        assert InOrder(Reach(EMPTY, events[..n], maxAttempts)) && InOrder(Reach(EMPTY, events[..n + 1], maxAttempts));
        ReplayKeepsOrderIff(Reach(EMPTY, events[..n], maxAttempts), events[n].id, maxAttempts);
      }
    }
  }

  /** Some claim, worker or run has had this message. */
  predicate WasHad(s: State, id: nat) {
    || (id < |s.queue| && s.queue[id].attempts > 0)
    || (exists h :: 0 <= h < |s.held| && s.held[h].id == id)
    || (exists r :: 0 <= r < |s.runs| && s.runs[r].id == id)
  }

  /** What the order means: as long as every replay is such a one, in particular
      without replays, a message that was claimed, is held, or was run has every older
      message of its key dispatched or dead-lettered. */
  lemma ClaimedInOrder(events: seq<Event>, maxAttempts: nat, a: nat, b: nat)
    requires SafeReplays(events, maxAttempts)
    requires a < b < |Reach(EMPTY, events, maxAttempts).queue|
    ensures var s := Reach(EMPTY, events, maxAttempts);
            && (WasHad(s, b) ==> b in s.claimed)
            && (s.queue[a].key.Some? && s.queue[a].key == s.queue[b].key && b in s.claimed ==> !Pending(s.queue[a]))
  {
    ReachKeepsOk(events, maxAttempts);
    OrderSoFar(events, |events|, maxAttempts);
    assert events[..|events|] == events;
    hide Reach, AllAccounted;
    var s := Reach(EMPTY, events, maxAttempts);
    if b in s.claimed { assert OldestOfKey(s.queue, b); }
  }

  // ---- runs in which it breaks -----------------------------------------------------------

  /** Two messages of one key, just published. */
  function TwoWaiting(key: nat): State {
    EMPTY.(queue := [Message(Some(key), 0, 0, None, false, false), Message(Some(key), 0, 0, None, false, false)])
  }

  lemma TwoWaitingIsReached(key: nat)
    ensures Reach(EMPTY, [Publish(Some(key)), Publish(Some(key))], 1) == TwoWaiting(key)
  {
    var m := Message(Some(key), 0, 0, None, false, false);
    TwoSteps(EMPTY, Publish(Some(key)), Publish(Some(key)), 1);
    assert [] + [m] == [m] && [m] + [m] == [m, m];
  }

  /** The older of two messages fails for good, the newer is claimed. */
  function OlderFailsFirst(): seq<Event> {
    [ClaimBatch([0], 1, {}), Reject(0), ClaimBatch([1], 1, {})]
  }

  function OlderFailed(key: nat): State {
    State(0, [Message(Some(key), 1, 0, None, false, true), Message(Some(key), 1, 0, Some(0), false, false)],
          [Claim(1, 1)], [Run(0, 1, false)], {0, 1})
  }

  lemma OlderFailedIsReached(key: nat)
    ensures Reach(TwoWaiting(key), OlderFailsFirst(), 1) == OlderFailed(key)
  {
    hide Next;
    var s := TwoWaiting(key);
    ThreeSteps(s, ClaimBatch([0], 1, {}), Reject(0), ClaimBatch([1], 1, {}), 1);
    ClaimOlder(s, key);
    var s1 := Next(s, ClaimBatch([0], 1, {}), 1);
    RefuseOlder(s1, key);
    ClaimNewer(Next(s1, Reject(0), 1), key);
  }

  lemma ClaimOlder(s: State, key: nat)
    requires s == TwoWaiting(key)
    ensures Next(s, ClaimBatch([0], 1, {}), 1)
            == State(0, [Message(Some(key), 1, 0, Some(0), false, false), s.queue[1]], [Claim(0, 1)], [], {0})
  {
    assert s.queue[0].key == s.queue[1].key && Pending(s.queue[0]);
    ClaimFirst(s, 0, 1);
  }

  lemma RefuseOlder(s: State, key: nat)
    requires s.queue == [Message(Some(key), 1, 0, Some(0), false, false), Message(Some(key), 0, 0, None, false, false)]
    requires s == State(0, s.queue, [Claim(0, 1)], [], {0})
    ensures Next(s, Reject(0), 1)
            == State(0, [Message(Some(key), 1, 0, None, false, true), s.queue[1]], [], [Run(0, 1, false)], {0})
  {
  }

  lemma ClaimNewer(s: State, key: nat)
    requires s == State(0, [Message(Some(key), 1, 0, None, false, true), Message(Some(key), 0, 0, None, false, false)],
                        [], [Run(0, 1, false)], {0})
    ensures Next(s, ClaimBatch([1], 1, {}), 1) == OlderFailed(key)
  {
    assert Eligible(s, 1);
    ClaimFirst(s, 1, 1);
  }

  /** The order broken, and not by what comes of the newer message: it was claimed, and
      the older one waits. */
  predicate Broken(s: State, key: nat) {
    && |s.queue| == 2 && s.queue[0].key == s.queue[1].key == Some(key)
    && 1 in s.claimed && Pending(s.queue[0]) && !InOrder(s)
  }

  lemma BrokenWhen(s: State, key: nat)
    requires |s.queue| == 2 && s.queue[0].key == s.queue[1].key == Some(key) && 1 in s.claimed && Pending(s.queue[0])
    ensures Broken(s, key)
  {
    assert !OldestOfKey(s.queue, 1);
  }

  /** Replaying the older then leaves it waiting behind the newer. */
  lemma ReplayBreaksOrder(key: nat)
    ensures InOrder(OlderFailed(key)) && Reach(TwoWaiting(key), OlderFailsFirst(), 1) == OlderFailed(key)
    ensures Broken(Reach(TwoWaiting(key), OlderFailsFirst() + [Replay(0)], 1), key)
  {
    OlderFailedIsReached(key);
    ReachConcat(TwoWaiting(key), OlderFailsFirst(), [Replay(0)], 1);
    OneStep(OlderFailed(key), Replay(0), 1);
    hide Reach;
    BrokenWhen(Next(OlderFailed(key), Replay(0), 1), key);
  }

  /** So it is when the newer was itself replayed since. Its lock expires, a second
      worker claims it and fails for good, it is replayed, and the first worker's late
      acknowledgement delivers it: its attempts read zero, and the older one, replayed
      now, waits behind a message already delivered. */
  function NewerIsReplayedToo(): seq<Event> {
    [Wait(301), ClaimBatch([1], 1, {}), Reject(1)] + [Replay(1), Acknowledge(0), Replay(0)]
  }

  lemma ForgottenClaimBreaksOrder(key: nat)
    ensures var s := Reach(TwoWaiting(key), OlderFailsFirst() + NewerIsReplayedToo(), 1);
            && Broken(s, key) && s.queue[1].dispatched && s.queue[1].attempts == 0
            && s.runs == [Run(0, 1, false), Run(1, 2, false), Run(1, 1, true)]
  {
    hide Next, Reach, Broken;
    var s := OlderFailed(key);
    OlderFailedIsReached(key);
    ReachConcat(TwoWaiting(key), OlderFailsFirst(), NewerIsReplayedToo(), 1);
    ReachConcat(s, [Wait(301), ClaimBatch([1], 1, {}), Reject(1)], [Replay(1), Acknowledge(0), Replay(0)], 1);
    ThreeSteps(s, Wait(301), ClaimBatch([1], 1, {}), Reject(1), 1);
    ClaimedAgain(s, key);
    var t := Next(Next(s, Wait(301), 1), ClaimBatch([1], 1, {}), 1);
    FailedForGood(t, key);
    var u := Next(t, Reject(1), 1);
    ThreeSteps(u, Replay(1), Acknowledge(0), Replay(0), 1);
    LateAcknowledgement(u, key);
    BrokenWhen(Next(Next(Next(u, Replay(1), 1), Acknowledge(0), 1), Replay(0), 1), key);
  }

  lemma ClaimedAgain(s: State, key: nat)
    requires s == OlderFailed(key)
    ensures Next(Next(s, Wait(301), 1), ClaimBatch([1], 1, {}), 1)
            == State(301, [s.queue[0], Message(Some(key), 2, 0, Some(301), false, false)],
                     [Claim(1, 1), Claim(1, 2)], [Run(0, 1, false)], {0, 1})
  {
    var later := Next(s, Wait(301), 1);
    assert Eligible(later, 1);
    ClaimFirst(later, 1, 1);
    assert {0, 1} + {1} == {0, 1};
  }

  lemma FailedForGood(s: State, key: nat)
    requires s.queue == [Message(Some(key), 1, 0, None, false, true),
                         Message(Some(key), 2, 0, Some(301), false, false)]
    requires s == State(301, s.queue, [Claim(1, 1), Claim(1, 2)], [Run(0, 1, false)], {0, 1})
    ensures Next(s, Reject(1), 1)
            == State(301, [s.queue[0], Message(Some(key), 2, 0, None, false, true)],
                     [Claim(1, 1)], [Run(0, 1, false), Run(1, 2, false)], {0, 1})
  {
    assert Drop(s.held, 1) == [Claim(1, 1)];
  }

  lemma LateAcknowledgement(s: State, key: nat)
    requires s == State(301, [Message(Some(key), 1, 0, None, false, true), Message(Some(key), 2, 0, None, false, true)],
                        [Claim(1, 1)], [Run(0, 1, false), Run(1, 2, false)], {0, 1})
    ensures var after := Next(Next(Next(s, Replay(1), 1), Acknowledge(0), 1), Replay(0), 1);
            && after.queue == [Message(Some(key), 0, 301, None, false, false),
                               Message(Some(key), 0, 301, None, true, false)]
            && after.runs == [Run(0, 1, false), Run(1, 2, false), Run(1, 1, true)] && after.claimed == {0, 1}
  {
    var t := Next(s, Replay(1), 1);
    assert t == s.(queue := [s.queue[0], Message(Some(key), 0, 301, None, false, false)]);
    var u := Next(t, Acknowledge(0), 1);
    assert u.queue == [s.queue[0], Message(Some(key), 0, 301, None, true, false)];
  }

  lemma OneStep(s: State, e: Event, maxAttempts: nat)
    ensures Reach(s, [e], maxAttempts) == Next(s, e, maxAttempts)
  {
    hide Next;
    assert [e][..0] == [];
  }

  // ---- progress ----------------------------------------------------------------------

  function PendingCount(queue: seq<Message>): nat {
    if queue == [] then 0
    else PendingCount(queue[..|queue| - 1]) + if Pending(queue[|queue| - 1]) then 1 else 0
  }

  lemma {:induction false} LeavingCounts(queue: seq<Message>, id: nat, m: Message)
    requires id < |queue| && Pending(queue[id]) && !Pending(m)
    ensures PendingCount(queue[id := m]) == PendingCount(queue) - 1
  {
    hide Pending;
    var n := |queue| - 1;
    if id < n {
      LeavingCounts(queue[..n], id, m);
      assert queue[id := m][..n] == queue[..n][id := m];
    } else {
      assert queue[id := m][..n] == queue[..n];
    }
  }

  lemma {:induction false} SameCount(a: seq<Message>, b: seq<Message>)
    requires |a| == |b| && forall id :: 0 <= id < |a| ==> (Pending(a[id]) <==> Pending(b[id]))
    ensures PendingCount(a) == PendingCount(b)
  {
    hide Pending;
    if a == [] {
    } else {
      SameCount(a[..|a| - 1], b[..|b| - 1]);
    }
  }

  lemma {:induction false} LeastPending(queue: seq<Message>) returns (id: nat)
    requires PendingCount(queue) > 0
    ensures id < |queue| && Pending(queue[id]) && forall x :: 0 <= x < id ==> !Pending(queue[x])
  {
    hide Pending;
    var n := |queue| - 1;
    if PendingCount(queue[..n]) > 0 {
      id := LeastPending(queue[..n]);
    } else {
      NoneCounted(queue[..n]);
      assert forall x :: 0 <= x < n ==> queue[..n][x] == queue[x];
      id := n;
    }
  }

  lemma {:induction false} NoneCounted(queue: seq<Message>)
    requires PendingCount(queue) == 0
    ensures forall x :: 0 <= x < |queue| ==> !Pending(queue[x])
  {
    hide Pending;
    if queue == [] {
    } else {
      NoneCounted(queue[..|queue| - 1]);
      assert forall x :: 0 <= x < |queue| - 1 ==> queue[..|queue| - 1][x] == queue[x];
    }
  }

  /** How long until every availability and every lock has passed. */
  function LongEnough(queue: seq<Message>, now: int): nat {
    if queue == [] then 0 else
    var m := queue[|queue| - 1];
    var before := LongEnough(queue[..|queue| - 1], now);
    var locked := if m.lockedAt.None? then 0 else m.lockedAt.value + LOCK_SECONDS + 1 - now;
    Most(before, Most(m.availableAt - now, locked))
  }

  function Most(a: int, b: int): nat {
    if a >= b && a >= 0 then a else if b >= 0 then b else 0
  }

  lemma {:induction false} WaitedLongEnough(queue: seq<Message>, now: int, later: int)
    requires later >= now + LongEnough(queue, now)
    ensures forall id :: 0 <= id < |queue| ==> queue[id].availableAt <= later && Unlocked(queue[id], later)
  {
    if queue == [] {
    } else {
      var init := queue[..|queue| - 1];
      WaitedLongEnough(init, now, later);
      assert forall id :: 0 <= id < |init| ==> init[id] == queue[id];
    }
  }

  /** The claimable message that comes first. */
  lemma {:induction false} FirstEligible(s: State, n: nat, some: nat) returns (first: nat)
    requires n <= |s.queue| && some < n && Eligible(s, some)
    ensures first < n && Eligible(s, first)
    ensures forall id :: 0 <= id < n && Eligible(s, id) && id != first ==> Before(s.queue, first, id)
  {
    hide Eligible;
    if exists x :: 0 <= x < n - 1 && Eligible(s, x) {
      var x :| 0 <= x < n - 1 && Eligible(s, x);
      first := FirstEligible(s, n - 1, x);
      if Eligible(s, n - 1) && s.queue[n - 1].availableAt < s.queue[first].availableAt { first := n - 1; }
    } else {
      first := n - 1;
    }
  }

  /** The least-id pending message of each key can be claimed as soon as its
      availability and its lock have passed. */
  lemma LeastOfKeyIsEligible(s: State, id: nat)
    requires id < |s.queue| && Pending(s.queue[id])
    requires forall x :: 0 <= x < id && s.queue[x].key == s.queue[id].key ==> !Pending(s.queue[x])
    ensures Eligible(s, id) <==> s.queue[id].availableAt <= s.now && Unlocked(s.queue[id], s.now)
  {
  }

  lemma {:induction false} ReachConcat(s: State, a: seq<Event>, b: seq<Event>, maxAttempts: nat)
    ensures Reach(s, a + b, maxAttempts) == Reach(Reach(s, a, maxAttempts), b, maxAttempts)
  {
    hide Next;
    if b == [] {
      assert a + b == a;
    } else {
      ReachConcat(s, a, b[..|b| - 1], maxAttempts);
      assert (a + b)[..|a + b| - 1] == a + b[..|b| - 1];
    }
  }

  /** One message leaves: wait, claim the first, acknowledge it. */
  lemma OneLeaves(s: State, maxAttempts: nat) returns (events: seq<Event>)
    requires PendingCount(s.queue) > 0
    ensures NoReplay(events)
    ensures PendingCount(Reach(s, events, maxAttempts).queue) == PendingCount(s.queue) - 1
  {
    hide Next, OldestOfKey;
    var wait := LongEnough(s.queue, s.now);
    var s1 := s.(now := s.now + wait);
    var least := LeastPending(s.queue);
    WaitedLongEnough(s.queue, s.now, s1.now);
    LeastOfKeyIsEligible(s1, least);
    var first := FirstEligible(s1, |s1.queue|, least);
    var claim := ClaimBatch([first], 1, {});
    ClaimFirst(s1, first, maxAttempts);
    var s2 := Next(s1, claim, maxAttempts);
    var ack := Acknowledge(|s1.held|);
    var s3 := Next(s2, ack, maxAttempts);
    AcknowledgeFirst(s2, |s1.held|, first, maxAttempts);
    SameCount(s1.queue, s2.queue);
    events := [Wait(wait), claim, ack];
    WaitStep(s, wait, maxAttempts);
    ThreeSteps(s, Wait(wait), claim, ack, maxAttempts);
  }

  lemma WaitStep(s: State, wait: nat, maxAttempts: nat)
    ensures Next(s, Wait(wait), maxAttempts) == s.(now := s.now + wait)
  {
  }

  lemma ThreeSteps(s: State, a: Event, b: Event, c: Event, maxAttempts: nat)
    ensures Reach(s, [a, b, c], maxAttempts) == Next(Next(Next(s, a, maxAttempts), b, maxAttempts), c, maxAttempts)
  {
    hide Next;
    TwoSteps(s, a, b, maxAttempts);
    assert [a, b, c][..2] == [a, b];
  }

  lemma TwoSteps(s: State, a: Event, b: Event, maxAttempts: nat)
    ensures Reach(s, [a, b], maxAttempts) == Next(Next(s, a, maxAttempts), b, maxAttempts)
  {
    hide Next;
    OneStep(s, a, maxAttempts);
    assert [a, b][..1] == [a];
  }

  lemma ClaimFirst(s: State, first: nat, maxAttempts: nat)
    requires first < |s.queue| && Eligible(s, first)
    requires forall id :: 0 <= id < |s.queue| && Eligible(s, id) && id != first ==> Before(s.queue, first, id)
    ensures var after := Next(s, ClaimBatch([first], 1, {}), maxAttempts);
            && after.queue == s.queue[first := Lock(s.queue[first], s.now)]
            && after.held == s.held + [Claim(first, s.queue[first].attempts + 1)]
            && after.now == s.now && after.runs == s.runs && after.claimed == s.claimed + {first}
            && (forall id :: 0 <= id < |s.queue| ==> (Pending(s.queue[id]) <==> Pending(after.queue[id])))
  {
    hide OldestOfKey;
    assert Claimable(s, [first], 1, {});
    LockAllIs(s.queue, [first], s.now);
    ClaimsAre(s.queue, [first]);
  }

  lemma AcknowledgeFirst(s: State, h: nat, id: nat, maxAttempts: nat)
    requires h < |s.held| && s.held[h].id == id < |s.queue| && Pending(s.queue[id])
    ensures PendingCount(Next(s, Acknowledge(h), maxAttempts).queue) == PendingCount(s.queue) - 1
  {
    LeavingCounts(s.queue, id, Dispatch(s.queue[id]));
  }

  /** Progress: from every state whatever, with time passing and handlers succeeding,
      the queue can be drained without a replay. The ordering guard and the locks never
      block one another for good. */
  lemma {:induction false} AlwaysDrainable(s: State, maxAttempts: nat) returns (events: seq<Event>)
    ensures NoReplay(events)
    ensures forall id :: 0 <= id < |Reach(s, events, maxAttempts).queue| ==>
              !Pending(Reach(s, events, maxAttempts).queue[id])
    decreases PendingCount(s.queue)
  {
    hide Next, Pending;
    if PendingCount(s.queue) == 0 {
      NoneCounted(s.queue);
      events := [];
    } else {
      var some := OneLeaves(s, maxAttempts);
      var rest := AlwaysDrainable(Reach(s, some, maxAttempts), maxAttempts);
      ReachConcat(s, some, rest, maxAttempts);
      events := some + rest;
    }
  }

  // ---- the table ---------------------------------------------------------------------

  /** The outbox table, updated row by row by the dispatcher's statements. */
  class Table {
    const maxAttempts: nat
    var now: int
    var queue: seq<Message>
    var held: seq<Claim>
    ghost var runs: seq<Run>
    ghost var claimed: set<nat>

    constructor (maxAttempts: nat)
      ensures View() == EMPTY && this.maxAttempts == maxAttempts
    {
      this.maxAttempts := maxAttempts;
      now, queue, held, runs, claimed := 0, [], [], [], {};
    }

    ghost function View(): State
      reads this
    {
      State(now, queue, held, runs, claimed)
    }

    /** A row this claim may still take: eligible, not taken by it yet, and not
        locked by another claim at this moment. */
    predicate Takable(ids: seq<nat>, skipped: set<nat>, id: nat)
      reads this
    {
      Ready(queue, now, id) && id !in ids && id !in skipped
    }

    /** The first of them. */
    method PickNext(ids: seq<nat>, skipped: set<nat>) returns (found: Option<nat>)
      requires forall x :: 0 <= x < |ids| ==> ids[x] < |queue|
      ensures found.None? ==> forall id :: 0 <= id < |queue| ==> !Takable(ids, skipped, id)
      ensures found.Some? ==>
                && found.value < |queue| && Takable(ids, skipped, found.value)
                && forall id :: 0 <= id < |queue| && Takable(ids, skipped, id) && id != found.value ==>
                                  Before(queue, found.value, id)
    {
      hide Ready, Takable;
      found := None;
      var k := 0;
      while k < |queue|
        invariant 0 <= k <= |queue|
        invariant found.None? ==> forall id :: 0 <= id < k ==> !Takable(ids, skipped, id)
        invariant found.Some? ==>
                    && found.value < k && Takable(ids, skipped, found.value)
                    && forall id :: 0 <= id < k && Takable(ids, skipped, id) && id != found.value ==>
                                      Before(queue, found.value, id)
      {
        if Takable(ids, skipped, k) {
          if found.None? || queue[k].availableAt < queue[found.value].availableAt { found := Some(k); }
        }
        k := k + 1;
      }
    }

    /** claim: the first `limit` eligible messages that no other claim holds are
        locked, their attempts counted, and they are handed to the worker. */
    method ClaimUpTo(limit: nat, skipped: set<nat>) returns (ids: seq<nat>)
      modifies this
      ensures Claimable(old(View()), ids, limit, skipped)
      ensures View() == Next(old(View()), ClaimBatch(ids, limit, skipped), maxAttempts)
    {
      hide Ready;
      ids := [];
      var more := true;
      while more && |ids| < limit
        invariant |ids| <= limit && View() == old(View())
        invariant forall x :: 0 <= x < |ids| ==> ids[x] < |queue| && Ready(queue, now, ids[x]) && ids[x] !in skipped
        invariant forall x, y :: 0 <= x < y < |ids| ==> Before(queue, ids[x], ids[y])
        invariant forall id, x :: 0 <= id < |queue| && Takable(ids, skipped, id) && 0 <= x < |ids| ==>
                                    Before(queue, ids[x], id)
        invariant !more ==> forall id :: 0 <= id < |queue| ==> !Takable(ids, skipped, id)
        decreases limit - |ids|, more
      {
        var found := PickNext(ids, skipped);
        match found
        case None => more := false;
        case Some(id) =>
          forall other: nat | Takable(ids + [id], skipped, other) ensures Takable(ids, skipped, other) && other != id {
            assert id in ids + [id];
          }
          ids := ids + [id];
      }
      forall id: nat | id < |queue| && Eligible(View(), id) && id !in ids && id !in skipped
        ensures Takable(ids, skipped, id)
      {
      }
      assert Claimable(View(), ids, limit, skipped);
      held, claimed := held + ClaimsOf(queue, ids), claimed + set id | id in ids;
      queue := LockAll(queue, ids, now);
    }

    /** process and its ack or nack, for a message in hand. */
    method Finish(h: nat, handlers: seq<bool>)
      requires h < |held| && held[h].id < |queue|
      modifies this
      ensures View() == Next(old(View()),
                             if forall x :: 0 <= x < |handlers| ==> handlers[x] then Acknowledge(h) else Reject(h),
                             maxAttempts)
    {
      var c := held[h];
      var acknowledge, _ := Process(handlers);
      held := Drop(held, h);
      runs := runs + [Run(c.id, c.attempt, acknowledge)];
      if acknowledge {
        queue := queue[c.id := queue[c.id].(dispatched := true, lockedAt := None)];
        return;
      }
      var backoff := ComputeBackoff(c.attempt);
      if c.attempt >= maxAttempts {
        queue := queue[c.id := queue[c.id].(failed := true, lockedAt := None)];
      } else {
        queue := queue[c.id := queue[c.id].(availableAt := now + backoff, lockedAt := None)];
      }
    }
  }
}
