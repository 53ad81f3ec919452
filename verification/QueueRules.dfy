/** Every step of the outbox written out on the rows themselves (internal/outbox):
    which messages a claim takes, and what each operation does to a row, to the
    claims in hand and to the record of runs. */
module QueueRules {
  import opened Money
  import opened Outbox

  /** The waiting time after a failed attempt, in seconds. */
  function Seconds(attempt: nat): nat {
    if attempt <= 1 then 2 else if attempt == 2 then 4 else if attempt == 3 then 8 else if attempt == 4 then 16
    else if attempt == 5 then 32 else if attempt == 6 then 64 else if attempt == 7 then 128
    else if attempt == 8 then 256 else if attempt == 9 then 512 else 600
  }

  lemma BackoffIs(attempt: nat)
    ensures BackoffFor(attempt) == Seconds(attempt)
  {
    if attempt > 10 { DoubledGrows(9, attempt - 1); }
    assert Doubled(3) == 16 && Doubled(6) == 128 && Doubled(9) == 1024;
  }

  /** Eligible: neither dispatched nor dead, its time has come, nobody locked it in the
      last five minutes, and no older message of its key is still waiting. */
  lemma EligibleIs(s: State, id: nat)
    ensures Eligible(s, id) <==>
              && id < |s.queue|
              && !s.queue[id].dispatched && !s.queue[id].failed
              && s.queue[id].availableAt <= s.now
              && (s.queue[id].lockedAt.Some? ==> s.queue[id].lockedAt.value < s.now - 300)
              && (s.queue[id].key.Some? ==>
                    forall x :: 0 <= x < id && s.queue[x].key == s.queue[id].key ==>
                                  s.queue[x].dispatched || s.queue[x].failed)
  {
  }

  /** What a claim takes is in the order of availability and then of insertion, has
      nothing locked by another claim in it, and leaves an eligible row only when it is
      full and that row comes later. */
  lemma ClaimTakes(s: State, ids: seq<nat>, limit: nat, skipped: set<nat>)
    ensures Claimable(s, ids, limit, skipped) <==>
              && |ids| <= limit
              && (forall x :: 0 <= x < |ids| ==> Eligible(s, ids[x]) && ids[x] !in skipped)
              && (forall x, y :: 0 <= x < y < |ids| ==>
                    var a, b := s.queue[ids[x]].availableAt, s.queue[ids[y]].availableAt;
                    a < b || (a == b && ids[x] < ids[y]))
              && (forall id :: 0 <= id < |s.queue| && Eligible(s, id) && id !in skipped && id !in ids ==>
                    && |ids| == limit
                    && forall x :: 0 <= x < |ids| ==>
                         var a, b := s.queue[ids[x]].availableAt, s.queue[id].availableAt;
                         a < b || (a == b && ids[x] < id))
  {
    hide OldestOfKey, Unlocked;
  }

  /** A claim locks the rows it takes at the present time, counts one more attempt on
      each, hands them out under that number, and touches no other row. */
  lemma ClaimIs(s: State, ids: seq<nat>, limit: nat, skipped: set<nat>, maxAttempts: nat)
    requires Claimable(s, ids, limit, skipped)
    ensures var after := Next(s, ClaimBatch(ids, limit, skipped), maxAttempts);
            && after.now == s.now && after.runs == s.runs && |after.queue| == |s.queue|
            && (forall id :: 0 <= id < |s.queue| && id !in ids ==> after.queue[id] == s.queue[id])
            && (forall id :: 0 <= id < |s.queue| && id in ids ==>
                  after.queue[id] == Message(s.queue[id].key, s.queue[id].attempts + 1, s.queue[id].availableAt,
                                             Some(s.now), s.queue[id].dispatched, s.queue[id].failed))
            && |after.held| == |s.held| + |ids| && after.held[..|s.held|] == s.held
            && (forall x :: 0 <= x < |ids| ==>
                  after.held[|s.held| + x] == Claim(ids[x], s.queue[ids[x]].attempts + 1))
            && (forall id :: id in after.claimed <==> id in s.claimed || id in ids)
  {
    hide Pending, Unlocked, OldestOfKey;
    forall x, y | 0 <= x < y < |ids| ensures ids[x] != ids[y] { assert Before(s.queue, ids[x], ids[y]); }
    LockAllIs(s.queue, ids, s.now);
    ClaimsAre(s.queue, ids);
  }

  /** What is not such a choice is no claim. */
  lemma NoOtherClaim(s: State, ids: seq<nat>, limit: nat, skipped: set<nat>, maxAttempts: nat)
    requires !Claimable(s, ids, limit, skipped)
    ensures Next(s, ClaimBatch(ids, limit, skipped), maxAttempts) == s
  {
  }

  /** The claims in hand after the h-th has been given up. */
  ghost predicate WithoutClaim(s: State, h: nat, after: State) {
    && h < |s.held| && |after.held| == |s.held| - 1
    && forall x :: 0 <= x < |after.held| ==> after.held[x] == s.held[if x < h then x else x + 1]
  }

  /** No row but this one differs. */
  ghost predicate OnlyRow(s: State, id: nat, after: State) {
    && |after.queue| == |s.queue|
    && forall x :: 0 <= x < |s.queue| && x != id ==> after.queue[x] == s.queue[x]
  }

  /** An acknowledged message is dispatched and unlocked, whoever holds its lock. */
  lemma AcknowledgeIs(s: State, h: nat, maxAttempts: nat)
    requires h < |s.held| && s.held[h].id < |s.queue|
    ensures var after, c := Next(s, Acknowledge(h), maxAttempts), s.held[h];
            && WithoutClaim(s, h, after) && OnlyRow(s, c.id, after)
            && after.queue[c.id] == Message(s.queue[c.id].key, s.queue[c.id].attempts, s.queue[c.id].availableAt,
                                            None, true, s.queue[c.id].failed)
            && after.runs == s.runs + [Run(c.id, c.attempt, true)]
            && after.now == s.now && after.claimed == s.claimed
  {
  }

  /** A rejected one is unlocked, and dead from the last attempt on; before that it waits
      for the time of the attempt that failed. */
  lemma RejectIs(s: State, h: nat, maxAttempts: nat)
    requires h < |s.held| && s.held[h].id < |s.queue|
    ensures var after, c := Next(s, Reject(h), maxAttempts), s.held[h];
            && WithoutClaim(s, h, after) && OnlyRow(s, c.id, after)
            && after.queue[c.id] == Message(s.queue[c.id].key, s.queue[c.id].attempts,
                                            if c.attempt >= maxAttempts then s.queue[c.id].availableAt
                                            else s.now + Seconds(c.attempt),
                                            None, s.queue[c.id].dispatched,
                                            s.queue[c.id].failed || c.attempt >= maxAttempts)
            && after.runs == s.runs + [Run(c.id, c.attempt, false)]
            && after.now == s.now && after.claimed == s.claimed
  {
    BackoffIs(s.held[h].attempt);
  }

  /** A worker that dies leaves nothing behind but its lock. */
  lemma CrashIs(s: State, h: nat, maxAttempts: nat)
    requires h < |s.held|
    ensures var after := Next(s, Crash(h), maxAttempts);
            && WithoutClaim(s, h, after) && after == State(s.now, s.queue, after.held, s.runs, s.claimed)
  {
  }

  /** A replay puts a dead letter back at once with its attempts cleared, and does nothing
      to any other message. */
  lemma ReplayIs(s: State, id: nat, maxAttempts: nat)
    ensures var after := Next(s, Replay(id), maxAttempts);
            && after == State(s.now, after.queue, s.held, s.runs, s.claimed) && OnlyRow(s, id, after)
            && (id < |s.queue| ==>
                  after.queue[id] == if s.queue[id].failed
                                     then Message(s.queue[id].key, 0, s.now, s.queue[id].lockedAt,
                                                  s.queue[id].dispatched, false)
                                     else s.queue[id])
  {
  }

  /** A published message enters at the end, available at once and never attempted;
      waiting moves the clock alone; and nobody can finish what nobody holds. */
  lemma RestOfTheStepsAre(s: State, e: Event, maxAttempts: nat)
    ensures e.Publish? ==>
              Next(s, e, maxAttempts) == State(s.now, s.queue + [Message(e.key, 0, s.now, None, false, false)],
                                               s.held, s.runs, s.claimed)
    ensures e.Wait? ==> Next(s, e, maxAttempts) == State(s.now + e.seconds, s.queue, s.held, s.runs, s.claimed)
    ensures (e.Acknowledge? || e.Reject? || e.Crash?) && e.h >= |s.held| ==> Next(s, e, maxAttempts) == s
  {
  }

  /** A run is its steps in turn. */
  lemma RunIs(s: State, events: seq<Event>, e: Event, maxAttempts: nat)
    ensures Reach(s, [], maxAttempts) == s
    ensures Reach(s, events + [e], maxAttempts) == Next(Reach(s, events, maxAttempts), e, maxAttempts)
  {
    hide Next;
    assert (events + [e])[..|events + [e]| - 1] == events;
  }
}
