/** The unit-of-work runner of internal/platform/db: run the closure, commit, and
    run it again from the start after a transient conflict. */
module Transactions {

  const MAX_RETRY: nat := 5
  const FIRST_BACKOFF_MS: nat := 5
  const MAX_BACKOFF_MS: nat := 500

  /** A database error: its SQLSTATE and the constraint it names. */
  datatype PgError = PgError(code: string, constraint: string)

  const IDEMPOTENCY_CONSTRAINTS: set<string> :=
    {"journal_entries_idempotency_uq", "idempotency_keys_unique_idx", "provider_webhook_events_uq",
     "jobs_unique_key_idx"}

  /** Serialization failures, deadlocks, and losing the race for an idempotency key. */
  predicate IsRetryable(e: PgError) {
    e.code == "40001" || e.code == "40P01" || (e.code == "23505" && e.constraint in IDEMPOTENCY_CONSTRAINTS)
  }

  /** How one run of the closure and its commit ended. */
  datatype RunResult = Committed | RollbackRequested | DbFailure(e: PgError) | OtherFailure

  predicate Transient(r: RunResult) {
    r.DbFailure? && IsRetryable(r.e)
  }

  datatype TxResult = TxOk | TxFailed(r: RunResult) | Exhausted(last: RunResult)

  /** The first run that does not end in a transient conflict. */
  function Decisive(runs: seq<RunResult>): (k: nat)
    ensures k <= |runs|
    ensures forall i :: 0 <= i < k ==> Transient(runs[i])
    ensures k < |runs| ==> !Transient(runs[k])
  {
    if runs == [] || !Transient(runs[0]) then 0 else
    var k := Decisive(runs[1..]);
    assert forall i :: 1 <= i < k + 1 ==> runs[i] == runs[1..][i - 1];
    k + 1
  }

  function ResultOf(r: RunResult): TxResult {
    if r == Committed || r == RollbackRequested then TxOk else TxFailed(r)
  }

  /** The wait before the k-th retry, before jitter. */
  function Backoff(k: nat): nat
    requires k > 0
  {
    if k == 1 then FIRST_BACKOFF_MS else
    var doubled := 2 * Backoff(k - 1);
    if doubled > MAX_BACKOFF_MS then MAX_BACKOFF_MS else doubled
  }

  /** What is run again: a serialization failure, a deadlock, and the violation of one
      of the four constraints that stand for a claimed key; nothing else is. */
  lemma RetriedIs(r: RunResult)
    ensures Transient(r)
            <==> r.DbFailure?
                 && (r.e.code == "40001" || r.e.code == "40P01"
                     || (r.e.code == "23505"
                         && (r.e.constraint == "journal_entries_idempotency_uq"
                             || r.e.constraint == "idempotency_keys_unique_idx"
                             || r.e.constraint == "provider_webhook_events_uq"
                             || r.e.constraint == "jobs_unique_key_idx")))
    ensures !Transient(r) ==>
              ResultOf(r) == if r == Committed || r == RollbackRequested then TxOk else TxFailed(r)
  {
  }

  function Doubled(k: nat): nat {
    if k == 0 then 5 else 2 * Doubled(k - 1)
  }

  /** The wait doubles from five milliseconds and stops growing at half a second. */
  lemma {:induction false} WaitsAre(k: nat)
    requires k > 0
    ensures Backoff(k) == if Doubled(k - 1) <= 500 then Doubled(k - 1) else 500
  {
    if k == 1 {
    } else {
      WaitsAre(k - 1);
    }
  }

  /** InTx against a database whose successive answers are `answers`: the closure
      runs until the first answer that is not transient, at most six times, and
      its fate is that answer's. */
  method InTx(answers: seq<RunResult>) returns (r: TxResult, runs: nat, waits: seq<nat>)
    requires |answers| > MAX_RETRY
    ensures var k := Decisive(answers);
            if k <= MAX_RETRY then runs == k + 1 && r == ResultOf(answers[k])
            else runs == MAX_RETRY + 1 && r == Exhausted(answers[MAX_RETRY])
    ensures 1 <= runs <= MAX_RETRY + 1 && |waits| == runs - 1
    ensures forall i :: 0 <= i < |waits| ==> waits[i] == Backoff(i + 1) && waits[i] <= MAX_BACKOFF_MS
  {
    var last := OtherFailure;
    var backoff := FIRST_BACKOFF_MS;
    waits := [];
    var attempt := 0;
    while attempt <= MAX_RETRY
      invariant 0 <= attempt <= MAX_RETRY + 1
      invariant forall i :: 0 <= i < attempt ==> Transient(answers[i])
      invariant attempt > 0 ==> last == answers[attempt - 1]
      invariant |waits| == if attempt == 0 then 0 else attempt - 1
      invariant forall i :: 0 <= i < |waits| ==> waits[i] == Backoff(i + 1) && waits[i] <= MAX_BACKOFF_MS
      invariant backoff == Backoff(if attempt == 0 then 1 else attempt) && backoff <= MAX_BACKOFF_MS
    {
      if attempt > 0 {
        waits := waits + [backoff];
        backoff := backoff * 2;
        if backoff > MAX_BACKOFF_MS { backoff := MAX_BACKOFF_MS; }
      }
      var answer := answers[attempt];
      if answer == Committed || answer == RollbackRequested { return TxOk, attempt + 1, waits; }
      if !Transient(answer) { return TxFailed(answer), attempt + 1, waits; }
      last := answer;
      attempt := attempt + 1;
    }
    return Exhausted(last), attempt, waits;
  }
}
