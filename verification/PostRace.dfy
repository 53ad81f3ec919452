/** Concurrent units of work that post to the journal (ledger.Post under InTx).

    A unit of work posts a list of entries in one transaction. Each posting looks
    its key up, inserts the header under the unique index, then the lines one by
    one. Another transaction's uncommitted key blocks the insert; a committed one
    fails it, which sends the whole unit of work back to the start. Balance is
    checked at commit. Any caller can be scheduled at any point, and its
    transaction can be aborted at any point. */
module PostRace {
  import opened Ledger
  import opened Transactions

  datatype Row = Row(id: nat, entry: Entry)

  datatype Phase = NextPost | Missing | Filling

  /** An open transaction: the ids returned so far and the rows not yet committed. */
  datatype Txn = Txn(ids: seq<nat>, rows: seq<Row>, phase: Phase)

  datatype Caller =
    | Waiting(runs: nat)
    | Running(runs: nat, txn: Txn)
    | Done(runs: nat, ids: seq<nat>)
    | GaveUp(runs: nat)

  datatype State = State(committed: seq<Row>, callers: seq<Caller>, nextId: nat)

  /** What each caller is asked to post. */
  type Work = seq<seq<Entry>>

  datatype Event =
    | Begin(c: nat)
    | Lookup(c: nat)
    | InsertHeader(c: nat)
    | InsertLine(c: nat)
    | Commit(c: nat)
    | Abort(c: nat, retryable: bool)

  function Initial(work: Work): State {
    State([], seq(|work|, _ => Waiting(0)), 0)
  }

  predicate HasRow(rows: seq<Row>, k: Key) {
    exists r :: 0 <= r < |rows| && rows[r].entry.key == k
  }

  function RowOf(rows: seq<Row>, k: Key): (r: nat)
    requires HasRow(rows, k)
    ensures r < |rows| && rows[r].entry.key == k
  {
    if rows[0].entry.key == k then 0 else RowOf(rows[1..], k) + 1
  }

  /** The unique index makes an inserter wait for another transaction's key. */
  predicate Blocked(s: State, c: nat, k: Key) {
    exists d :: 0 <= d < |s.callers| && d != c && s.callers[d].Running? && HasRow(s.callers[d].txn.rows, k)
  }

  /** Back to the start of InTx, unless the retries are used up. */
  function Retry(runs: nat): Caller {
    if runs <= MAX_RETRY then Waiting(runs) else GaveUp(runs)
  }

  function WithCaller(s: State, c: nat, k: Caller): State
    requires c < |s.callers|
  {
    s.(callers := s.callers[c := k])
  }

  predicate AllAccepted(rows: seq<Row>) {
    forall r :: 0 <= r < |rows| ==> Accepted(rows[r].entry)
  }

  /** One step of one caller; a step that is not enabled changes nothing. */
  function Next(work: Work, s: State, e: Event): State {
    if e.c >= |s.callers| || e.c >= |work| then s else
    var caller := s.callers[e.c];
    var posts := work[e.c];
    match e
    case Begin(c) =>
      if caller.Waiting? then WithCaller(s, c, Running(caller.runs + 1, Txn([], [], NextPost))) else s
    case Lookup(c) =>
      if !caller.Running? || caller.txn.phase != NextPost || |caller.txn.ids| >= |posts| then s else
      var t := caller.txn;
      var e := posts[|t.ids|];
      if ValidateSpec(e).Err? then WithCaller(s, c, GaveUp(caller.runs))
      else if HasRow(s.committed, e.key) then
        WithCaller(s, c, caller.(txn := t.(ids := t.ids + [s.committed[RowOf(s.committed, e.key)].id])))
      else if HasRow(t.rows, e.key) then
        WithCaller(s, c, caller.(txn := t.(ids := t.ids + [t.rows[RowOf(t.rows, e.key)].id])))
      else WithCaller(s, c, caller.(txn := t.(phase := Missing)))
    case InsertHeader(c) =>
      if !caller.Running? || caller.txn.phase != Missing || |caller.txn.ids| >= |posts| then s else
      var t := caller.txn;
      var e := posts[|t.ids|];
      if Blocked(s, c, e.key) then s
      else if HasRow(s.committed, e.key) then WithCaller(s, c, Retry(caller.runs))
      else
        WithCaller(s, c, caller.(txn := t.(rows := t.rows + [Row(s.nextId, e.(lines := []))], phase := Filling)))
        .(nextId := s.nextId + 1)
    case InsertLine(c) =>
      if !caller.Running? || caller.txn.phase != Filling then s
      else if |caller.txn.ids| >= |posts| || caller.txn.rows == [] then s else
      var t := caller.txn;
      var e := posts[|t.ids|];
      var last := t.rows[|t.rows| - 1];
      var n := |last.entry.lines|;
      if n >= |e.lines| then WithCaller(s, c, caller.(txn := Txn(t.ids + [last.id], t.rows, NextPost)))
      else if e.lines[n].amount > STORE_MAX then WithCaller(s, c, GaveUp(caller.runs))
      else
        var longer := last.(entry := last.entry.(lines := last.entry.lines + [e.lines[n]]));
        WithCaller(s, c, caller.(txn := t.(rows := t.rows[|t.rows| - 1 := longer])))
    case Commit(c) =>
      if !caller.Running? || caller.txn.phase != NextPost || |caller.txn.ids| != |posts| then s
      else if !AllAccepted(caller.txn.rows) then WithCaller(s, c, GaveUp(caller.runs))
      else WithCaller(s, c, Done(caller.runs, caller.txn.ids)).(committed := s.committed + caller.txn.rows)
    case Abort(c, retryable) =>
      if !caller.Running? then s
      else WithCaller(s, c, if retryable then Retry(caller.runs) else GaveUp(caller.runs))
  }

  function Reach(work: Work, events: seq<Event>): State {
    if events == [] then Initial(work)
    else Next(work, Reach(work, events[..|events| - 1]), events[|events| - 1])
  }

  // ---- the invariant -----------------------------------------------------------------

  predicate UniqueRows(rows: seq<Row>) {
    forall a, b :: 0 <= a < b < |rows| ==> rows[a].entry.key != rows[b].entry.key && rows[a].id != rows[b].id
  }

  predicate Disjoint(a: seq<Row>, b: seq<Row>) {
    forall x, y :: 0 <= x < |a| && 0 <= y < |b| ==> a[x].entry.key != b[y].entry.key && a[x].id != b[y].id
  }

  predicate IdsBelow(rows: seq<Row>, n: nat) {
    forall r :: 0 <= r < |rows| ==> rows[r].id < n
  }

  /** A returned id names a row with the key that was posted. */
  predicate Names(rows: seq<Row>, id: nat, k: Key) {
    exists r :: 0 <= r < |rows| && rows[r].id == id && rows[r].entry.key == k
  }

  predicate Answered(rows: seq<Row>, ids: seq<nat>, posts: seq<Entry>) {
    |ids| <= |posts| && forall n :: 0 <= n < |ids| ==> Names(rows, ids[n], posts[n].key)
  }

  /** The rows of a transaction hold entries it was asked to post, complete except
      for the one whose lines are being inserted. */
  predicate Written(t: Txn, posts: seq<Entry>) {
    && (forall r :: 0 <= r < |t.rows| && (r < |t.rows| - 1 || t.phase != Filling) ==> t.rows[r].entry in posts)
    && (t.phase == Filling && t.rows != [] && |t.ids| < |posts| ==>
          var last, e := t.rows[|t.rows| - 1].entry, posts[|t.ids|];
          |last.lines| <= |e.lines| && last == e.(lines := e.lines[..|last.lines|]))
  }

  predicate CallerOk(s: State, posts: seq<Entry>, k: Caller) {
    && k.runs <= MAX_RETRY + 1
    && (k.Waiting? ==> k.runs <= MAX_RETRY)
    && (k.Done? ==> |k.ids| == |posts| && Answered(s.committed, k.ids, posts))
    && (k.Running? ==>
          && Answered(s.committed + k.txn.rows, k.txn.ids, posts)
          && Written(k.txn, posts)
          && UniqueRows(k.txn.rows) && IdsBelow(k.txn.rows, s.nextId) && Disjoint(s.committed, k.txn.rows)
          && (k.txn.phase == Missing ==> |k.txn.ids| < |posts| && !HasRow(k.txn.rows, posts[|k.txn.ids|].key))
          && (k.txn.phase == Filling ==> |k.txn.ids| < |posts| && k.txn.rows != []
                                          && k.txn.rows[|k.txn.rows| - 1].entry.key == posts[|k.txn.ids|].key))
  }

  predicate Apart(a: Caller, b: Caller) {
    a.Running? && b.Running? ==> Disjoint(a.txn.rows, b.txn.rows)
  }

  /** Every committed entry is one some caller was asked to post, whole. */
  predicate Requested(work: Work, rows: seq<Row>) {
    forall r :: 0 <= r < |rows| ==> exists c :: 0 <= c < |work| && rows[r].entry in work[c]
  }

  predicate RaceInv(work: Work, s: State) {
    && |s.callers| == |work|
    && UniqueRows(s.committed) && IdsBelow(s.committed, s.nextId) && AllAccepted(s.committed)
    && Requested(work, s.committed)
    && (forall c :: 0 <= c < |work| ==> CallerOk(s, work[c], s.callers[c]))
    && forall c, d :: 0 <= c < |work| && 0 <= d < |work| && c != d ==> Apart(s.callers[c], s.callers[d])
  }

  lemma InitialOk(work: Work)
    ensures RaceInv(work, Initial(work))
  {
  }

  // ---- rows --------------------------------------------------------------------------

  lemma NamesGrow(a: seq<Row>, b: seq<Row>, ids: seq<nat>, posts: seq<Entry>)
    requires Answered(a, ids, posts)
    requires forall id, k :: Names(a, id, k) ==> Names(b, id, k)
    ensures Answered(b, ids, posts)
  {
    hide Names;
  }

  lemma NamesInConcat(a: seq<Row>, b: seq<Row>)
    ensures forall id, k :: Names(a, id, k) ==> Names(a + b, id, k)
    ensures forall id, k :: Names(b, id, k) ==> Names(a + b, id, k)
  {
    forall id, k | Names(a, id, k) ensures Names(a + b, id, k) {
      var r :| 0 <= r < |a| && a[r].id == id && a[r].entry.key == k;
      assert (a + b)[r] == a[r];
    }
    forall id, k | Names(b, id, k) ensures Names(a + b, id, k) {
      var r :| 0 <= r < |b| && b[r].id == id && b[r].entry.key == k;
      assert (a + b)[|a| + r] == b[r];
    }
  }

  /** Growing the committed rows keeps what a caller knows. */
  lemma KnowledgeGrows(before: seq<Row>, more: seq<Row>, own: seq<Row>, ids: seq<nat>, posts: seq<Entry>)
    requires Answered(before + own, ids, posts)
    ensures Answered(before + more + own, ids, posts)
  {
    forall id, k | Names(before + own, id, k) ensures Names(before + more + own, id, k) {
      var r :| 0 <= r < |before + own| && (before + own)[r].id == id && (before + own)[r].entry.key == k;
      if r < |before| {
        assert (before + more + own)[r] == before[r];
      } else {
        assert (before + more + own)[r + |more|] == own[r - |before|];
      }
    }
    hide Names;
  }

  lemma AnsweredAppend(rows: seq<Row>, ids: seq<nat>, posts: seq<Entry>, id: nat)
    requires Answered(rows, ids, posts) && |ids| < |posts| && Names(rows, id, posts[|ids|].key)
    ensures Answered(rows, ids + [id], posts)
  {
    hide Names;
  }

  lemma RowNames(rows: seq<Row>, r: nat)
    requires r < |rows|
    ensures Names(rows, rows[r].id, rows[r].entry.key)
  {
  }

  lemma UniqueConcat(a: seq<Row>, b: seq<Row>)
    requires UniqueRows(a) && UniqueRows(b) && Disjoint(a, b)
    ensures UniqueRows(a + b)
  {
  }

  lemma DisjointConcat(a: seq<Row>, b: seq<Row>, c: seq<Row>)
    requires Disjoint(a, c) && Disjoint(b, c)
    ensures Disjoint(a + b, c)
  {
  }

  // ---- steps that touch one caller -----------------------------------------------------

  /** A step that only changes caller c, and does not let it hold new rows. */
  lemma OneCallerKeepsInv(work: Work, s: State, c: nat, k: Caller)
    requires RaceInv(work, s) && c < |work| && CallerOk(s, work[c], k)
    requires k.Running? && k.txn.rows != [] ==> s.callers[c].Running? && SameKeys(s.callers[c].txn.rows, k.txn.rows)
    ensures RaceInv(work, WithCaller(s, c, k))
  {
    hide UniqueRows, IdsBelow, AllAccepted, CallerOk;
    var after := WithCaller(s, c, k);
    forall x | 0 <= x < |work| ensures CallerOk(after, work[x], after.callers[x]) {
      SameTables(s, after, work[x], after.callers[x]);
    }
    forall x, y | 0 <= x < |work| && 0 <= y < |work| && x != y ensures Apart(after.callers[x], after.callers[y]) {
      assert Apart(s.callers[x], s.callers[y]);
    }
  }

  /** Rows differing only in their lines. */
  predicate SameKeys(a: seq<Row>, b: seq<Row>) {
    |a| == |b| && forall r :: 0 <= r < |a| ==> a[r].id == b[r].id && a[r].entry.key == b[r].entry.key
  }

  lemma SameTables(a: State, b: State, posts: seq<Entry>, k: Caller)
    requires a.committed == b.committed && a.nextId == b.nextId && CallerOk(a, posts, k)
    ensures CallerOk(b, posts, k)
  {
  }

  lemma LookupKeepsInv(work: Work, s: State, c: nat)
    requires RaceInv(work, s)
    ensures RaceInv(work, Next(work, s, Lookup(c)))
  {
    hide ValidateSpec, Answered, UniqueRows, IdsBelow, AllAccepted, Disjoint, Names, HasRow, Apart;
    if c < |work| && s.callers[c].Running? && s.callers[c].txn.phase == NextPost && |s.callers[c].txn.ids| < |work[c]| {
      var caller, posts := s.callers[c], work[c];
      var t := caller.txn;
      var e := posts[|t.ids|];
      assert CallerOk(s, posts, caller);
      NamesInConcat(s.committed, t.rows);
      if HasRow(s.committed, e.key) {
        RowNames(s.committed, RowOf(s.committed, e.key));
        AnsweredAppend(s.committed + t.rows, t.ids, posts, s.committed[RowOf(s.committed, e.key)].id);
      } else if HasRow(t.rows, e.key) {
        RowNames(t.rows, RowOf(t.rows, e.key));
        AnsweredAppend(s.committed + t.rows, t.ids, posts, t.rows[RowOf(t.rows, e.key)].id);
      }
      var after := Next(work, s, Lookup(c));
      hide RaceInv;
      assert after == WithCaller(s, c, after.callers[c]);
      OneCallerKeepsInv(work, s, c, after.callers[c]);
    }
  }

  lemma InsertLineKeepsInv(work: Work, s: State, c: nat)
    requires RaceInv(work, s)
    ensures RaceInv(work, Next(work, s, InsertLine(c)))
  {
    hide AllAccepted, Names, HasRow, Apart;
    if c < |work| && s.callers[c].Running? && s.callers[c].txn.phase == Filling {
      var caller, posts := s.callers[c], work[c];
      var t := caller.txn;
      assert CallerOk(s, posts, caller);
      var e := posts[|t.ids|];
      var last := t.rows[|t.rows| - 1];
      var n := |last.entry.lines|;
      var after := Next(work, s, InsertLine(c));
      if n >= |e.lines| {
        assert e.lines[..n] == e.lines && last.entry == e;
        RowNames(t.rows, |t.rows| - 1);
        NamesInConcat(s.committed, t.rows);
        AnsweredAppend(s.committed + t.rows, t.ids, posts, last.id);
      } else if e.lines[n].amount <= STORE_MAX {
        var longer := last.(entry := last.entry.(lines := last.entry.lines + [e.lines[n]]));
        LongerRowNames(s.committed, t.rows, longer, t.ids, posts);
        assert e.lines[..n + 1] == e.lines[..n] + [e.lines[n]];
        assert Written(t.(rows := t.rows[|t.rows| - 1 := longer]), posts);
      }
      hide RaceInv, Answered;
      assert after == WithCaller(s, c, after.callers[c]);
      OneCallerKeepsInv(work, s, c, after.callers[c]);
    }
  }

  lemma LongerRowNames(committed: seq<Row>, rows: seq<Row>, longer: Row, ids: seq<nat>, posts: seq<Entry>)
    requires rows != [] && longer.id == rows[|rows| - 1].id && longer.entry.key == rows[|rows| - 1].entry.key
    requires Answered(committed + rows, ids, posts)
    ensures Answered(committed + rows[|rows| - 1 := longer], ids, posts)
  {
    var after := committed + rows[|rows| - 1 := longer];
    forall id, k | Names(committed + rows, id, k) ensures Names(after, id, k) {
      var r :| 0 <= r < |committed + rows| && (committed + rows)[r].id == id && (committed + rows)[r].entry.key == k;
      assert after[r].id == id && after[r].entry.key == k;
    }
    NamesGrow(committed + rows, after, ids, posts);
  }

  // ---- the insert and the commit ---------------------------------------------------------

  lemma InsertHeaderKeepsInv(work: Work, s: State, c: nat)
    requires RaceInv(work, s)
    ensures RaceInv(work, Next(work, s, InsertHeader(c)))
  {
    hide AllAccepted, Names, HasRow, Blocked;
    if c < |work| && s.callers[c].Running? && s.callers[c].txn.phase == Missing {
      var caller, posts := s.callers[c], work[c];
      var t := caller.txn;
      assert CallerOk(s, posts, caller);
      var e := posts[|t.ids|];
      var after := Next(work, s, InsertHeader(c));
      if !Blocked(s, c, e.key) {
        if HasRow(s.committed, e.key) {
          hide RaceInv;
          OneCallerKeepsInv(work, s, c, Retry(caller.runs));
        } else {
          hide Next;
          NewRowKeepsInv(work, s, c, e);
        }
      }
    }
  }

  /** The state after a new header row of caller c. */
  function Inserted(s: State, c: nat, e: Entry): State
    requires c < |s.callers| && s.callers[c].Running?
  {
    var t := s.callers[c].txn;
    WithCaller(s, c, s.callers[c].(txn := t.(rows := t.rows + [Row(s.nextId, e.(lines := []))], phase := Filling)))
    .(nextId := s.nextId + 1)
  }

  lemma NewRowKeepsInv(work: Work, s: State, c: nat, e: Entry)
    requires RaceInv(work, s) && c < |work| && s.callers[c].Running? && s.callers[c].txn.phase == Missing
    requires |s.callers[c].txn.ids| < |work[c]| && e == work[c][|s.callers[c].txn.ids|]
    requires !HasRow(s.committed, e.key) && !Blocked(s, c, e.key)
    ensures RaceInv(work, Inserted(s, c, e))
    ensures Next(work, s, InsertHeader(c)) == Inserted(s, c, e)
  {
    var after := Inserted(s, c, e);
    var t := s.callers[c].txn;
    var row := Row(s.nextId, e.(lines := []));
    assert CallerOk(s, work[c], s.callers[c]);
    NewRowOk(s, work[c], s.callers[c], e);
    hide Answered, UniqueRows, AllAccepted, Names;
    forall d | 0 <= d < |work| ensures CallerOk(after, work[d], after.callers[d]) {
      if d != c { assert CallerOk(s, work[d], s.callers[d]); }
    }
    forall x, y | 0 <= x < |work| && 0 <= y < |work| && x != y ensures Apart(after.callers[x], after.callers[y]) {
      assert Apart(s.callers[x], s.callers[y]);
      if x == c { NewRowApart(work, s, c, y, e); }
      if y == c { NewRowApart(work, s, c, x, e); }
    }
    hide CallerOk, Apart;
  }

  lemma NewRowOk(s: State, posts: seq<Entry>, k: Caller, e: Entry)
    requires k.Running? && CallerOk(s, posts, k) && k.txn.phase == Missing && e == posts[|k.txn.ids|]
    requires !HasRow(s.committed, e.key) && IdsBelow(s.committed, s.nextId)
    ensures CallerOk(s.(nextId := s.nextId + 1), posts,
                     k.(txn := k.txn.(rows := k.txn.rows + [Row(s.nextId, e.(lines := []))], phase := Filling)))
  {
    var row := Row(s.nextId, e.(lines := []));
    var rows := k.txn.rows + [row];
    assert UniqueRows(rows) by {
      forall a | 0 <= a < |k.txn.rows| ensures k.txn.rows[a].entry.key != e.key { }
    }
    assert Disjoint(s.committed, rows);
    assert IdsBelow(rows, s.nextId + 1);
    NamesInConcat(s.committed + k.txn.rows, [row]);
    assert s.committed + k.txn.rows + [row] == s.committed + rows;
    NamesGrow(s.committed + k.txn.rows, s.committed + rows, k.txn.ids, posts);
    hide UniqueRows, Disjoint, IdsBelow, Answered, HasRow;
  }

  lemma NewRowApart(work: Work, s: State, c: nat, d: nat, e: Entry)
    requires RaceInv(work, s) && c < |work| && d < |work| && c != d && s.callers[c].Running? && !Blocked(s, c, e.key)
    ensures Apart(Inserted(s, c, e).callers[c], s.callers[d]) && Apart(s.callers[d], Inserted(s, c, e).callers[c])
  {
    hide Answered, UniqueRows, AllAccepted;
    assert Apart(s.callers[c], s.callers[d]) && CallerOk(s, work[d], s.callers[d]);
    if s.callers[d].Running? {
      assert !HasRow(s.callers[d].txn.rows, e.key);
    }
  }

  lemma CommitKeepsInv(work: Work, s: State, c: nat)
    requires RaceInv(work, s)
    ensures RaceInv(work, Next(work, s, Commit(c)))
  {
    hide Names, HasRow;
    if c < |work| && s.callers[c].Running? && s.callers[c].txn.phase == NextPost
       && |s.callers[c].txn.ids| == |work[c]| {
      var t := s.callers[c].txn;
      assert CallerOk(s, work[c], s.callers[c]);
      if AllAccepted(t.rows) {
        var after := Next(work, s, Commit(c));
        UniqueConcat(s.committed, t.rows);
        forall d | 0 <= d < |work| ensures CallerOk(after, work[d], after.callers[d]) {
          if d != c {
            assert CallerOk(s, work[d], s.callers[d]) && Apart(s.callers[c], s.callers[d]);
            OthersAfterCommit(s, after, work[d], s.callers[d], t.rows);
          }
        }
        hide CallerOk, Answered, UniqueRows, Disjoint;
        forall x, y | 0 <= x < |work| && 0 <= y < |work| && x != y ensures Apart(after.callers[x], after.callers[y]) {
          assert Apart(s.callers[x], s.callers[y]);
        }
      } else {
        hide RaceInv;
        OneCallerKeepsInv(work, s, c, GaveUp(s.callers[c].runs));
      }
    }
  }

  lemma OthersAfterCommit(s: State, after: State, posts: seq<Entry>, k: Caller, rows: seq<Row>)
    requires CallerOk(s, posts, k) && after.committed == s.committed + rows && after.nextId == s.nextId
    requires k.Running? ==> Disjoint(rows, k.txn.rows)
    ensures CallerOk(after, posts, k)
  {
    hide Names, HasRow, UniqueRows, IdsBelow;
    if k.Done? {
      NamesInConcat(s.committed, rows);
      NamesGrow(s.committed, after.committed, k.ids, posts);
    }
    if k.Running? {
      KnowledgeGrows(s.committed, rows, k.txn.rows, k.txn.ids, posts);
      DisjointConcat(s.committed, rows, k.txn.rows);
    }
  }

  lemma NextKeepsInv(work: Work, s: State, e: Event)
    requires RaceInv(work, s)
    ensures RaceInv(work, Next(work, s, e))
  {
    match e
    case Lookup(c) => LookupKeepsInv(work, s, c);
    case InsertHeader(c) => InsertHeaderKeepsInv(work, s, c);
    case InsertLine(c) => InsertLineKeepsInv(work, s, c);
    case Commit(c) => CommitKeepsInv(work, s, c);
    case _ =>
      if e.c < |work| {
        hide Names, HasRow, UniqueRows, Disjoint, IdsBelow, AllAccepted, Apart;
        assert CallerOk(s, work[e.c], s.callers[e.c]);
        BeginsClean(s, work[e.c]);
        var after := Next(work, s, e);
        hide RaceInv;
        assert after == WithCaller(s, e.c, after.callers[e.c]) || after == s;
        if after != s { OneCallerKeepsInv(work, s, e.c, after.callers[e.c]); }
      }
  }

  lemma BeginsClean(s: State, posts: seq<Entry>)
    ensures UniqueRows([]) && IdsBelow([], s.nextId) && Disjoint(s.committed, [])
            && Answered(s.committed + [], [], posts)
  {
  }

  lemma {:induction false} ReachKeepsInv(work: Work, events: seq<Event>)
    ensures RaceInv(work, Reach(work, events))
  {
    hide RaceInv, Next;
    if events == [] {
      InitialOk(work);
    } else {
      ReachKeepsInv(work, events[..|events| - 1]);
      NextKeepsInv(work, Reach(work, events[..|events| - 1]), events[|events| - 1]);
    }
  }

  // ---- what it means -----------------------------------------------------------------------

  function Entries(rows: seq<Row>): (j: seq<Entry>)
    ensures |j| == |rows| && forall r :: 0 <= r < |rows| ==> j[r] == rows[r].entry
  {
    if rows == [] then [] else Entries(rows[..|rows| - 1]) + [rows[|rows| - 1].entry]
  }

  /** Under every interleaving, abort and retry, the committed journal holds at most
      one entry per key, each of them whole and balanced, so that total debits
      equal total credits in every currency. */
  lemma EveryInterleavingIsSound(work: Work, events: seq<Event>, c: Currency)
    ensures var j := Entries(Reach(work, events).committed);
            && Sound(j) && TrialTotal(j, c, Debit) == TrialTotal(j, c, Credit)
            && forall i :: 0 <= i < |j| ==> exists w :: 0 <= w < |work| && j[i] in work[w]
  {
    ReachKeepsInv(work, events);
    hide Reach, CallerOk, Apart, Accepted;
    TrialBalances(Entries(Reach(work, events).committed), c);
  }

  /** Callers whose unit of work committed hold the same entry id for the same key. */
  lemma CommittedCallersAgree(work: Work, events: seq<Event>, c: nat, d: nat, m: nat, n: nat)
    requires c < |work| && d < |work| && m < |work[c]| && n < |work[d]| && work[c][m].key == work[d][n].key
    requires |Reach(work, events).callers| == |work| && Reach(work, events).callers[c].Done?
             && Reach(work, events).callers[d].Done?
    ensures var s := Reach(work, events);
            && |s.callers[c].ids| == |work[c]| && |s.callers[d].ids| == |work[d]|
            && s.callers[c].ids[m] == s.callers[d].ids[n]
            && Names(s.committed, s.callers[c].ids[m], work[c][m].key)
  {
    ReachKeepsInv(work, events);
    hide Reach, AllAccepted, Apart;
    var s := Reach(work, events);
    assert CallerOk(s, work[c], s.callers[c]) && CallerOk(s, work[d], s.callers[d]);
    assert Names(s.committed, s.callers[c].ids[m], work[c][m].key)
           && Names(s.committed, s.callers[d].ids[n], work[d][n].key);
  }

  /** No caller's closure runs more than six times. */
  lemma AtMostSixRuns(work: Work, events: seq<Event>, c: nat)
    requires c < |Reach(work, events).callers|
    ensures Reach(work, events).callers[c].runs <= 6
  {
    ReachKeepsInv(work, events);
    hide Reach, AllAccepted, Apart, UniqueRows;
    assert CallerOk(Reach(work, events), work[c], Reach(work, events).callers[c]);
  }
}
