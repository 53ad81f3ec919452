/** A caller that nobody disturbs: its run of the posting protocol, step by step, leaves
    exactly what posting its entries one after the other to the journal does. */
module PostSolo {
  import opened Money
  import opened Ledger
  import opened PostRace

  /** Posting entry after entry, and nothing at all once one is refused. */
  function PostEach(j: seq<Entry>, posts: seq<Entry>): Result<seq<Entry>, LedgerError>
    decreases |posts|
  {
    if posts == [] then Ok(j) else
    var posted :- PostSpec(j, posts[0]);
    PostEach(posted, posts[1..])
  }

  function After(work: Work, s: State, events: seq<Event>): State
    decreases |events|
  {
    if events == [] then s else After(work, Next(work, s, events[0]), events[1..])
  }

  lemma {:induction false} AfterConcat(work: Work, s: State, a: seq<Event>, b: seq<Event>)
    ensures After(work, s, a + b) == After(work, After(work, s, a), b)
    decreases |a|
  {
    hide Next;
    if a == [] {
      assert a + b == b;
    } else {
      assert (a + b)[0] == a[0] && (a + b)[1..] == a[1..] + b;
      AfterConcat(work, Next(work, s, a[0]), a[1..], b);
    }
  }

  lemma AfterOne(work: Work, s: State, e: Event)
    ensures After(work, s, [e]) == Next(work, s, e)
  {
    assert [e][1..] == [];
  }

  /** Nobody but caller c has a transaction open. */
  predicate Alone(s: State, c: nat) {
    forall d :: 0 <= d < |s.callers| && d != c ==> !s.callers[d].Running?
  }

  /** Caller c in the middle of its run. */
  function Amid(s: State, c: nat, runs: nat, t: Txn, next: nat): State
    requires c < |s.callers|
  {
    State(s.committed, s.callers[c := Running(runs, t)], next)
  }

  function Over(s: State, c: nat, runs: nat, next: nat): State
    requires c < |s.callers|
  {
    State(s.committed, s.callers[c := GaveUp(runs)], next)
  }

  lemma KeyOfRows(a: seq<Row>, b: seq<Row>, k: Key)
    ensures HasKey(Entries(a + b), k) <==> HasRow(a, k) || HasRow(b, k)
  {
    var rows, j := a + b, Entries(a + b);
    if HasKey(j, k) {
      var i :| 0 <= i < |j| && j[i].key == k;
      assert rows[i].entry.key == k;
      assert if i < |a| then a[i].entry.key == k else b[i - |a|].entry.key == k;
    }
    if HasRow(a, k) {
      var i :| 0 <= i < |a| && a[i].entry.key == k;
      assert rows[i].entry.key == k && j[i].key == k;
    }
    if HasRow(b, k) {
      var i :| 0 <= i < |b| && b[i].entry.key == k;
      assert rows[|a| + i].entry.key == k && j[|a| + i].key == k;
    }
  }

  // ---- one entry -----------------------------------------------------------------------

  predicate LinesStorable(e: Entry) {
    forall n :: 0 <= n < |e.lines| ==> e.lines[n].amount <= STORE_MAX
  }

  /** The lines are inserted one by one; one that the column refuses ends the run. */
  lemma {:induction false} LinesFollow(work: Work, s: State, c: nat, runs: nat, ids: seq<nat>, rows: seq<Row>,
                                       id: nat, n: nat, next: nat)
    returns (events: seq<Event>)
    requires c < |s.callers| == |work| && |ids| < |work[c]| && n <= |work[c][|ids|].lines|
    requires forall k :: 0 <= k < n ==> work[c][|ids|].lines[k].amount <= STORE_MAX
    ensures var e := work[c][|ids|];
            var part := Row(id, e.(lines := e.lines[..n]));
            After(work, Amid(s, c, runs, Txn(ids, rows + [part], Filling), next), events)
            == if LinesStorable(e) then Amid(s, c, runs, Txn(ids + [id], rows + [Row(id, e)], NextPost), next)
               else Over(s, c, runs, next)
    decreases |work[c][|ids|].lines| - n
  {
    var e := work[c][|ids|];
    var part := Row(id, e.(lines := e.lines[..n]));
    var here := Amid(s, c, runs, Txn(ids, rows + [part], Filling), next);
    AfterOne(work, here, InsertLine(c));
    if n == |e.lines| {
      assert e.lines[..n] == e.lines;
      events := [InsertLine(c)];
    } else if e.lines[n].amount > STORE_MAX {
      events := [InsertLine(c)];
    } else {
      var longer := Row(id, e.(lines := e.lines[..n + 1]));
      assert e.lines[..n] + [e.lines[n]] == e.lines[..n + 1];
      assert (rows + [part])[|rows| := longer] == rows + [longer];
      assert Next(work, here, InsertLine(c)) == Amid(s, c, runs, Txn(ids, rows + [longer], Filling), next);
      var more := LinesFollow(work, s, c, runs, ids, rows, id, n + 1, next);
      events := [InsertLine(c)] + more;
      AfterConcat(work, here, [InsertLine(c)], more);
    }
  }

  /** One entry: refused, found under its key, or written whole. */
  lemma OnePost(work: Work, s: State, c: nat, runs: nat, ids: seq<nat>, rows: seq<Row>, next: nat)
    returns (events: seq<Event>, id: nat)
    requires c < |s.callers| == |work| && Alone(s, c) && |ids| < |work[c]|
    ensures var e := work[c][|ids|];
            After(work, Amid(s, c, runs, Txn(ids, rows, NextPost), next), events)
            == if ValidateSpec(e).Err? then Over(s, c, runs, next)
               else if HasKey(Entries(s.committed + rows), e.key)
               then Amid(s, c, runs, Txn(ids + [id], rows, NextPost), next)
               else if LinesStorable(e)
               then Amid(s, c, runs, Txn(ids + [next], rows + [Row(next, e)], NextPost), next + 1)
               else Over(s, c, runs, next + 1)
  {
    hide ValidateSpec;
    var e := work[c][|ids|];
    var here := Amid(s, c, runs, Txn(ids, rows, NextPost), next);
    KeyOfRows(s.committed, rows, e.key);
    AfterOne(work, here, Lookup(c));
    events, id := [Lookup(c)], 0;
    if ValidateSpec(e).Ok? {
      if HasRow(s.committed, e.key) {
        id := s.committed[RowOf(s.committed, e.key)].id;
      } else if HasRow(rows, e.key) {
        id := rows[RowOf(rows, e.key)].id;
      } else {
        var missing := Amid(s, c, runs, Txn(ids, rows, Missing), next);
        assert Next(work, here, Lookup(c)) == missing;
        NotBlocked(s, c, missing, e.key);
        var headed := Amid(s, c, runs, Txn(ids, rows + [Row(next, e.(lines := []))], Filling), next + 1);
        assert Next(work, missing, InsertHeader(c)) == headed;
        AfterOne(work, missing, InsertHeader(c));
        assert e.lines[..0] == [];
        var more := LinesFollow(work, s, c, runs, ids, rows, next, 0, next + 1);
        hide Next;
        AfterConcat(work, here, [Lookup(c)], [InsertHeader(c)]);
        AfterConcat(work, here, [Lookup(c)] + [InsertHeader(c)], more);
        events := [Lookup(c)] + [InsertHeader(c)] + more;
      }
    }
  }

  lemma NotBlocked(s: State, c: nat, amid: State, k: Key)
    requires Alone(s, c) && |amid.callers| == |s.callers|
    requires forall d :: 0 <= d < |s.callers| && d != c ==> amid.callers[d] == s.callers[d]
    ensures !Blocked(amid, c, k)
  {
  }

  // ---- the whole run -------------------------------------------------------------------

  /** What the caller's remaining entries come to, given what it wrote so far. */
  function Wanted(committed: seq<Row>, rows: seq<Row>, posts: seq<Entry>): Result<seq<Entry>, LedgerError> {
    if AllAccepted(rows) then PostEach(Entries(committed + rows), posts) else Err(OutOfRange)
  }

  /** The run is over, with everything wanted committed or nothing at all. */
  predicate EndsAs(s: State, after: State, c: nat, wanted: Result<seq<Entry>, LedgerError>) {
    && |after.callers| == |s.callers| && c < |s.callers|
    && (forall d :: 0 <= d < |s.callers| && d != c ==> after.callers[d] == s.callers[d])
    && (if wanted.Ok? then after.callers[c].Done? && Entries(after.committed) == wanted.value
                           && s.committed <= after.committed
        else after.callers[c].GaveUp? && after.committed == s.committed)
  }

  lemma CommitEnds(work: Work, s: State, c: nat, runs: nat, ids: seq<nat>, rows: seq<Row>, next: nat)
    requires c < |s.callers| == |work| && |ids| == |work[c]|
    ensures EndsAs(s, Next(work, Amid(s, c, runs, Txn(ids, rows, NextPost), next), Commit(c)), c,
                   Wanted(s.committed, rows, []))
  {
    hide Accepted;
  }

  lemma {:induction false} RunEnds(work: Work, s: State, c: nat, runs: nat, ids: seq<nat>, rows: seq<Row>, next: nat)
    returns (events: seq<Event>)
    requires c < |s.callers| == |work| && Alone(s, c) && |ids| <= |work[c]|
    ensures EndsAs(s, After(work, Amid(s, c, runs, Txn(ids, rows, NextPost), next), events), c,
                   Wanted(s.committed, rows, work[c][|ids|..]))
    decreases |work[c]| - |ids|
  {
    hide Next, EndsAs, Wanted, Alone;
    var posts := work[c];
    var here := Amid(s, c, runs, Txn(ids, rows, NextPost), next);
    if |ids| == |posts| {
      events := [Commit(c)];
      AfterOne(work, here, Commit(c));
      assert posts[|ids|..] == [];
      CommitEnds(work, s, c, runs, ids, rows, next);
    } else {
      var e := posts[|ids|];
      assert posts[|ids|..][0] == e && posts[|ids|..][1..] == posts[|ids| + 1..];
      var one, id := OnePost(work, s, c, runs, ids, rows, next);
      WantedUnfolds(s.committed, rows, posts[|ids|..], next);
      if ValidateSpec(e).Err? {
        OverEnds(s, c, runs, next, Wanted(s.committed, rows, posts[|ids|..]));
        events := one;
      } else if HasKey(Entries(s.committed + rows), e.key) {
        var more := RunEnds(work, s, c, runs, ids + [id], rows, next);
        AfterConcat(work, here, one, more);
        events := one + more;
      } else if LinesStorable(e) {
        var more := RunEnds(work, s, c, runs, ids + [next], rows + [Row(next, e)], next + 1);
        AfterConcat(work, here, one, more);
        events := one + more;
      } else {
        OverEnds(s, c, runs, next + 1, Wanted(s.committed, rows, posts[|ids|..]));
        events := one;
      }
    }
  }

  lemma OverEnds(s: State, c: nat, runs: nat, next: nat, wanted: Result<seq<Entry>, LedgerError>)
    requires c < |s.callers| && wanted.Err?
    ensures EndsAs(s, Over(s, c, runs, next), c, wanted)
  {
  }

  lemma WantedUnfolds(committed: seq<Row>, rows: seq<Row>, posts: seq<Entry>, id: nat)
    requires posts != []
    ensures var e := posts[0];
            var wanted := Wanted(committed, rows, posts);
            && (ValidateSpec(e).Err? ==> wanted.Err?)
            && (ValidateSpec(e).Ok? && HasKey(Entries(committed + rows), e.key) ==>
                  wanted == Wanted(committed, rows, posts[1..]))
            && (ValidateSpec(e).Ok? && !HasKey(Entries(committed + rows), e.key) ==>
                  if LinesStorable(e) then wanted == Wanted(committed, rows + [Row(id, e)], posts[1..])
                  else wanted.Err?)
  {
    hide ValidateSpec, HasKey, Balanced, LinesOk;
    var e := posts[0];
    assert committed + (rows + [Row(id, e)]) == committed + rows + [Row(id, e)];
    assert (committed + rows + [Row(id, e)])[..|committed + rows|] == committed + rows;
    if !LinesStorable(e) {
      var n :| 0 <= n < |e.lines| && !(e.lines[n].amount <= STORE_MAX);
      assert e.lines[n] in e.lines;
    }
    AcceptedMore(rows, Row(id, e));
  }

  lemma AcceptedMore(rows: seq<Row>, row: Row)
    ensures AllAccepted(rows + [row]) <==> AllAccepted(rows) && Accepted(row.entry)
  {
    hide Accepted;
    if AllAccepted(rows + [row]) {
      assert (rows + [row])[|rows|] == row;
      forall r | 0 <= r < |rows| ensures Accepted(rows[r].entry) { assert (rows + [row])[r] == rows[r]; }
    }
  }

  /** A caller alone, from the start of a run: its unit of work ends with its entries
      posted to the committed journal one after the other, each refused, found or
      appended as a single posting is, or with nothing committed if one is refused. */
  lemma LoneCallerPosts(work: Work, s: State, c: nat) returns (events: seq<Event>)
    requires c < |s.callers| == |work| && Alone(s, c) && s.callers[c].Waiting?
    ensures var after := After(work, s, events);
            var wanted := PostEach(Entries(s.committed), work[c]);
            && |after.callers| == |s.callers|
            && (if wanted.Ok? then after.callers[c].Done? && Entries(after.committed) == wanted.value
                else after.callers[c].GaveUp? && after.committed == s.committed)
            && forall d :: 0 <= d < |s.callers| && d != c ==> after.callers[d] == s.callers[d]
  {
    hide PostEach, Entries, Alone;
    var runs := s.callers[c].runs + 1;
    var begun := Amid(s, c, runs, Txn([], [], NextPost), s.nextId);
    assert Next(work, s, Begin(c)) == begun;
    AfterOne(work, s, Begin(c));
    hide Next;
    var more := RunEnds(work, s, c, runs, [], [], s.nextId);
    AfterConcat(work, s, [Begin(c)], more);
    events := [Begin(c)] + more;
    assert s.committed + [] == s.committed && work[c][0..] == work[c];
  }

  /** An insert waits while another transaction holds its key uncommitted. Once the key
      is committed the whole unit of work starts again, at most five times, and then
      finds the entry: its run posts nothing under that key. An abort loses the rows. */
  lemma DisturbancesAre(work: Work, s: State, c: nat)
    requires c < |s.callers| == |work| && s.callers[c].Running? && |s.callers[c].txn.ids| < |work[c]|
    ensures var k := s.callers[c];
            var key := work[c][|k.txn.ids|].key;
            var again := if k.runs <= 5 then Waiting(k.runs) else GaveUp(k.runs);
            && (k.txn.phase == Missing
                && (exists d :: 0 <= d < |s.callers| && d != c && s.callers[d].Running?
                                && HasRow(s.callers[d].txn.rows, key)) ==>
                  Next(work, s, InsertHeader(c)) == s)
            && (k.txn.phase == Missing && Alone(s, c) && HasRow(s.committed, key) ==>
                  Next(work, s, InsertHeader(c)) == s.(callers := s.callers[c := again]))
            && Next(work, s, Abort(c, true)) == s.(callers := s.callers[c := again])
            && Next(work, s, Abort(c, false)) == s.(callers := s.callers[c := GaveUp(k.runs)])
  {
    hide HasRow;
  }

  /** A caller that is done stays so, with the ids it was told, whatever happens. */
  lemma DoneStaysDone(work: Work, s: State, e: Event, c: nat)
    requires c < |s.callers| == |work| && (s.callers[c].Done? || s.callers[c].GaveUp?)
    ensures Next(work, s, e).callers[c] == s.callers[c]
  {
    hide Blocked, HasRow, AllAccepted;
  }
}
