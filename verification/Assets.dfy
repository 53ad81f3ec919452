/** An uploaded file on its way out of quarantine (internal/modules/catalog): the
    scan reads the quarantine object, a clean verdict promotes it to the
    deliverable key, and only then is the row marked. Any number of jobs run the
    scan, each step by step, and any of them can die between two steps. Object
    contents are numbers. */
module Assets {
  import opened Money

  datatype ScanStatus = Pending | Scanning | ScanError | Clean | Infected | Suspicious | Skipped

  datatype Row = Row(checksum: nat, status: ScanStatus)

  /** Where one job is. */
  datatype Job =
    | Queued
    | Started
    | Judged(verdict: ScanStatus)
    | Promoted
    | Finished

  datatype State = State(
    quarantine: Option<nat>, deliverable: Option<nat>, digest: Option<nat>, row: Option<Row>,
    judgedClean: set<nat>, jobs: seq<Job>)

  /** Verdicts a completed scan can return. */
  predicate Verdict(s: ScanStatus) {
    s in {Clean, Infected, Suspicious, ScanError, Skipped}
  }

  datatype Event =
    | Upload(content: nat)
    | Checksum
    | InsertRow
    | Enqueue
    | Start(j: nat)
    | Scan(j: nat, verdict: ScanStatus)
    | ScanFails(j: nat)
    | Promote(j: nat)
    | Record(j: nat)
    | Die(j: nat)

  predicate Open(s: ScanStatus) {
    s in {Pending, Scanning, ScanError}
  }

  function SetJob(s: State, j: nat, job: Job): State
    requires j < |s.jobs|
  {
    s.(jobs := s.jobs[j := job])
  }

  function SetStatus(s: State, status: ScanStatus): State
    requires s.row.Some?
  {
    s.(row := Some(s.row.value.(status := status)))
  }

  function Next(s: State, e: Event): State {
    match e
    case Upload(content) => s.(quarantine := Some(content))
    // FinaliseUpload reads the object's digest first, and inserts the row after.
    case Checksum => if s.digest.None? && s.quarantine.Some? then s.(digest := s.quarantine) else s
    case InsertRow => if s.digest.Some? && s.row.None? then s.(row := Some(Row(s.digest.value, Pending))) else s
    case Enqueue => s.(jobs := s.jobs + [Queued])
    case Start(j) =>
      if j >= |s.jobs| || s.jobs[j] != Queued || s.row.None? then s
      else if !Open(s.row.value.status) then SetJob(s, j, Finished)
      else
        var marked := if s.row.value.status in {Pending, ScanError} then SetStatus(s, Scanning) else s;
        SetJob(marked, j, Started)
    case Scan(j, verdict) =>
      if j >= |s.jobs| || s.jobs[j] != Started || s.quarantine.None? || !Verdict(verdict) then s
      else
        SetJob(s, j, Judged(verdict)).(
          judgedClean := if verdict == Clean then s.judgedClean + {s.quarantine.value} else s.judgedClean)
    case ScanFails(j) =>
      if j >= |s.jobs| || s.jobs[j] != Started || s.row.None? then s
      else SetJob(SetStatus(s, ScanError), j, Finished)
    case Promote(j) =>
      if j >= |s.jobs| || s.jobs[j] != Judged(Clean) then s
      else SetJob(s, j, Promoted).(deliverable := s.quarantine)
    case Record(j) =>
      if j >= |s.jobs| || s.row.None? then s
      else if s.jobs[j] == Promoted then SetJob(SetStatus(s, Clean), j, Finished)
      else if s.jobs[j].Judged? && s.jobs[j].verdict != Clean then SetJob(SetStatus(s, s.jobs[j].verdict), j, Finished)
      else s
    case Die(j) => if j >= |s.jobs| then s else SetJob(s, j, Finished)
  }

  const FRESH: State := State(None, None, None, None, {}, [])

  function Reach(events: seq<Event>): State {
    if events == [] then FRESH else Next(Reach(events[..|events| - 1]), events[|events| - 1])
  }

  /** The quarantine object is not overwritten once its digest was taken. */
  predicate Unchanged(events: seq<Event>) {
    forall n :: 0 <= n < |events| && events[n].Upload? ==> Reach(events[..n]).digest.None?
  }

  /** What holds at every moment: once taken, the digest is the content; a promoted
      object was judged clean; a clean row has one. */
  predicate Guarded(s: State) {
    && (s.digest.Some? ==> s.quarantine == s.digest)
    && (s.row.Some? ==> s.digest == Some(s.row.value.checksum))
    && (s.deliverable.Some? ==> s.digest == s.deliverable && s.deliverable.value in s.judgedClean)
    && (s.row.Some? && s.row.value.status == Clean ==> s.deliverable.Some?)
    && (forall j :: 0 <= j < |s.jobs| ==>
          && (s.jobs[j].Started? || s.jobs[j].Judged? || s.jobs[j].Promoted? ==> s.row.Some?)
          && (s.jobs[j] == Judged(Clean) ==> s.digest.Some? && s.digest.value in s.judgedClean)
          && (s.jobs[j].Judged? ==> Verdict(s.jobs[j].verdict))
          && (s.jobs[j].Promoted? ==> s.deliverable.Some?))
  }

  lemma NextKeepsGuarded(s: State, e: Event)
    requires Guarded(s) && (e.Upload? ==> s.digest.None?)
    ensures Guarded(Next(s, e))
  {
  }

  lemma {:induction false} ReachIsGuarded(events: seq<Event>)
    requires Unchanged(events)
    ensures Guarded(Reach(events))
  {
    if events != [] {
      hide Guarded, Next;
      var init := events[..|events| - 1];
      forall n | 0 <= n < |init| && init[n].Upload? ensures Reach(init[..n]).digest.None? {
        assert init[..n] == events[..n] && events[n].Upload?;
      }
      ReachIsGuarded(init);
      assert events[..|events| - 1] == init;
      NextKeepsGuarded(Reach(init), events[|events| - 1]);
    } else {
      assert Guarded(FRESH);
    }
  }

  /** Whatever jobs ran, overlapped, were retried or died: a row is clean only if its
      deliverable key holds exactly the bytes whose digest it records, and a scan
      judged those bytes clean. */
  lemma CleanMeansScanned(events: seq<Event>)
    requires Unchanged(events)
    ensures var s := Reach(events);
            s.row.Some? && s.row.value.status == Clean ==>
              s.deliverable == Some(s.row.value.checksum) && s.row.value.checksum in s.judgedClean
  {
    ReachIsGuarded(events);
    hide Reach;
  }

  /** Nothing ever reaches the deliverable key but bytes judged clean. */
  lemma OnlyCleanIsPromoted(events: seq<Event>)
    requires Unchanged(events)
    ensures var s := Reach(events);
            s.deliverable.Some? ==> s.deliverable.value in s.judgedClean && s.quarantine == s.deliverable
  {
    ReachIsGuarded(events);
    hide Reach;
  }

  // ---- with overwrites ------------------------------------------------------------

  predicate Promotes(s: State, e: Event) {
    e.Promote? && e.j < |s.jobs| && s.jobs[e.j] == Judged(Clean)
  }

  /** The copy finds in quarantine the very bytes that were recorded and judged. */
  predicate SafeStep(s: State, e: Event) {
    Promotes(s, e) ==> s.quarantine.Some? && s.quarantine == s.digest && s.quarantine.value in s.judgedClean
  }

  /** What is delivered is what was recorded, and was judged clean. */
  predicate Delivers(s: State) {
    s.deliverable.Some? ==> s.deliverable == s.digest && s.deliverable.value in s.judgedClean
  }

  /** What holds whatever is uploaded. */
  predicate Plain(s: State) {
    && (s.digest.Some? ==> s.quarantine.Some?)
    && (s.row.Some? ==> s.digest == Some(s.row.value.checksum))
    && (s.row.Some? && s.row.value.status == Clean ==> s.deliverable.Some?)
    && (forall j :: 0 <= j < |s.jobs| ==>
          && (s.jobs[j].Started? || s.jobs[j].Judged? || s.jobs[j].Promoted? ==> s.row.Some?)
          && (s.jobs[j].Judged? ==> Verdict(s.jobs[j].verdict))
          && (s.jobs[j].Promoted? ==> s.deliverable.Some?))
  }

  lemma StepDeliversIff(s: State, e: Event)
    requires Plain(s) && Delivers(s)
    ensures Plain(Next(s, e))
    ensures Delivers(Next(s, e)) <==> SafeStep(s, e)
  {
  }

  predicate AlwaysDelivers(events: seq<Event>) {
    forall n :: 0 <= n <= |events| ==> Delivers(Reach(events[..n]))
  }

  predicate AlwaysSafe(events: seq<Event>) {
    forall n :: 0 <= n < |events| ==> SafeStep(Reach(events[..n]), events[n])
  }

  lemma DeliversBefore(events: seq<Event>, n: nat)
    requires n <= |events| && forall k :: 0 <= k < n ==> Delivers(Reach(events[..k]))
    ensures forall k :: 0 <= k < n ==> Delivers(Reach(events[..n][..k]))
  {
    hide Delivers, Reach;
    forall k | 0 <= k < n ensures Delivers(Reach(events[..n][..k])) { assert events[..n][..k] == events[..k]; }
  }

  lemma {:induction false} ReachIsPlain(events: seq<Event>)
    requires forall n :: 0 <= n < |events| ==> Delivers(Reach(events[..n]))
    ensures Plain(Reach(events))
  {
    if events != [] {
      hide Plain, Delivers, Next;
      var init := events[..|events| - 1];
      DeliversBefore(events, |events| - 1);
      ReachIsPlain(init);
      assert Delivers(Reach(events[..|events| - 1]));
      StepDeliversIff(Reach(init), events[|events| - 1]);
    } else {
      assert Plain(FRESH);
    }
  }

  lemma {:induction false} SafeSoFar(events: seq<Event>, n: nat)
    requires n <= |events| && AlwaysSafe(events)
    ensures forall k :: 0 <= k <= n ==> Delivers(Reach(events[..k]))
  {
    hide Next, SafeStep, Plain, Delivers;
    if n == 0 {
      assert events[..0] == [];
      NothingDelivered();
    } else {
      SafeSoFar(events, n - 1);
      DeliversBefore(events, n - 1);
      ReachIsPlain(events[..n - 1]);
      Steps(events);
      StepDeliversIff(Reach(events[..n - 1]), events[n - 1]);
    }
  }

  lemma NothingDelivered()
    ensures Delivers(Reach([]))
  {
  }

  lemma DeliveredIsSafe(events: seq<Event>, n: nat)
    requires AlwaysDelivers(events) && n < |events|
    ensures SafeStep(Reach(events[..n]), events[n])
  {
    hide Next, SafeStep, Plain, Delivers, Reach;
    Steps(events);
    DeliversBefore(events, n);
    ReachIsPlain(events[..n]);
    assert Delivers(Reach(events[..n])) && Delivers(Reach(events[..n + 1]));
    StepDeliversIff(Reach(events[..n]), events[n]);
  }

  /** Over every run, overwrites included: what is delivered is always the recorded
      bytes, judged clean, if and only if every copy out of quarantine still found
      them there; and then a clean row has them delivered. */
  lemma DeliversIff(events: seq<Event>)
    ensures AlwaysDelivers(events) <==> AlwaysSafe(events)
    ensures var s := Reach(events);
            AlwaysDelivers(events) && s.row.Some? && s.row.value.status == Clean ==>
              s.deliverable == Some(s.row.value.checksum)
  {
    hide Next, SafeStep, Delivers, Plain, Reach;
    if AlwaysSafe(events) {
      SafeSoFar(events, |events|);
    }
    if AlwaysDelivers(events) {
      forall n | 0 <= n < |events| ensures SafeStep(Reach(events[..n]), events[n]) { DeliveredIsSafe(events, n); }
      ReachIsPlain(events);
      assert events[..|events|] == events && Delivers(Reach(events[..|events|]));
      CleanHasDelivered(Reach(events));
    }
  }

  lemma CleanHasDelivered(s: State)
    requires Plain(s) && Delivers(s)
    ensures s.row.Some? && s.row.value.status == Clean ==> s.deliverable == Some(s.row.value.checksum)
  {
  }

  lemma Steps(events: seq<Event>)
    ensures forall n :: 0 <= n < |events| ==> Reach(events[..n + 1]) == Next(Reach(events[..n]), events[n])
  {
    hide Next;
    forall n | 0 <= n < |events| ensures Reach(events[..n + 1]) == Next(Reach(events[..n]), events[n]) {
      assert events[..n + 1][..n] == events[..n];
    }
  }

  lemma ScannedIsReached(good: nat)
    ensures Scanned(good) == Reach([Upload(good), Checksum, InsertRow, Enqueue, Start(0), Scan(0, Clean)])
  {
    var events := [Upload(good), Checksum, InsertRow, Enqueue, Start(0), Scan(0, Clean)];
    Steps(events);
    assert events[..0] == [];
    assert events[..6] == events;
    var s3 := FRESH.(quarantine := Some(good), digest := Some(good), row := Some(Row(good, Pending)));
    assert Reach(events[..1]) == FRESH.(quarantine := Some(good));
    assert Reach(events[..3]) == s3;
    assert Reach(events[..4]) == s3.(jobs := [Queued]);
    hide Reach;
    LastSteps(s3, good);
  }

  lemma LastSteps(s3: State, good: nat)
    requires s3 == FRESH.(quarantine := Some(good), digest := Some(good), row := Some(Row(good, Pending)))
    ensures Next(Next(s3.(jobs := [Queued]), Start(0)), Scan(0, Clean)) == Scanned(good)
  {
  }

  /** It can fail: an overwrite between the scan and the copy puts bytes nobody judged
      behind a clean row. */
  lemma OverwriteDefeatsTheScan(good: nat, bad: nat)
    requires good != bad
    ensures Scanned(good) == Reach([Upload(good), Checksum, InsertRow, Enqueue, Start(0), Scan(0, Clean)])
    ensures var s := Next(Next(Next(Scanned(good), Upload(bad)), Promote(0)), Record(0));
            s.row.Some? && s.row.value.status == Clean && s.deliverable == Some(bad) && bad !in s.judgedClean
  {
    ScannedIsReached(good);
    hide Reach;
  }

  function Scanned(good: nat): State {
    State(Some(good), None, Some(good), Some(Row(good, Scanning)), {good}, [Judged(Clean)])
  }

  // ---- the scan as it runs ------------------------------------------------------------

  /** How the outside world answers one run of ScanAsset: the scan's verdict if it
      completed, and whether the copy and the final transaction succeed. */
  datatype Answers = Answers(verdict: Option<ScanStatus>, copies: bool, records: bool)

  /** What one undisturbed job does, and whether it reports success. An unknown asset
      is an error, a missing object a scan that could not be completed. */
  function ScanRun(s: State, a: Answers): (bool, State)
    requires s.jobs == [Queued]
  {
    var started := Next(s, Start(0));
    if s.row.None? then (false, started)
    else if !Open(s.row.value.status) then (true, started)
    else if a.verdict.None? || s.quarantine.None? then (false, Next(started, ScanFails(0)))
    else
      var judged := Next(started, Scan(0, a.verdict.value));
      if a.verdict.value != Clean then (a.records, if a.records then Next(judged, Record(0)) else judged)
      else if !a.copies then (false, judged)
      else
        var promoted := Next(judged, Promote(0));
        (a.records, if a.records then Next(promoted, Record(0)) else promoted)
  }

  /** A second job on a decided asset changes nothing but its own state. */
  lemma ScanIsIdempotent(s: State, a: Answers)
    requires s.jobs == [Queued] && s.row.Some? && !Open(s.row.value.status)
    ensures ScanRun(s, a) == (true, s.(jobs := [Finished]))
  {
    OneJob();
  }

  /** The tables one job leaves. */
  lemma ScanRunLeaves(s: State, a: Answers)
    requires s.jobs == [Queued] && (a.verdict.Some? ==> Verdict(a.verdict.value))
    ensures var (ok, after) := ScanRun(s, a);
            if s.row.None? then !ok && after == s
            else if !Open(s.row.value.status) then ok && after == s.(jobs := after.jobs)
            else if a.verdict.None? || s.quarantine.None? then !ok
                    && after == SetStatus(s, ScanError).(jobs := after.jobs)
            else
              var clean := a.verdict.value == Clean;
              var judged := s.(judgedClean := if clean then s.judgedClean + {s.quarantine.value} else s.judgedClean);
              if clean && !a.copies then !ok && after == SetStatus(judged, Scanning).(jobs := after.jobs)
              else
                && ok == a.records
                && after == SetStatus(judged, if a.records then a.verdict.value else Scanning)
                            .(deliverable := if clean then s.quarantine else s.deliverable, jobs := after.jobs)
  {
    OneJob();
  }

  lemma PromotedIs(s: State)
    requires s.jobs == [Queued] && s.row.Some? && s.quarantine.Some? && Open(s.row.value.status)
    ensures Next(Next(Next(Next(s, Start(0)), Scan(0, Clean)), Promote(0)), Record(0))
            == s.(row := Some(s.row.value.(status := Clean)), jobs := [Finished], deliverable := s.quarantine,
                  judgedClean := s.judgedClean + {s.quarantine.value})
  {
    OneJob();
    var started := Next(s, Start(0));
    assert started == s.(row := Some(s.row.value.(status := Scanning)), jobs := [Started]);
    var judged := Next(started, Scan(0, Clean));
    assert judged.jobs == [Judged(Clean)] && judged.quarantine == s.quarantine;
    var promoted := Next(judged, Promote(0));
    assert promoted.jobs == [Promoted];
  }

  /** One job written out. A decided asset is left alone. An open one ends with the
      verdict the scan returned, promoted only if that is clean, or with a scan error
      when there was none or nothing to scan; it stays scanning when the copy or the
      last transaction fails. */
  lemma ScanIs(s: State, a: Answers)
    requires s.jobs == [Queued] && s.row.Some?
    ensures var status := s.row.value.status;
            var decided := status == Clean || status == Infected || status == Suspicious || status == Skipped;
            var scanned := a.verdict.Some? && s.quarantine.Some?;
            && (decided ==> ScanRun(s, a) == (true, s.(jobs := [Finished])))
            && (!decided && !scanned ==>
                  ScanRun(s, a) == (false, s.(row := Some(s.row.value.(status := ScanError)), jobs := [Finished])))
            && (!decided && scanned && a.copies && a.records ==>
                  forall v :: v in [Clean, Infected, Suspicious, ScanError, Skipped] && a.verdict.value == v ==>
                    ScanRun(s, a)
                    == (true, s.(row := Some(s.row.value.(status := v)), jobs := [Finished],
                                 deliverable := if v == Clean then s.quarantine else s.deliverable,
                                 judgedClean := if v == Clean then s.judgedClean + {s.quarantine.value}
                                                else s.judgedClean)))
            && (!decided && scanned && a.verdict.value == Clean && !a.copies ==>
                  ScanRun(s, a).0 == false && ScanRun(s, a).1.deliverable == s.deliverable
                  && ScanRun(s, a).1.row == Some(s.row.value.(status := Scanning)))
  {
    OneJob();
    assert s.jobs[0 := Started] == [Started];
    if a.verdict.Some? {
      assert [Started][0 := Judged(a.verdict.value)] == [Judged(a.verdict.value)];
      if a.verdict.value == Clean && s.quarantine.Some? && Open(s.row.value.status) {
        PromotedIs(s);
      }
    }
  }

  /** A scan returns a verdict, never one of the statuses before it, and a job that
      dies leaves everything else as it was. */
  lemma StepsAreNot(s: State, j: nat)
    ensures Next(s, Scan(j, Pending)) == s && Next(s, Scan(j, Scanning)) == s
    ensures Next(s, Die(j)) == if j < |s.jobs| then s.(jobs := s.jobs[j := Finished]) else s
    ensures Next(s, Upload(j)) == s.(quarantine := Some(j))
  {
  }

  lemma OneJob()
    ensures forall a: Job, b: Job :: [a][0 := b] == [b]
  {
  }

  class Asset {
    var quarantine: Option<nat>
    var deliverable: Option<nat>
    var digest: Option<nat>
    var row: Option<Row>
    ghost var judgedClean: set<nat>

    constructor ()
      ensures View([]) == FRESH
    {
      quarantine, deliverable, digest, row, judgedClean := None, None, None, None, {};
    }

    ghost function View(jobs: seq<Job>): State
      reads this
    {
      State(quarantine, deliverable, digest, row, judgedClean, jobs)
    }

    /** FinaliseUpload: the digest is read back from the store, then recorded. */
    method Finalise() returns (ok: bool)
      modifies this
      ensures View([]) == if ok then Next(Next(old(View([])), Checksum), InsertRow) else old(View([]))
      ensures ok <==> old(quarantine).Some? && old(digest).None? && old(row).None?
    {
      if quarantine.None? || digest.Some? || row.Some? { return false; }
      digest := quarantine;
      row := Some(Row(quarantine.value, Pending));
      return true;
    }

    /** ScanAsset, one job from start to finish: the protocol's steps, as far as the
        answers let it get. */
    method ScanAsset(a: Answers) returns (ok: bool)
      requires a.verdict.Some? ==> Verdict(a.verdict.value)
      modifies this
      ensures ok == ScanRun(old(View([Queued])), a).0
      ensures var after := ScanRun(old(View([Queued])), a).1; View(after.jobs) == after
    {
      hide ScanRun, Verdict;
      ScanRunLeaves(View([Queued]), a);
      if row.None? { return false; }
      if !Open(row.value.status) { return true; }
      if row.value.status in {Pending, ScanError} { row := Some(row.value.(status := Scanning)); }
      if a.verdict.None? || quarantine.None? {
        row := Some(row.value.(status := ScanError));
        return false;
      }
      if a.verdict.value == Clean {
        judgedClean := judgedClean + {quarantine.value};
        if !a.copies { return false; }
        deliverable := quarantine;
      }
      if !a.records { return false; }
      row := Some(row.value.(status := a.verdict.value));
      return true;
    }
  }
}
