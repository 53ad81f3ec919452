/** The append-only double-entry journal (internal/modules/ledger) together with
    the database rules of db/migrations/0004_ledger.sql that guard it. */
module Ledger {
  import opened Money

  type Currency = string

  /** Rows are referred to by their position in their table. */
  datatype Account =
    | Clearing | CommissionIncome | GstOutput | TcsPayable | TdsPayable
    | PspFeeExpense | InputCredit | RefundAbsorbed | ChargebackLoss | SellerOffset
    | Payable(seller: nat) | Reserve(seller: nat)

  /** Idempotency keys, by the prefix the code gives them. */
  datatype Key =
    | CaptureKey(order: nat, payment: nat)
    | PspFeeKey(order: nat, payment: nat)
    | RefundKey(refund: nat)
    | ChargebackKey(dispute: nat)
    | ReserveKey(order: nat, item: nat)
    | SettleKey(order: nat, item: nat)
    | OffsetKey(offset: nat, amount: int)

  datatype Direction = Debit | Credit

  datatype Line = Line(account: Account, direction: Direction, amount: int, currency: Currency)

  datatype Entry = Entry(key: Key, currency: Currency, lines: seq<Line>)

  datatype LedgerError = EmptyEntry | CurrencyMixed | NotPositive | Unbalanced | OutOfRange

  datatype Posted = Posted(entry: nat, replayed: bool)

  /** The range of the money_minor column domain. */
  const STORE_MAX: int := 9_000_000_000_000_000

  // ---- totals ---------------------------------------------------------------

  function Total(lines: seq<Line>, d: Direction): int {
    if lines == [] then 0
    else Total(lines[..|lines| - 1], d) + Side(lines[|lines| - 1], d)
  }

  /** Debits less credits on one account. */
  function Net(lines: seq<Line>, a: Account): int {
    if lines == [] then 0
    else Net(lines[..|lines| - 1], a) + Signed(lines[|lines| - 1], a)
  }

  function Signed(l: Line, a: Account): int {
    if l.account != a then 0 else if l.direction == Debit then l.amount else -l.amount
  }

  function Balance(j: seq<Entry>, a: Account): int {
    if j == [] then 0 else Balance(j[..|j| - 1], a) + Net(j[|j| - 1].lines, a)
  }

  function TrialTotal(j: seq<Entry>, c: Currency, d: Direction): int {
    if j == [] then 0
    else TrialTotal(j[..|j| - 1], c, d)
         + if j[|j| - 1].currency == c then Total(j[|j| - 1].lines, d) else 0
  }

  lemma TotalAppend(lines: seq<Line>, l: Line, d: Direction)
    ensures Total(lines + [l], d) == Total(lines, d) + Side(l, d)
  {
    assert (lines + [l])[..|lines|] == lines;
  }

  function Side(l: Line, d: Direction): int {
    if l.direction == d then l.amount else 0
  }

  lemma TotalOfNone(d: Direction)
    ensures Total([], d) == 0
  {
  }

  lemma TotalOfFour(a: Line, b: Line, c: Line, e: Line, d: Direction)
    ensures Total([a, b, c, e], d) == Side(a, d) + Side(b, d) + Side(c, d) + Side(e, d)
  {
    hide Total, Side;
    TotalOfNone(d);
    TotalAppend([], a, d);
    TotalAppend([a], b, d);
    TotalAppend([a, b], c, d);
    TotalAppend([a, b, c], e, d);
    assert [] + [a] == [a] && [a] + [b] == [a, b] && [a, b] + [c] == [a, b, c] && [a, b, c] + [e] == [a, b, c, e];
  }

  lemma NetAppend(lines: seq<Line>, l: Line, a: Account)
    ensures Net(lines + [l], a) == Net(lines, a) + Signed(l, a)
  {
    assert (lines + [l])[..|lines|] == lines;
  }

  lemma BalanceAppend(j: seq<Entry>, e: Entry, a: Account)
    ensures Balance(j + [e], a) == Balance(j, a) + Net(e.lines, a)
  {
    assert (j + [e])[..|j|] == j;
  }

  // ---- validation -----------------------------------------------------------

  /** The first line the Go layer objects to. */
  function CheckLines(lines: seq<Line>, c: Currency): Result<(), LedgerError> {
    if lines == [] then Ok(()) else
    var _ :- CheckLines(lines[..|lines| - 1], c);
    var l := lines[|lines| - 1];
    if l.currency != c then Err(CurrencyMixed)
    else if l.amount <= 0 then Err(NotPositive)
    else Ok(())
  }

  predicate LinesOk(lines: seq<Line>, c: Currency) {
    forall l <- lines :: l.currency == c && l.amount > 0
  }

  /** Validate accumulates in int64, so the totals it compares are the wrapped ones. */
  function ValidateSpec(e: Entry): Result<(), LedgerError> {
    if |e.lines| < 2 then Err(EmptyEntry) else
    var _ :- CheckLines(e.lines, e.currency);
    if Wrap(Total(e.lines, Debit)) != Wrap(Total(e.lines, Credit)) then Err(Unbalanced) else Ok(())
  }

  method Validate(e: Entry) returns (r: Result<(), LedgerError>)
    ensures r == ValidateSpec(e)
  {
    hide Wrap, Total, CheckLines;
    TotalEmpty();
    CheckLinesMeaning([], e.currency);
    if |e.lines| < 2 { return Err(EmptyEntry); }
    var debits, credits := 0, 0;
    var i := 0;
    while i < |e.lines|
      invariant 0 <= i <= |e.lines|
      invariant CheckLines(e.lines[..i], e.currency).Ok?
      invariant debits == Wrap(Total(e.lines[..i], Debit))
      invariant credits == Wrap(Total(e.lines[..i], Credit))
    {
      var l := e.lines[i];
      assert e.lines[..i + 1] == e.lines[..i] + [l];
      TotalAppend(e.lines[..i], l, Debit);
      TotalAppend(e.lines[..i], l, Credit);
      CheckAppend(e.lines[..i], l, e.currency);
      if l.currency != e.currency {
        CheckStaysFailed(e.lines, e.currency, i + 1);
        return Err(CurrencyMixed);
      }
      if l.amount <= 0 {
        CheckStaysFailed(e.lines, e.currency, i + 1);
        return Err(NotPositive);
      }
      WrapStep(Total(e.lines[..i], Debit), l.amount);
      WrapStep(Total(e.lines[..i], Credit), l.amount);
      if l.direction == Debit {
        debits := Wrap(debits + l.amount);
      } else {
        credits := Wrap(credits + l.amount);
      }
      i := i + 1;
    }
    assert e.lines[..|e.lines|] == e.lines;
    if debits != credits { return Err(Unbalanced); }
    return Ok(());
  }

  lemma WrapStep(total: int, x: int)
    ensures Wrap(Wrap(total) + x) == Wrap(total + x)
  {
    var k := (Wrap(total) - total) / TWO_64;
    assert Wrap(total) + x + TWO_63 == total + x + TWO_63 + k * TWO_64;
    ModShift(total + x + TWO_63, k);
  }

  lemma ModShift(x: int, k: int)
    ensures (x + k * TWO_64) % TWO_64 == x % TWO_64
  {
  }

  lemma {:induction false} CheckStaysFailed(lines: seq<Line>, c: Currency, k: nat)
    requires k <= |lines| && CheckLines(lines[..k], c).Err?
    ensures CheckLines(lines, c) == CheckLines(lines[..k], c)
    decreases |lines|
  {
    if k == |lines| {
      assert lines[..k] == lines;
    } else {
      assert lines[..|lines| - 1][..k] == lines[..k];
      CheckStaysFailed(lines[..|lines| - 1], c, k);
    }
  }

  lemma {:induction false} CheckLinesMeaning(lines: seq<Line>, c: Currency)
    ensures CheckLines(lines, c).Ok? <==> LinesOk(lines, c)
  {
    if lines == [] {
    } else {
      var init := lines[..|lines| - 1];
      CheckLinesMeaning(init, c);
      assert lines == init + [lines[|lines| - 1]];
    }
  }

  lemma {:induction false} TotalBounds(lines: seq<Line>, c: Currency, m: nat, d: Direction)
    requires LinesOk(lines, c) && forall l <- lines :: l.amount <= m
    ensures 0 <= Total(lines, d) <= m * |lines|
  {
    if lines == [] {
    } else {
      var init, last := lines[..|lines| - 1], lines[|lines| - 1];
      assert last in lines;
      forall l | l in init ensures l in lines { }
      TotalBounds(init, c, m, d);
      MulStep(m, |init|);
      assert m * |lines| == m * |init| + m;
    }
  }

  /** Exact balance, as the deferred constraint trigger computes it. */
  predicate Balanced(e: Entry) {
    Total(e.lines, Debit) == Total(e.lines, Credit)
  }

  /** What both layers together let into the journal. */
  predicate Accepted(e: Entry) {
    && |e.lines| >= 2
    && LinesOk(e.lines, e.currency)
    && (forall l <- e.lines :: l.amount <= STORE_MAX)
    && Balanced(e)
    && Total(e.lines, Debit) <= MAX_INT64
  }

  lemma WrapEqual(x: int, y: int)
    ensures Wrap(x) == Wrap(y) <==> (x - y) % TWO_64 == 0
  {
    if Wrap(x) == Wrap(y) {
      var a, b := (Wrap(x) - x) / TWO_64, (Wrap(y) - y) / TWO_64;
      assert x - y == (b - a) * TWO_64;
      ModShift(0, b - a);
    } else if (x - y) % TWO_64 == 0 {
      var k := (x - y) / TWO_64;
      assert x + TWO_63 == y + TWO_63 + k * TWO_64;
      ModShift(y + TWO_63, k);
      assert false;
    }
  }

  lemma CheckAppend(lines: seq<Line>, l: Line, c: Currency)
    ensures CheckLines(lines, c).Err? ==> CheckLines(lines + [l], c) == CheckLines(lines, c)
    ensures CheckLines(lines, c).Ok? ==>
              CheckLines(lines + [l], c)
              == if l.currency != c then Err(CurrencyMixed) else if l.amount <= 0 then Err(NotPositive) else Ok(())
  {
    assert (lines + [l])[..|lines|] == lines;
  }

  lemma TotalEmpty()
    ensures forall d :: Total([], d) == 0
  {
  }

  /** For well-formed lines, the Go check accepts exactly the entries whose debits
      and credits agree modulo 2^64. */
  lemma ValidateAcceptsIff(e: Entry)
    ensures ValidateSpec(e).Ok?
            <==> |e.lines| >= 2 && LinesOk(e.lines, e.currency)
                 && (Total(e.lines, Debit) - Total(e.lines, Credit)) % TWO_64 == 0
  {
    CheckLinesMeaning(e.lines, e.currency);
    WrapEqual(Total(e.lines, Debit), Total(e.lines, Credit));
  }

  /** On its own the Go check lets an unbalanced entry through once a total
      passes 2^64. */
  lemma ValidateAloneAdmitsAnUnbalancedEntry(k: Key, c: Currency)
    ensures var l := d => Line(Clearing, d, MAX_INT64, c);
            var e := Entry(k, c, [l(Debit), l(Debit), Line(Clearing, Debit, 3, c), Line(GstOutput, Credit, 1, c)]);
            ValidateSpec(e).Ok? && !Balanced(e)
  {
    var big := Line(Clearing, Debit, MAX_INT64, c);
    var e := Entry(k, c, [big, big, Line(Clearing, Debit, 3, c), Line(GstOutput, Credit, 1, c)]);
    ValidateAcceptsIff(e);
    TotalOfFour(big, big, e.lines[2], e.lines[3], Debit);
    TotalOfFour(big, big, e.lines[2], e.lines[3], Credit);
    assert Total(e.lines, Debit) == TWO_64 + 1 && Total(e.lines, Credit) == 1;
  }

  /** For amounts the column domain can hold and at most a thousand lines the
      totals cannot wrap: the Go check and the database rule agree. */
  lemma ValidateIsExactForStorableLines(e: Entry)
    requires |e.lines| <= 1000 && forall l <- e.lines :: l.amount <= STORE_MAX
    ensures ValidateSpec(e).Ok? <==> Accepted(e)
  {
    ValidateAcceptsIff(e);
    if LinesOk(e.lines, e.currency) {
      TotalBounds(e.lines, e.currency, STORE_MAX, Debit);
      TotalBounds(e.lines, e.currency, STORE_MAX, Credit);
    }
  }

  /** Of several lines it objects to, Validate names the fault of the first. */
  lemma {:induction false} FirstObjection(lines: seq<Line>, c: Currency)
    ensures CheckLines(lines, c) == Ok(())
            <==> forall i :: 0 <= i < |lines| ==> lines[i].currency == c && lines[i].amount > 0
    ensures forall i :: 0 <= i < |lines| && (lines[i].currency != c || lines[i].amount <= 0)
                        && (forall x :: 0 <= x < i ==> lines[x].currency == c && lines[x].amount > 0) ==>
              CheckLines(lines, c) == Err(if lines[i].currency != c then CurrencyMixed else NotPositive)
  {
    if lines != [] {
      FirstObjection(lines[..|lines| - 1], c);
    }
  }

  /** What the totals add up: amounts on the named side of the named account, in the
      entries of the named currency. */
  lemma TotalsAdd(lines: seq<Line>, l: Line, j: seq<Entry>, e: Entry, a: Account, c: Currency, d: Direction)
    ensures Total([], d) == 0 && Net([], a) == 0 && Balance([], a) == 0 && TrialTotal([], c, d) == 0
    ensures Total(lines + [l], d) == Total(lines, d) + if l.direction == d then l.amount else 0
    ensures Net(lines + [l], a)
            == Net(lines, a) + if l.account != a then 0 else if l.direction == Debit then l.amount else -l.amount
    ensures Balance(j + [e], a) == Balance(j, a) + Net(e.lines, a)
    ensures TrialTotal(j + [e], c, d) == TrialTotal(j, c, d) + if e.currency == c then Total(e.lines, d) else 0
  {
    assert (lines + [l])[..|lines|] == lines;
    assert (j + [e])[..|j|] == j;
  }

  // ---- posting --------------------------------------------------------------

  predicate HasKey(j: seq<Entry>, k: Key) {
    exists i :: 0 <= i < |j| && j[i].key == k
  }

  function IndexOf(j: seq<Entry>, k: Key): (i: nat)
    requires HasKey(j, k)
    ensures i < |j| && j[i].key == k && forall x :: 0 <= x < i ==> j[x].key != k
  {
    if j[0].key == k then 0 else IndexOf(j[1..], k) + 1
  }

  predicate UniqueKeys(j: seq<Entry>) {
    forall a, b :: 0 <= a < b < |j| ==> j[a].key != j[b].key
  }

  predicate Sound(j: seq<Entry>) {
    && UniqueKeys(j)
    && forall i :: 0 <= i < |j| ==> Accepted(j[i])
  }

  /** Posting is refused, replayed, or appended. */
  function PostSpec(j: seq<Entry>, e: Entry): Result<seq<Entry>, LedgerError> {
    var _ :- ValidateSpec(e);
    if HasKey(j, e.key) then Ok(j)
    else if Accepted(e) then Ok(j + [e])
    else Err(OutOfRange)
  }

  lemma PostCases(j: seq<Entry>, e: Entry)
    ensures PostSpec(j, e).Ok? && !HasKey(j, e.key) ==> PostSpec(j, e).value == j + [e] && Accepted(e)
    ensures PostSpec(j, e).Ok? && HasKey(j, e.key) ==> PostSpec(j, e).value == j
    ensures Accepted(e) ==> PostSpec(j, e).Ok?
  {
    ValidateAcceptsIff(e);
  }

  /** A posting in full. It is refused with fewer than two lines, for the first line of
      another currency or without a positive amount, and for sides that differ modulo 2^64;
      then found, if the key is in the journal; then refused by the database, unless every
      amount fits its column and the sides agree and fit; and otherwise appended. */
  lemma PostIs(j: seq<Entry>, e: Entry)
    ensures |e.lines| < 2 ==> PostSpec(j, e) == Err(EmptyEntry)
    ensures forall i :: |e.lines| >= 2 && 0 <= i < |e.lines|
                        && (e.lines[i].currency != e.currency || e.lines[i].amount <= 0)
                        && (forall x :: 0 <= x < i ==> e.lines[x].currency == e.currency && e.lines[x].amount > 0) ==>
              PostSpec(j, e) == Err(if e.lines[i].currency != e.currency then CurrencyMixed else NotPositive)
    ensures |e.lines| >= 2
            && (forall i :: 0 <= i < |e.lines| ==> e.lines[i].currency == e.currency && e.lines[i].amount > 0) ==>
              PostSpec(j, e)
              == if (Total(e.lines, Debit) - Total(e.lines, Credit)) % TWO_64 != 0 then Err(Unbalanced)
                 else if exists x :: 0 <= x < |j| && j[x].key == e.key then Ok(j)
                 else if (forall i :: 0 <= i < |e.lines| ==> e.lines[i].amount <= 9_000_000_000_000_000)
                         && Total(e.lines, Debit) == Total(e.lines, Credit) <= MAX_INT64 then Ok(j + [e])
                 else Err(OutOfRange)
  {
    hide Total, CheckLines, Wrap;
    FirstObjection(e.lines, e.currency);
    WrapEqual(Total(e.lines, Debit), Total(e.lines, Credit));
    forall l | l in e.lines ensures exists i :: 0 <= i < |e.lines| && e.lines[i] == l { }
  }

  lemma KeysAfterAppend(j: seq<Entry>, e: Entry)
    ensures forall k :: HasKey(j + [e], k) <==> HasKey(j, k) || e.key == k
  {
    forall k ensures HasKey(j + [e], k) <==> HasKey(j, k) || e.key == k {
      if HasKey(j, k) {
        var i :| 0 <= i < |j| && j[i].key == k;
        assert (j + [e])[i].key == k;
      }
      if e.key == k { assert (j + [e])[|j|].key == k; }
    }
  }

  /** Whatever is posted, the journal only grows, stays keyed uniquely and holds
      only balanced entries. A key already present changes nothing. */
  lemma PostKeepsSound(j: seq<Entry>, e: Entry)
    requires Sound(j)
    ensures var r := PostSpec(j, e);
            r.Ok? ==> && Sound(r.value) && j <= r.value && HasKey(r.value, e.key)
                      && |r.value| <= |j| + 1
                      && (HasKey(j, e.key) ==> r.value == j)
  {
    PostCases(j, e);
    KeysAfterAppend(j, e);
    if !HasKey(j, e.key) {
      forall i | 0 <= i < |j| ensures j[i].key != e.key { assert HasKey(j, j[i].key); }
    }
  }

  /** The system's health check: in every sound journal total debits equal total
      credits, currency by currency. */
  lemma {:induction false} TrialBalances(j: seq<Entry>, c: Currency)
    requires Sound(j)
    ensures TrialTotal(j, c, Debit) == TrialTotal(j, c, Credit)
  {
    if j == [] {
    } else {
      var init, last := j[..|j| - 1], j[|j| - 1];
      assert forall i :: 0 <= i < |init| ==> init[i] == j[i];
      assert Accepted(last);
      TrialBalances(init, c);
    }
  }

  /** Every posting sequence, from an empty journal. */
  function PostAll(es: seq<Entry>): seq<Entry> {
    if es == [] then [] else
    var j := PostAll(es[..|es| - 1]);
    var r := PostSpec(j, es[|es| - 1]);
    if r.Ok? then r.value else j
  }

  lemma {:induction false} EveryPostingRunBalances(es: seq<Entry>, c: Currency)
    ensures Sound(PostAll(es))
    ensures TrialTotal(PostAll(es), c, Debit) == TrialTotal(PostAll(es), c, Credit)
  {
    if es == [] {
    } else {
      EveryPostingRunBalances(es[..|es| - 1], c);
      PostKeepsSound(PostAll(es[..|es| - 1]), es[|es| - 1]);
    }
    TrialBalances(PostAll(es), c);
  }

  /** Nothing acceptable is lost on the way: its key is in the journal, and so is its
      whole entry when the key was not used before. */
  lemma {:induction false} NothingAcceptedIsLost(es: seq<Entry>, n: nat)
    requires n < |es| && Accepted(es[n])
    ensures HasKey(PostAll(es), es[n].key)
    ensures (forall x :: 0 <= x < n ==> es[x].key != es[n].key) ==> es[n] in PostAll(es)
  {
    hide Accepted;
    var init, last := es[..|es| - 1], es[|es| - 1];
    PostCases(PostAll(init), last);
    KeysAfterAppend(PostAll(init), last);
    if n < |init| {
      NothingAcceptedIsLost(init, n);
    } else if HasKey(PostAll(init), last.key) {
      KeyWasPosted(init, last.key);
    }
  }

  /** A key in the journal was posted. */
  lemma {:induction false} KeyWasPosted(es: seq<Entry>, k: Key)
    requires HasKey(PostAll(es), k)
    ensures exists x :: 0 <= x < |es| && es[x].key == k
  {
    hide Accepted;
    if es != [] {
      var init, last := es[..|es| - 1], es[|es| - 1];
      PostCases(PostAll(init), last);
      KeysAfterAppend(PostAll(init), last);
      if last.key != k {
        KeyWasPosted(init, k);
        var x :| 0 <= x < |init| && init[x].key == k;
        assert es[x].key == k;
      }
    }
  }

  class Journal {
    var entries: seq<Entry>

    constructor ()
      ensures entries == []
    {
      entries := [];
    }

    /** Post looks the key up, inserts the header and then the lines one by one.
        After an error the transaction cannot commit; what was inserted before it
        is the caller's to roll back. */
    method Post(e: Entry) returns (r: Result<Posted, LedgerError>)
      modifies this
      ensures r.Ok? == PostSpec(old(entries), e).Ok?
      ensures r.Err? ==> PostSpec(old(entries), e) == Err(r.error)
      ensures r.Ok? ==> entries == PostSpec(old(entries), e).value
      ensures r.Ok? ==> r.value.entry < |entries| && entries[r.value.entry].key == e.key
      ensures r.Ok? ==> r.value.replayed == HasKey(old(entries), e.key)
      ensures old(entries) <= entries
    {
      hide Wrap, Total, CheckLines;
      var valid := Validate(e);
      if valid.Err? { return Err(valid.error); }
      ValidateAcceptsIff(e);
      var i := 0;
      while i < |entries|
        invariant 0 <= i <= |entries|
        invariant forall x :: 0 <= x < i ==> entries[x].key != e.key
      {
        if entries[i].key == e.key { return Ok(Posted(i, true)); }
        i := i + 1;
      }
      ghost var before := entries;
      entries := entries + [Entry(e.key, e.currency, [])];
      var n := 0;
      while n < |e.lines|
        invariant 0 <= n <= |e.lines|
        invariant entries == before + [Entry(e.key, e.currency, e.lines[..n])]
        invariant forall x :: 0 <= x < n ==> e.lines[x].amount <= STORE_MAX
      {
        if e.lines[n].amount > STORE_MAX {
          assert e.lines[n] in e.lines;
          return Err(OutOfRange);
        }
        var last := entries[|entries| - 1];
        assert e.lines[..n + 1] == e.lines[..n] + [e.lines[n]];
        entries := entries[..|entries| - 1] + [last.(lines := last.lines + [e.lines[n]])];
        n := n + 1;
      }
      assert e.lines[..n] == e.lines;
      // The constraint trigger runs at commit.
      if Total(e.lines, Debit) != Total(e.lines, Credit) || Total(e.lines, Debit) > MAX_INT64 {
        return Err(OutOfRange);
      }
      return Ok(Posted(|entries| - 1, false));
    }
  }
}
