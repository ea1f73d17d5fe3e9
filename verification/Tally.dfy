/**
 The Tally export (apps/fees/tally.py): one voucher per live receipt and per refund, each a
 list of signed ledger entries. A debit is negative, a credit positive.
 */
module Tally {
  import opened Wrappers
  import opened Text
  import opened LedgerModel
  import opened LedgerInvariants
  import opened Sums

  datatype VoucherType = ReceiptVoucher | PaymentVoucher
  datatype Entry = Entry(ledger: string, amount: int, debit: bool)
  datatype Voucher = Voucher(kind: VoucherType, row: nat, date: int, entries: seq<Entry>)
  datatype Settings = Settings(cashLedger: string, bankLedger: string)

  function MakeEntry(ledger: string, amount: int, debit: bool): Entry {
    Entry(ledger, if debit then -amount else amount, debit)
  }

  function EntryTotal(entries: seq<Entry>): int {
    if entries == [] then 0 else EntryTotal(entries[..|entries| - 1]) + entries[|entries| - 1].amount
  }

  predicate Balanced(v: Voucher) {
    EntryTotal(v.entries) == 0
  }

  // ------------------------------------------------------------------ grouping by ledger

  /** The lines that go to one ledger. */
  function LedgerSum(lines: seq<Line>, ledgerOf: nat -> string, ledger: string): int {
    if lines == [] then 0
    else LedgerSum(lines[..|lines| - 1], ledgerOf, ledger)
         + (if ledgerOf(lines[|lines| - 1].charge) == ledger then lines[|lines| - 1].amount else 0)
  }

  predicate Uses(lines: seq<Line>, ledgerOf: nat -> string, ledger: string) {
    exists i :: 0 <= i < |lines| && ledgerOf(lines[i].charge) == ledger
  }

  lemma UsesLast(lines: seq<Line>, k: nat, ledgerOf: nat -> string, ledger: string)
    requires k < |lines|
    ensures Uses(lines[..k + 1], ledgerOf, ledger) <==> Uses(lines[..k], ledgerOf, ledger) || ledgerOf(lines[k].charge) == ledger
  {
    var a, b := lines[..k + 1], lines[..k];
    if Uses(b, ledgerOf, ledger) {
      var i :| 0 <= i < |b| && ledgerOf(b[i].charge) == ledger;
      assert a[i] == b[i];
    }
    if ledgerOf(lines[k].charge) == ledger {
      assert a[k] == lines[k];
    }
    if Uses(a, ledgerOf, ledger) && ledgerOf(lines[k].charge) != ledger {
      var i :| 0 <= i < |a| && ledgerOf(a[i].charge) == ledger;
      assert b[i] == a[i];
    }
  }

  /** by_ledger, a defaultdict that each line is added to. */
  method GroupByLedger(lines: seq<Line>, ledgerOf: nat -> string) returns (byLedger: map<string, int>)
    ensures forall l :: l in byLedger <==> Uses(lines, ledgerOf, l)
    ensures forall l :: l in byLedger ==> byLedger[l] == LedgerSum(lines, ledgerOf, l)
  {
    byLedger := map[];
    for k := 0 to |lines|
      invariant forall l :: l in byLedger <==> Uses(lines[..k], ledgerOf, l)
      invariant forall l :: (if l in byLedger then byLedger[l] else 0) == LedgerSum(lines[..k], ledgerOf, l)
    {
      var ledger := ledgerOf(lines[k].charge);
      assert lines[..k + 1][..k] == lines[..k];
      forall l ensures Uses(lines[..k + 1], ledgerOf, l) <==> Uses(lines[..k], ledgerOf, l) || l == ledger {
        UsesLast(lines, k, ledgerOf, l);
      }
      byLedger := byLedger[ledger := (if ledger in byLedger then byLedger[ledger] else 0) + lines[k].amount];
    }
    assert lines[..|lines|] == lines;
  }

  type Item = (string, int)

  predicate Sorted(items: seq<Item>) {
    forall i, j :: 0 <= i < j < |items| ==> Before(items[i].0, items[j].0)
  }

  predicate Lists(items: seq<Item>, ledger: string) {
    exists it :: it in items && it.0 == ledger
  }

  /** The position a ledger takes among sorted items. */
  function Position(items: seq<Item>, ledger: string): (i: nat)
    ensures i <= |items| && forall j :: 0 <= j < i ==> Before(items[j].0, ledger)
    ensures i < |items| ==> !Before(items[i].0, ledger)
  {
    if items == [] || !Before(items[0].0, ledger) then 0 else 1 + Position(items[1..], ledger)
  }

  function InsertItem(items: seq<Item>, it: Item): seq<Item> {
    var p := Position(items, it.0);
    items[..p] + [it] + items[p..]
  }

  lemma InsertSorted(items: seq<Item>, it: Item)
    requires Sorted(items) && !Lists(items, it.0)
    ensures Sorted(InsertItem(items, it))
  {
    hide Before;
    var p := Position(items, it.0);
    if p < |items| {
      BeforeTotal(items[p].0, it.0);
      forall j | p < j < |items| ensures Before(it.0, items[j].0) {
        BeforeTransitive(it.0, items[p].0, items[j].0);
      }
    }
  }

  lemma InsertLists(items: seq<Item>, it: Item)
    ensures forall x :: x in InsertItem(items, it) <==> x in items || x == it
  {
    hide Before;
    var p := Position(items, it.0);
    assert items == items[..p] + items[p..];
  }

  lemma ListsAfterInsert(items: seq<Item>, it: Item, ledger: string)
    ensures Lists(InsertItem(items, it), ledger) <==> Lists(items, ledger) || ledger == it.0
  {
    InsertLists(items, it);
    hide InsertItem;
    assert it in InsertItem(items, it);
  }

  /** sorted(by_ledger.items()) */
  method SortedItems(byLedger: map<string, int>) returns (items: seq<Item>)
    ensures Sorted(items)
    ensures forall l :: l in byLedger <==> Lists(items, l)
    ensures forall it :: it in items ==> it.0 in byLedger && it.1 == byLedger[it.0]
  {
    items := [];
    var left := byLedger.Keys;
    while left != {}
      invariant left <= byLedger.Keys && Sorted(items)
      invariant forall l :: l in byLedger.Keys - left <==> Lists(items, l)
      invariant forall it :: it in items ==> it.0 in byLedger && it.1 == byLedger[it.0]
      decreases |left|
    {
      hide Sorted, InsertItem, Lists;
      var l :| l in left;
      var it := (l, byLedger[l]);
      InsertSorted(items, it);
      forall k ensures Lists(InsertItem(items, it), k) <==> Lists(items, k) || k == l {
        ListsAfterInsert(items, it, k);
      }
      InsertLists(items, it);
      items := InsertItem(items, it);
      left := left - {l};
    }
  }

  // ------------------------------------------------------------------ grouping keeps the sum

  function ItemTotal(items: seq<Item>): int {
    if items == [] then 0 else ItemTotal(items[..|items| - 1]) + items[|items| - 1].1
  }

  /** The items' ledger sums over these lines, added up. */
  function SpreadTotal(items: seq<Item>, lines: seq<Line>, ledgerOf: nat -> string): int {
    if items == [] then 0
    else SpreadTotal(items[..|items| - 1], lines, ledgerOf) + LedgerSum(lines, ledgerOf, items[|items| - 1].0)
  }

  lemma {:induction false} LineHitsOneLedger(items: seq<Item>, lines: seq<Line>, ledgerOf: nat -> string)
    requires lines != [] && forall i, j :: 0 <= i < j < |items| ==> items[i].0 != items[j].0
    ensures var last := lines[|lines| - 1];
            SpreadTotal(items, lines, ledgerOf)
            == SpreadTotal(items, lines[..|lines| - 1], ledgerOf)
               + (if Lists(items, ledgerOf(last.charge)) then last.amount else 0)
  {
    if items != [] {
      var n, ledger := |items| - 1, ledgerOf(lines[|lines| - 1].charge);
      LineHitsOneLedger(items[..n], lines, ledgerOf);
      assert items[n] in items && forall it :: it in items[..n] ==> it in items;
      if Lists(items, ledger) && items[n].0 != ledger {
        var it :| it in items && it.0 == ledger;
        assert it in items[..n];
      }
    }
  }

  lemma {:induction false} SpreadIsTotal(items: seq<Item>, lines: seq<Line>, ledgerOf: nat -> string)
    requires forall i, j :: 0 <= i < j < |items| ==> items[i].0 != items[j].0
    requires forall k :: 0 <= k < |lines| ==> Lists(items, ledgerOf(lines[k].charge))
    ensures SpreadTotal(items, lines, ledgerOf) == LineTotal(lines)
  {
    if lines == [] {
      NothingSpread(items, ledgerOf);
    } else {
      LineHitsOneLedger(items, lines, ledgerOf);
      SpreadIsTotal(items, lines[..|lines| - 1], ledgerOf);
    }
  }

  lemma {:induction false} NothingSpread(items: seq<Item>, ledgerOf: nat -> string)
    ensures SpreadTotal(items, [], ledgerOf) == 0
  {
    if items != [] {
      NothingSpread(items[..|items| - 1], ledgerOf);
    }
  }

  lemma {:induction false} ItemsSpread(items: seq<Item>, lines: seq<Line>, ledgerOf: nat -> string)
    requires forall i :: 0 <= i < |items| ==> items[i].1 == LedgerSum(lines, ledgerOf, items[i].0)
    ensures ItemTotal(items) == SpreadTotal(items, lines, ledgerOf)
  {
    if items != [] {
      ItemsSpread(items[..|items| - 1], lines, ledgerOf);
    }
  }

  lemma SortedDistinct(items: seq<Item>)
    requires Sorted(items)
    ensures forall i, j :: 0 <= i < j < |items| ==> items[i].0 != items[j].0
  {
    forall i, j | 0 <= i < j < |items| ensures items[i].0 != items[j].0 {
      BeforeTotal(items[i].0, items[j].0);
    }
  }

  // ------------------------------------------------------------------ vouchers

  /** One item per ledger of the lines, in ledger order, together worth the lines. */
  method LedgerItems(lines: seq<Line>, ledgerOf: nat -> string) returns (items: seq<Item>)
    ensures Sorted(items) && ItemTotal(items) == LineTotal(lines)
    ensures forall l :: Uses(lines, ledgerOf, l) <==> Lists(items, l)
    ensures forall i :: 0 <= i < |items| ==> items[i].1 == LedgerSum(lines, ledgerOf, items[i].0)
  {
    var byLedger := GroupByLedger(lines, ledgerOf);
    items := SortedItems(byLedger);
    hide Before, LedgerSum, Lists, LineTotal, ItemTotal, SpreadTotal, Sorted;
    SortedDistinct(items);
    assert forall i :: 0 <= i < |items| ==> items[i] in items;
    ItemsSpread(items, lines, ledgerOf);
    assert forall k :: 0 <= k < |lines| ==> Uses(lines, ledgerOf, ledgerOf(lines[k].charge));
    SpreadIsTotal(items, lines, ledgerOf);
  }

  function EntriesOf(items: seq<Item>, debit: bool): seq<Entry> {
    seq(|items|, i requires 0 <= i < |items| => MakeEntry(items[i].0, items[i].1, debit))
  }

  lemma {:induction false} EntriesWorthItems(items: seq<Item>, debit: bool)
    ensures EntryTotal(EntriesOf(items, debit)) == if debit then -ItemTotal(items) else ItemTotal(items)
  {
    if items != [] {
      var n := |items| - 1;
      EntriesWorthItems(items[..n], debit);
      assert EntriesOf(items, debit)[..n] == EntriesOf(items[..n], debit);
    }
  }

  lemma {:induction false} EntryTotalConcat(a: seq<Entry>, b: seq<Entry>)
    ensures EntryTotal(a + b) == EntryTotal(a) + EntryTotal(b)
  {
    if b == [] {
      assert a + b == a;
    } else {
      EntryTotalConcat(a, b[..|b| - 1]);
      assert (a + b)[..|a + b| - 1] == a + b[..|b| - 1];
    }
  }

  /** Money against the ledgers of its lines adds to zero, on either side. */
  lemma MoneyBalancesItems(money: string, amount: int, items: seq<Item>)
    requires ItemTotal(items) == amount
    ensures EntryTotal([MakeEntry(money, amount, true)] + EntriesOf(items, false)) == 0
    ensures EntryTotal(EntriesOf(items, true) + [MakeEntry(money, amount, false)]) == 0
  {
    var debit, credit := [MakeEntry(money, amount, true)], [MakeEntry(money, amount, false)];
    assert debit[..0] == [] && credit[..0] == [];
    EntriesWorthItems(items, false);
    EntriesWorthItems(items, true);
    EntryTotalConcat(debit, EntriesOf(items, false));
    EntryTotalConcat(EntriesOf(items, true), credit);
  }

  function LedgerOf(cfg: Config, s: State): nat -> string {
    (c: nat) => if c < |s.charges| then cfg.head(s.charges[c].head).ledger else ""
  }

  /** Of the rows below n, the chosen ones and no others have a voucher of this kind, and one each. */
  predicate Covers(vs: seq<Voucher>, kind: VoucherType, n: nat, chosen: nat -> bool) {
    (forall r: nat :: r < n && chosen(r) ==> HasVoucher(vs, kind, r))
    && (forall i :: 0 <= i < |vs| && vs[i].kind == kind ==> vs[i].row < n && chosen(vs[i].row))
    && forall i, j :: 0 <= i < j < |vs| && vs[i].kind == vs[j].kind == kind ==> vs[i].row != vs[j].row
  }

  predicate HasVoucher(vs: seq<Voucher>, kind: VoucherType, row: nat) {
    exists i :: 0 <= i < |vs| && vs[i].kind == kind && vs[i].row == row
  }

  lemma HasAfter(vs: seq<Voucher>, v: Voucher, kind: VoucherType, row: nat)
    ensures HasVoucher(vs, kind, row) || (v.kind == kind && v.row == row) ==> HasVoucher(vs + [v], kind, row)
  {
    if HasVoucher(vs, kind, row) {
      var i :| 0 <= i < |vs| && vs[i].kind == kind && vs[i].row == row;
      assert (vs + [v])[i] == vs[i];
    } else {
      assert (vs + [v])[|vs|] == v;
    }
  }

  lemma CoversAfter(vs: seq<Voucher>, v: Voucher, kind: VoucherType, n: nat, chosen: nat -> bool)
    requires Covers(vs, kind, n, chosen)
    ensures v.kind != kind ==> Covers(vs + [v], kind, n, chosen)
    ensures v.kind == kind && v.row == n && chosen(n) ==> Covers(vs + [v], kind, n + 1, chosen)
  {
    forall r: nat | r < n + 1 ensures HasVoucher(vs, kind, r) || (v.kind == kind && v.row == r) ==> HasVoucher(vs + [v], kind, r) {
      HasAfter(vs, v, kind, r);
    }
  }

  /** The entries of these lines: one per ledger they use, in ledger order, for its whole share. */
  predicate LedgerShares(es: seq<Entry>, lines: seq<Line>, ledgerOf: nat -> string, debit: bool) {
    (forall i :: 0 <= i < |es| ==> es[i] == MakeEntry(es[i].ledger, LedgerSum(lines, ledgerOf, es[i].ledger), debit))
    && (forall i, j :: 0 <= i < j < |es| ==> Before(es[i].ledger, es[j].ledger))
    && forall k :: 0 <= k < |lines| ==> HasEntry(es, ledgerOf(lines[k].charge))
  }

  predicate HasEntry(es: seq<Entry>, ledger: string) {
    exists i :: 0 <= i < |es| && es[i].ledger == ledger
  }

  lemma EntriesComplete(items: seq<Item>, lines: seq<Line>, ledgerOf: nat -> string, debit: bool)
    requires forall l :: Uses(lines, ledgerOf, l) <==> Lists(items, l)
    ensures var es := EntriesOf(items, debit);
            forall k :: 0 <= k < |lines| ==> HasEntry(es, ledgerOf(lines[k].charge))
  {
    var es := EntriesOf(items, debit);
    forall k | 0 <= k < |lines| ensures HasEntry(es, ledgerOf(lines[k].charge)) {
      assert Uses(lines, ledgerOf, ledgerOf(lines[k].charge)) && Lists(items, ledgerOf(lines[k].charge));
      var it :| it in items && it.0 == ledgerOf(lines[k].charge);
      assert it in items;
      var i :| 0 <= i < |items| && items[i] == it;
      assert es[i].ledger == it.0;
    }
  }

  lemma EntriesInOrder(items: seq<Item>, debit: bool)
    requires Sorted(items)
    ensures var es := EntriesOf(items, debit);
            forall i, j :: 0 <= i < j < |es| ==> Before(es[i].ledger, es[j].ledger)
  {
    hide Before;
  }

  lemma EntriesAreShares(items: seq<Item>, lines: seq<Line>, ledgerOf: nat -> string, debit: bool)
    requires Sorted(items) && forall l :: Uses(lines, ledgerOf, l) <==> Lists(items, l)
    requires forall i :: 0 <= i < |items| ==> items[i].1 == LedgerSum(lines, ledgerOf, items[i].0)
    ensures LedgerShares(EntriesOf(items, debit), lines, ledgerOf, debit)
  {
    EntriesComplete(items, lines, ledgerOf, debit);
    EntriesInOrder(items, debit);
    hide Before, LedgerSum, Uses, Lists, Sorted, HasEntry;
    var es := EntriesOf(items, debit);
    forall i | 0 <= i < |es| ensures es[i] == MakeEntry(es[i].ledger, LedgerSum(lines, ledgerOf, es[i].ledger), debit) {
    }
  }

  function MoneyLedger(settings: Settings, cash: bool): string {
    if cash then settings.cashLedger else settings.bankLedger
  }

  /** Money in: the cash or bank ledger is debited and the fee ledgers credited; a refund the other way. */
  predicate Represents(cfg: Config, s: State, settings: Settings, v: Voucher) {
    Balanced(v) && v.entries != []
    && match v.kind
       case ReceiptVoucher =>
         v.row < |s.receipts| && var r := s.receipts[v.row];
         v.date == r.date && v.entries[0] == MakeEntry(MoneyLedger(settings, r.cash), r.amount, true)
         && LedgerShares(v.entries[1..], r.lines, LedgerOf(cfg, s), false)
       case PaymentVoucher =>
         v.row < |s.refunds| && var f := s.refunds[v.row];
         var n := |v.entries| - 1;
         v.date == f.date && v.entries[n] == MakeEntry(MoneyLedger(settings, f.cash), f.amount, false)
         && LedgerShares(v.entries[..n], f.lines, LedgerOf(cfg, s), true)
  }

  method ExportReceipt(cfg: Config, s: State, settings: Settings, r: nat) returns (v: Voucher)
    requires r < |s.receipts| && ReceiptOk(s, s.receipts[r])
    ensures v.kind == ReceiptVoucher && v.row == r && Represents(cfg, s, settings, v)
  {
    var receipt := s.receipts[r];
    var items := LedgerItems(receipt.lines, LedgerOf(cfg, s));
    hide Before, LedgerSum, Lists, Uses, LineTotal, ItemTotal, EntryTotal, LedgerShares, Sorted;
    var entries := [MakeEntry(MoneyLedger(settings, receipt.cash), receipt.amount, true)] + EntriesOf(items, false);
    MoneyBalancesItems(MoneyLedger(settings, receipt.cash), receipt.amount, items);
    EntriesAreShares(items, receipt.lines, LedgerOf(cfg, s), false);
    assert entries[1..] == EntriesOf(items, false);
    v := Voucher(ReceiptVoucher, r, receipt.date, entries);
  }

  method ExportRefund(cfg: Config, s: State, settings: Settings, f: nat) returns (v: Voucher)
    requires f < |s.refunds| && RefundOk(s, s.refunds[f])
    ensures v.kind == PaymentVoucher && v.row == f && Represents(cfg, s, settings, v)
  {
    var back := s.refunds[f];
    var items := LedgerItems(back.lines, LedgerOf(cfg, s));
    hide Before, LedgerSum, Lists, Uses, LineTotal, ItemTotal, EntryTotal, LedgerShares, Sorted;
    var entries := EntriesOf(items, true) + [MakeEntry(MoneyLedger(settings, back.cash), back.amount, false)];
    MoneyBalancesItems(MoneyLedger(settings, back.cash), back.amount, items);
    EntriesAreShares(items, back.lines, LedgerOf(cfg, s), true);
    assert entries[..|entries| - 1] == EntriesOf(items, true);
    v := Voucher(PaymentVoucher, f, back.date, entries);
  }

  /**
   export_xml on any state the ledger can be in: one balanced voucher for each live receipt
   and each refund of the branch in the period, and none besides.
   */
  method Export(cfg: Config, s: State, settings: Settings, branch: nat, from: int, to: int) returns (vouchers: seq<Voucher>)
    requires Inv(s)
    ensures forall i :: 0 <= i < |vouchers| ==> Represents(cfg, s, settings, vouchers[i])
    ensures Covers(vouchers, ReceiptVoucher, |s.receipts|, (r: nat) =>
              r < |s.receipts| && s.receipts[r].branch == branch && from <= s.receipts[r].date <= to && !s.receipts[r].cancelled)
    ensures Covers(vouchers, PaymentVoucher, |s.refunds|, (f: nat) =>
              f < |s.refunds| && cfg.branchOf(s.refunds[f].student) == branch && from <= s.refunds[f].date <= to)
  {
    hide Represents, Covers;
    var receipts := (r: nat) =>
      r < |s.receipts| && s.receipts[r].branch == branch && from <= s.receipts[r].date <= to && !s.receipts[r].cancelled;
    var refunds := (f: nat) => f < |s.refunds| && cfg.branchOf(s.refunds[f].student) == branch && from <= s.refunds[f].date <= to;
    vouchers := [];
    NothingCovered(receipts, refunds);
    for r := 0 to |s.receipts|
      invariant forall i :: 0 <= i < |vouchers| ==> Represents(cfg, s, settings, vouchers[i])
      invariant Covers(vouchers, ReceiptVoucher, r, receipts) && Covers(vouchers, PaymentVoucher, 0, refunds)
    {
      if s.receipts[r].branch == branch && from <= s.receipts[r].date <= to && !s.receipts[r].cancelled {
        assert ReceiptOk(s, s.receipts[r]);
        var v := ExportReceipt(cfg, s, settings, r);
        CoversAfter(vouchers, v, ReceiptVoucher, r, receipts);
        CoversAfter(vouchers, v, PaymentVoucher, 0, refunds);
        vouchers := vouchers + [v];
      } else {
        CoversSkip(vouchers, ReceiptVoucher, r, receipts);
      }
    }
    for f := 0 to |s.refunds|
      invariant forall i :: 0 <= i < |vouchers| ==> Represents(cfg, s, settings, vouchers[i])
      invariant Covers(vouchers, ReceiptVoucher, |s.receipts|, receipts) && Covers(vouchers, PaymentVoucher, f, refunds)
    {
      if cfg.branchOf(s.refunds[f].student) == branch && from <= s.refunds[f].date <= to {
        assert RefundOk(s, s.refunds[f]);
        var v := ExportRefund(cfg, s, settings, f);
        CoversAfter(vouchers, v, ReceiptVoucher, |s.receipts|, receipts);
        CoversAfter(vouchers, v, PaymentVoucher, f, refunds);
        vouchers := vouchers + [v];
      } else {
        CoversSkip(vouchers, PaymentVoucher, f, refunds);
      }
    }
  }

  lemma NothingCovered(receipts: nat -> bool, refunds: nat -> bool)
    ensures Covers([], ReceiptVoucher, 0, receipts) && Covers([], PaymentVoucher, 0, refunds)
  {
  }

  lemma CoversSkip(vs: seq<Voucher>, kind: VoucherType, n: nat, chosen: nat -> bool)
    requires Covers(vs, kind, n, chosen) && !chosen(n)
    ensures Covers(vs, kind, n + 1, chosen)
  {
  }

  // ------------------------------------------------------------------ the entries of a voucher

  /** The lines on charges whose head has this ledger. */
  function OnLedger(cfg: Config, s: State, lines: seq<Line>, ledger: string): int
    requires forall i :: 0 <= i < |lines| ==> lines[i].charge < |s.charges|
  {
    Sum(seq(|lines|, i requires 0 <= i < |lines| =>
      if cfg.head(s.charges[lines[i].charge].head).ledger == ledger then lines[i].amount else 0))
  }

  lemma {:induction false} LedgerAddsUp(cfg: Config, s: State, lines: seq<Line>, ledger: string)
    requires forall i :: 0 <= i < |lines| ==> lines[i].charge < |s.charges|
    ensures LedgerSum(lines, LedgerOf(cfg, s), ledger) == OnLedger(cfg, s, lines, ledger)
  {
    var xs := seq(|lines|, i requires 0 <= i < |lines| =>
      if cfg.head(s.charges[lines[i].charge].head).ledger == ledger then lines[i].amount else 0);
    if lines != [] {
      var n := |lines| - 1;
      var front := lines[..n];
      LedgerAddsUp(cfg, s, front, ledger);
      assert xs[..n] == seq(|front|, i requires 0 <= i < |front| =>
        if cfg.head(s.charges[front[i].charge].head).ledger == ledger then front[i].amount else 0);
    }
  }

  /** Each ledger of the lines has one entry, for what the lines have on it, taken from it or given to it. */
  predicate EntriesFor(cfg: Config, s: State, lines: seq<Line>, es: seq<Entry>, debit: bool)
    requires forall i :: 0 <= i < |lines| ==> lines[i].charge < |s.charges|
  {
    (forall i :: 0 <= i < |es| ==>
       var worth := OnLedger(cfg, s, lines, es[i].ledger); es[i] == Entry(es[i].ledger, if debit then -worth else worth, debit))
    && forall k :: 0 <= k < |lines| ==> HasEntry(es, cfg.head(s.charges[lines[k].charge].head).ledger)
  }

  lemma SharesAreEntries(cfg: Config, s: State, lines: seq<Line>, es: seq<Entry>, debit: bool)
    requires (forall i :: 0 <= i < |lines| ==> lines[i].charge < |s.charges|) && LedgerShares(es, lines, LedgerOf(cfg, s), debit)
    ensures EntriesFor(cfg, s, lines, es, debit)
  {
    forall i | 0 <= i < |es| ensures LedgerSum(lines, LedgerOf(cfg, s), es[i].ledger) == OnLedger(cfg, s, lines, es[i].ledger) {
      LedgerAddsUp(cfg, s, lines, es[i].ledger);
    }
    hide LedgerSum, OnLedger, Before, HasEntry;
  }

  /** A receipt debits cash or bank by its amount and credits its charges' ledgers. */
  lemma ReceiptVoucherIs(cfg: Config, s: State, settings: Settings, v: Voucher)
    requires Inv(s) && v.kind == ReceiptVoucher && Represents(cfg, s, settings, v)
    ensures v.row < |s.receipts|
    ensures var r := s.receipts[v.row];
            (forall i :: 0 <= i < |r.lines| ==> r.lines[i].charge < |s.charges|) && v.date == r.date
            && v.entries[0] == Entry(if r.cash then settings.cashLedger else settings.bankLedger, -r.amount, true)
            && EntriesFor(cfg, s, r.lines, v.entries[1..], false)
  {
    var r := s.receipts[v.row];
    assert ReceiptOk(s, r);
    hide LedgerShares, EntriesFor, EntryTotal, Inv;
    SharesAreEntries(cfg, s, r.lines, v.entries[1..], false);
  }

  /** A refund debits its charges' ledgers and credits cash or bank by its amount. */
  lemma RefundVoucherIs(cfg: Config, s: State, settings: Settings, v: Voucher)
    requires Inv(s) && v.kind == PaymentVoucher && Represents(cfg, s, settings, v)
    ensures v.row < |s.refunds|
    ensures var f, n := s.refunds[v.row], |v.entries| - 1;
            (forall i :: 0 <= i < |f.lines| ==> f.lines[i].charge < |s.charges|) && n >= 0 && v.date == f.date
            && v.entries[n] == Entry(if f.cash then settings.cashLedger else settings.bankLedger, f.amount, false)
            && EntriesFor(cfg, s, f.lines, v.entries[..n], true)
  {
    var f, n := s.refunds[v.row], |v.entries| - 1;
    assert RefundOk(s, f);
    hide LedgerShares, EntriesFor, EntryTotal, Inv;
    SharesAreEntries(cfg, s, f.lines, v.entries[..n], true);
  }
}
