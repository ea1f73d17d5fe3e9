/** Refunds and cancelled receipts of one student at once (apps/fees/services.py). */
module ConcurrentRefunds {
  /*
   A refund locks the charges that are live when it starts, then reads what was paid on those that are
   live by then. Cancelling a receipt locks the receipt only. Payments add receipts at any time, which
   can only help, and name each charge once, as refunds do.
   */

  /** The money of a charge: its live receipt lines, and what was given back of it. */
  datatype Cash = Cash(received: int, refunded: int)

  datatype Txn =
    | Begun
    | Locking(locked: set<nat>)
    | Repaying(locked: set<nat>, lines: map<nat, int>)
    | Voiding(receipt: nat)

  /** `live` are the charges not cancelled, `receipts` the lines of the receipts not cancelled. */
  datatype Desk = Desk(charges: map<nat, Cash>, live: set<nat>, receipts: map<nat, map<nat, int>>, txns: map<nat, Txn>)

  datatype Event =
    | Post(charge: nat)
    | Withdraw(charge: nat)
    | Receive(receipt: nat, lines: map<nat, int>)
    | Begin(t: nat)
    | LockLive(t: nat)
    | Claim(t: nat, lines: map<nat, int>)
    | Repay(t: nat)
    | LockReceipt(t: nat, receipt: nat)
    | Void(t: nat)
    | Abort(t: nat)

  const EMPTY := Desk(map[], {}, map[], map[])

  function Paid(k: Cash): int {
    k.received - k.refunded
  }

  function HeldBy(x: Txn): set<nat> {
    match x
    case Locking(locked) => locked
    case Repaying(locked, _) => locked
    case _ => {}
  }

  predicate Unlocked(s: Desk, charges: set<nat>) {
    forall u :: u in s.txns ==> HeldBy(s.txns[u]) !! charges
  }

  predicate Free(s: Desk, receipt: nat) {
    forall u :: u in s.txns ==> s.txns[u] != Voiding(receipt)
  }

  /** Lines on distinct live charges, none above what was paid on it. */
  predicate Fits(s: Desk, lines: map<nat, int>) {
    forall c :: c in lines ==> c in s.live && c in s.charges && 0 < lines[c] <= Paid(s.charges[c])
  }

  function Add(charges: map<nat, Cash>, lines: map<nat, int>): map<nat, Cash> {
    map c | c in charges :: if c in lines then charges[c].(received := charges[c].received + lines[c]) else charges[c]
  }

  function TakeOff(charges: map<nat, Cash>, lines: map<nat, int>): map<nat, Cash> {
    map c | c in charges :: if c in lines then charges[c].(received := charges[c].received - lines[c]) else charges[c]
  }

  function GiveBack(charges: map<nat, Cash>, lines: map<nat, int>): map<nat, Cash> {
    map c | c in charges :: if c in lines then charges[c].(refunded := charges[c].refunded + lines[c]) else charges[c]
  }

  function With(s: Desk, t: nat, x: Txn): Desk {
    s.(txns := s.txns[t := x])
  }

  function Ended(s: Desk, t: nat): Desk {
    s.(txns := s.txns - {t})
  }

  predicate Refunding(s: Desk, t: nat) {
    t in s.txns && s.txns[t].Repaying?
  }

  predicate Cancelling(s: Desk, t: nat) {
    t in s.txns && s.txns[t].Voiding? && s.txns[t].receipt in s.receipts
  }

  predicate Positive(lines: map<nat, int>) {
    forall c :: c in lines ==> lines[c] > 0
  }

  function Repaid(s: Desk, t: nat): Desk {
    if Refunding(s, t) then Ended(s.(charges := GiveBack(s.charges, s.txns[t].lines)), t) else s
  }

  function Voided(s: Desk, t: nat): Desk {
    if !Cancelling(s, t) then s
    else
      var r := s.txns[t].receipt;
      Ended(s.(charges := TakeOff(s.charges, s.receipts[r]), receipts := s.receipts - {r}), t)
  }

  /** A step that is refused, or would wait, changes nothing. */
  function Next(s: Desk, ev: Event): Desk {
    match ev
    case Post(c) => if c in s.charges then s else s.(charges := s.charges[c := Cash(0, 0)], live := s.live + {c})
    case Withdraw(c) =>
      if c in s.charges && s.charges[c].received <= 0 && Unlocked(s, {c}) then s.(live := s.live - {c}) else s
    case Receive(r, lines) =>
      if r in s.receipts || !Positive(lines) then s
      else s.(charges := Add(s.charges, lines), receipts := s.receipts[r := lines])
    case Begin(t) => if t in s.txns then s else With(s, t, Begun)
    case LockLive(t) =>
      if t !in s.txns || !s.txns[t].Begun? || !Unlocked(s, s.live) then s else With(s, t, Locking(s.live))
    case Claim(t, lines) =>
      if t !in s.txns || !s.txns[t].Locking? then s
      else if lines == map[] || !Fits(s, lines) then Ended(s, t)
      else With(s, t, Repaying(s.txns[t].locked, lines))
    case Repay(t) => Repaid(s, t)
    case LockReceipt(t, r) =>
      if t !in s.txns || !s.txns[t].Begun? || !Free(s, r) then s
      else if r !in s.receipts then Ended(s, t)
      else With(s, t, Voiding(r))
    case Void(t) => Voided(s, t)
    case Abort(t) => Ended(s, t)
  }

  function Run(s: Desk, events: seq<Event>): Desk {
    if events == [] then s else Next(Run(s, events[..|events| - 1]), events[|events| - 1])
  }

  // ------------------------------------------------------------------ exactly when no more is given back than was paid

  predicate NonNegative(charges: map<nat, Cash>) {
    forall c :: c in charges ==> Paid(charges[c]) >= 0
  }

  predicate Covered(charges: map<nat, Cash>, lines: map<nat, int>) {
    forall c :: c in lines && c in charges ==> lines[c] <= Paid(charges[c])
  }

  /** What a refund gives back, and what a cancelled receipt takes off, is still paid at the commit. */
  predicate Fitting(s: Desk, ev: Event) {
    (ev.Repay? && Refunding(s, ev.t) ==> Covered(s.charges, s.txns[ev.t].lines))
    && (ev.Void? && Cancelling(s, ev.t) ==> Covered(s.charges, s.receipts[s.txns[ev.t].receipt]))
  }

  lemma LessPaid(charges: map<nat, Cash>, after: map<nat, Cash>, lines: map<nat, int>)
    requires NonNegative(charges) && after.Keys == charges.Keys
    requires forall c :: c in charges ==> Paid(after[c]) == Paid(charges[c]) - (if c in lines then lines[c] else 0)
    ensures NonNegative(after) <==> Covered(charges, lines)
  {
    if NonNegative(after) {
      forall c | c in lines && c in charges ensures lines[c] <= Paid(charges[c]) {
        assert c in after;
      }
    }
  }

  /** One step leaves money paid at zero or more if and only if it fits. */
  lemma StepNonNegativeIff(s: Desk, ev: Event)
    requires NonNegative(s.charges)
    ensures NonNegative(Next(s, ev).charges) <==> Fitting(s, ev)
  {
    if ev.Repay? && Refunding(s, ev.t) {
      LessPaid(s.charges, GiveBack(s.charges, s.txns[ev.t].lines), s.txns[ev.t].lines);
    } else if ev.Void? && Cancelling(s, ev.t) {
      var lines := s.receipts[s.txns[ev.t].receipt];
      LessPaid(s.charges, TakeOff(s.charges, lines), lines);
    }
  }

  predicate AlwaysNonNegative(s: Desk, events: seq<Event>) {
    NonNegative(Run(s, events).charges) && (events != [] ==> AlwaysNonNegative(s, events[..|events| - 1]))
  }

  predicate AlwaysFitting(s: Desk, events: seq<Event>) {
    events != [] ==> AlwaysFitting(s, events[..|events| - 1]) && Fitting(Run(s, events[..|events| - 1]), events[|events| - 1])
  }

  /** In any interleaving, money paid never falls below zero if and only if every refund and cancelled receipt fits at its commit. */
  lemma {:induction false} RunNonNegativeIff(s: Desk, events: seq<Event>)
    requires NonNegative(s.charges)
    ensures AlwaysNonNegative(s, events) <==> AlwaysFitting(s, events)
  {
    if events != [] {
      hide NonNegative, Fitting, Next;
      var front, ev := events[..|events| - 1], events[|events| - 1];
      RunNonNegativeIff(s, front);
      if AlwaysNonNegative(s, front) {
        assert NonNegative(Run(s, front).charges);
        StepNonNegativeIff(Run(s, front), ev);
      }
    }
  }

  // ------------------------------------------------------------------ conditions to check beforehand

  /**
   A refund finds some live charge to lock, and a receipt is cancelled only when what was paid covers
   its lines and the refunds under way.
   */
  predicate Guarded(s: Desk, ev: Event) {
    (ev.LockLive? ==> s.live != {})
    && (ev.Void? && Cancelling(s, ev.t) ==>
          Covered(s.charges, s.receipts[s.txns[ev.t].receipt])
          && forall u :: u in s.txns && Refunding(s, u) ==> BothCovered(s.charges, s.receipts[s.txns[ev.t].receipt], s.txns[u].lines))
  }

  predicate BothCovered(charges: map<nat, Cash>, a: map<nat, int>, b: map<nat, int>) {
    forall c :: c in a && c in b && c in charges ==> a[c] + b[c] <= Paid(charges[c])
  }

  predicate AllGuarded(s: Desk, events: seq<Event>) {
    events == [] || (AllGuarded(s, events[..|events| - 1]) && Guarded(Run(s, events[..|events| - 1]), events[|events| - 1]))
  }

  predicate IsRefund(x: Txn) {
    x.Locking? || x.Repaying?
  }

  /** A refund holds some live charge, and what it gives back is still paid. */
  predicate StillTrue(s: Desk, x: Txn) {
    (IsRefund(x) ==> HeldBy(x) != {} && HeldBy(x) <= s.live)
    && (x.Repaying? ==> x.lines.Keys <= s.charges.Keys && Covered(s.charges, x.lines))
  }

  predicate OneRefund(s: Desk) {
    forall t, u :: t in s.txns && u in s.txns && t != u ==> !IsRefund(s.txns[t]) || !IsRefund(s.txns[u])
  }

  predicate Safe(s: Desk) {
    NonNegative(s.charges) && OneRefund(s) && forall t :: t in s.txns ==> StillTrue(s, s.txns[t])
  }

  /** While a refund holds its charges, no other can lock all that are live. */
  lemma HolderBlocks(s: Desk, u: nat)
    requires Safe(s) && u in s.txns
    ensures IsRefund(s.txns[u]) ==> !Unlocked(s, s.live)
  {
    if IsRefund(s.txns[u]) {
      assert StillTrue(s, s.txns[u]);
      var c :| c in HeldBy(s.txns[u]);
      assert c in s.live;
    }
  }

  lemma StayTrue(s: Desk, ev: Event, x: Txn)
    requires StillTrue(s, x) && (ev.Post? || ev.Receive?)
    ensures StillTrue(Next(s, ev), x)
  {
  }

  lemma WithdrawnElsewhere(s: Desk, c: nat, x: Txn)
    requires StillTrue(s, x) && c !in HeldBy(x)
    ensures StillTrue(s.(live := s.live - {c}), x)
  {
  }

  lemma VoidedBeside(s: Desk, t: nat, x: Txn)
    requires Cancelling(s, t) && Guarded(s, Void(t)) && StillTrue(s, x)
    requires x.Repaying? ==> BothCovered(s.charges, s.receipts[s.txns[t].receipt], x.lines)
    ensures StillTrue(Voided(s, t), x)
  {
    assert Voided(s, t).charges.Keys == s.charges.Keys;
  }

  lemma SameMoney(s: Desk, after: Desk, x: Txn)
    requires StillTrue(s, x) && after.charges == s.charges && after.live == s.live
    ensures StillTrue(after, x)
  {
  }

  lemma WithKeeps(s: Desk, t: nat, x: Txn)
    requires Safe(s) && StillTrue(s, x)
    requires IsRefund(x) ==> forall u :: u in s.txns && u != t ==> !IsRefund(s.txns[u])
    ensures Safe(With(s, t, x))
  {
    hide NonNegative, StillTrue, IsRefund;
    forall u | u in With(s, t, x).txns ensures StillTrue(With(s, t, x), With(s, t, x).txns[u]) {
      SameMoney(s, With(s, t, x), With(s, t, x).txns[u]);
    }
  }

  lemma EndedKeeps(s: Desk, t: nat)
    requires Safe(s)
    ensures Safe(Ended(s, t))
  {
    hide NonNegative, StillTrue, IsRefund;
    forall u | u in Ended(s, t).txns ensures StillTrue(Ended(s, t), s.txns[u]) {
      SameMoney(s, Ended(s, t), s.txns[u]);
    }
  }

  /** The steps that touch charges or receipts outside a transaction. */
  lemma DeskKeeps(s: Desk, ev: Event)
    requires Safe(s) && (ev.Post? || ev.Withdraw? || ev.Receive?)
    ensures Safe(Next(s, ev))
  {
    StepNonNegativeIff(s, ev);
    hide NonNegative, StillTrue, IsRefund;
    forall u | u in s.txns ensures StillTrue(Next(s, ev), s.txns[u]) {
      assert StillTrue(s, s.txns[u]);
      if ev.Withdraw? {
        if Unlocked(s, {ev.charge}) {
          assert HeldBy(s.txns[u]) !! {ev.charge};
          assert ev.charge in {ev.charge};
          WithdrawnElsewhere(s, ev.charge, s.txns[u]);
        }
      } else {
        StayTrue(s, ev, s.txns[u]);
      }
    }
  }

  /** The one refund under way commits. */
  lemma RepayKeeps(s: Desk, t: nat)
    requires Safe(s)
    ensures Safe(Repaid(s, t))
  {
    if Refunding(s, t) {
      assert StillTrue(s, s.txns[t]);
      StepNonNegativeIff(s, Repay(t));
      forall u | u in s.txns && u != t ensures StillTrue(Repaid(s, t), s.txns[u]) {
        assert !IsRefund(s.txns[u]);
      }
    }
  }

  lemma VoidKeeps(s: Desk, t: nat)
    requires Safe(s) && Guarded(s, Void(t))
    ensures Safe(Voided(s, t))
  {
    if Cancelling(s, t) {
      StepNonNegativeIff(s, Void(t));
      forall u | u in s.txns && u != t ensures StillTrue(Voided(s, t), s.txns[u]) {
        assert StillTrue(s, s.txns[u]);
        VoidedBeside(s, t, s.txns[u]);
      }
      hide NonNegative, StillTrue, Covered;
    }
  }

  lemma ClaimKeeps(s: Desk, t: nat, lines: map<nat, int>)
    requires Safe(s)
    ensures Safe(Next(s, Claim(t, lines)))
  {
    if t in s.txns && s.txns[t].Locking? {
      assert StillTrue(s, s.txns[t]);
      EndedKeeps(s, t);
      if Fits(s, lines) {
        WithKeeps(s, t, Repaying(s.txns[t].locked, lines));
      }
    }
  }

  lemma NextKeeps(s: Desk, ev: Event)
    requires Safe(s) && Guarded(s, ev)
    ensures Safe(Next(s, ev))
  {
    hide NonNegative, Repaid, Voided, Covered;
    match ev
    case Post(_) => DeskKeeps(s, ev);
    case Withdraw(_) => DeskKeeps(s, ev);
    case Receive(_, _) => DeskKeeps(s, ev);
    case Begin(t) => WithKeeps(s, t, Begun);
    case LockLive(t) =>
      if Unlocked(s, s.live) {
        forall u | u in s.txns ensures !IsRefund(s.txns[u]) {
          HolderBlocks(s, u);
        }
        WithKeeps(s, t, Locking(s.live));
      }
    case Claim(t, lines) => ClaimKeeps(s, t, lines);
    case Repay(t) => RepayKeeps(s, t);
    case LockReceipt(t, r) =>
      WithKeeps(s, t, Voiding(r));
      EndedKeeps(s, t);
    case Void(t) => VoidKeeps(s, t);
    case Abort(t) => EndedKeeps(s, t);
  }

  /** A guarded interleaving gives back no more than was paid, and has at most one refund under way. */
  lemma {:induction false} RefundsNeverOverpay(s: Desk, events: seq<Event>)
    requires s.txns == map[] && NonNegative(s.charges) && AllGuarded(s, events)
    ensures Safe(Run(s, events))
  {
    if events != [] {
      RefundsNeverOverpay(s, events[..|events| - 1]);
      NextKeeps(Run(s, events[..|events| - 1]), events[|events| - 1]);
    }
  }

  // ------------------------------------------------------------------ the interleavings that fail

  /** A charge with a receipt on it. */
  function OneReceipt(k: Cash, line: int): Desk {
    Desk(map[0 := k], {0}, map[0 := map[0 := line]], map[])
  }

  /** A refund has read what was paid when the receipt is cancelled, and commits afterwards. */
  function VoidedBetween(k: Cash, line: int, amount: int): Desk {
    var claimed := Next(Next(Next(OneReceipt(k, line), Begin(1)), LockLive(1)), Claim(1, map[0 := amount]));
    var voided := Next(Next(Next(claimed, Begin(2)), LockReceipt(2, 0)), Void(2));
    Next(voided, Repay(1))
  }

  lemma Claims(k: Cash, line: int, amount: int)
    requires 0 < amount <= Paid(k)
    ensures Next(Next(Next(OneReceipt(k, line), Begin(1)), LockLive(1)), Claim(1, map[0 := amount]))
            == OneReceipt(k, line).(txns := map[1 := Repaying({0}, map[0 := amount])])
  {
    var lines: map<nat, int> := map[0 := amount];
    var s := OneReceipt(k, line);
    var locked := Next(Next(s, Begin(1)), LockLive(1));
    assert locked == s.(txns := map[1 := Locking({0})]);
    assert 0 in lines && Fits(locked, lines);
  }

  lemma Voids(k: Cash, line: int, x: Txn)
    requires x.Repaying?
    ensures var s := OneReceipt(k, line).(txns := map[1 := x]);
            Next(Next(Next(s, Begin(2)), LockReceipt(2, 0)), Void(2))
            == Desk(map[0 := k.(received := k.received - line)], {0}, map[], map[1 := x])
  {
    var s := OneReceipt(k, line).(txns := map[1 := x]);
    var held := Next(Next(s, Begin(2)), LockReceipt(2, 0));
    assert held == s.(txns := map[1 := x, 2 := Voiding(0)]);
    VoidsHeld(k, line, x, held);
    hide Next;
  }

  lemma VoidsHeld(k: Cash, line: int, x: Txn, held: Desk)
    requires held == OneReceipt(k, line).(txns := map[1 := x, 2 := Voiding(0)])
    ensures Next(held, Void(2)) == Desk(map[0 := k.(received := k.received - line)], {0}, map[], map[1 := x])
  {
    var lines: map<nat, int> := map[0 := line];
    assert held.receipts[0] == lines && 0 in lines;
    assert TakeOff(held.charges, lines) == map[0 := k.(received := k.received - line)];
    assert held.receipts - {0} == map[] && held.txns - {2} == map[1 := x];
  }

  lemma RepaysOne(k: Cash, amount: int)
    ensures var lines: map<nat, int> := map[0 := amount];
            Next(Desk(map[0 := k], {0}, map[], map[1 := Repaying({0}, lines)]), Repay(1)).charges
            == map[0 := k.(refunded := k.refunded + amount)]
  {
    var lines: map<nat, int> := map[0 := amount];
    assert 0 in lines;
  }

  /** The two together then leave too little exactly when the charge cannot bear both. */
  lemma VoidRacesRefund(k: Cash, line: int, amount: int)
    requires 0 < amount <= Paid(k)
    ensures NonNegative(VoidedBetween(k, line, amount).charges) <==> line + amount <= Paid(k)
  {
    hide Next;
    var lines: map<nat, int> := map[0 := amount];
    Claims(k, line, amount);
    Voids(k, line, Repaying({0}, lines));
    RepaysOne(k.(received := k.received - line), amount);
    assert VoidedBetween(k, line, amount).charges == map[0 := Cash(k.received - line, k.refunded + amount)];
    assert 0 in VoidedBetween(k, line, amount).charges;
  }

  lemma BothLockNothing()
    ensures Next(Next(Next(Next(EMPTY, Begin(1)), LockLive(1)), Begin(2)), LockLive(2))
            == EMPTY.(txns := map[1 := Locking({}), 2 := Locking({})])
  {
    var one := Next(Next(EMPTY, Begin(1)), LockLive(1));
    assert one == EMPTY.(txns := map[1 := Locking({})]);
    assert Next(one, Begin(2)) == EMPTY.(txns := map[1 := Locking({}), 2 := Begun]);
  }

  /** With nothing to lock, two refunds both give back what was paid after they started. */
  lemma TwoFirstRefundsOverpay(amount: int)
    requires amount > 0
    ensures var lines: map<nat, int> := map[0 := amount];
            var locked := Next(Next(Next(Next(EMPTY, Begin(1)), LockLive(1)), Begin(2)), LockLive(2));
            var paid := Next(Next(locked, Post(0)), Receive(0, lines));
            var claimed := Next(Next(paid, Claim(1, lines)), Claim(2, lines));
            Next(Next(claimed, Repay(1)), Repay(2)).charges == map[0 := Cash(amount, 2 * amount)]
  {
    hide Next;
    var lines: map<nat, int> := map[0 := amount];
    BothLockNothing();
    var locked := EMPTY.(txns := map[1 := Locking({}), 2 := Locking({})]);
    PaidFirst(locked, amount, lines);
    var paid := Desk(map[0 := Cash(amount, 0)], {0}, map[0 := lines], locked.txns);
    assert 0 in lines && Fits(paid, lines);
    BothClaim(paid, lines);
    BothRepay(paid.(txns := map[1 := Repaying({}, lines), 2 := Repaying({}, lines)]), lines);
    assert GiveBack(GiveBack(paid.charges, lines), lines) == map[0 := Cash(amount, 2 * amount)];
  }

  lemma PaidFirst(s: Desk, amount: int, lines: map<nat, int>)
    requires amount > 0 && s == EMPTY.(txns := s.txns) && lines == map[0 := amount]
    ensures Next(Next(s, Post(0)), Receive(0, lines)) == Desk(map[0 := Cash(amount, 0)], {0}, map[0 := lines], s.txns)
  {
    var posted := Next(s, Post(0));
    assert posted == Desk(map[0 := Cash(0, 0)], {0}, map[], s.txns);
    assert 0 in lines && Add(posted.charges, lines) == map[0 := Cash(amount, 0)];
  }

  lemma BothClaim(s: Desk, lines: map<nat, int>)
    requires s.txns == map[1 := Locking({}), 2 := Locking({})] && lines != map[] && Fits(s, lines)
    ensures Next(Next(s, Claim(1, lines)), Claim(2, lines))
            == s.(txns := map[1 := Repaying({}, lines), 2 := Repaying({}, lines)])
  {
    var one := Next(s, Claim(1, lines));
    assert one == s.(txns := map[1 := Repaying({}, lines), 2 := Locking({})]);
    SameFits(s, one, lines);
    hide Fits;
  }

  lemma BothRepay(s: Desk, lines: map<nat, int>)
    requires s.txns == map[1 := Repaying({}, lines), 2 := Repaying({}, lines)]
    ensures Next(Next(s, Repay(1)), Repay(2)).charges == GiveBack(GiveBack(s.charges, lines), lines)
  {
    hide GiveBack;
    assert Next(s, Repay(1)).txns == map[2 := Repaying({}, lines)];
  }

  lemma SameFits(s: Desk, after: Desk, lines: map<nat, int>)
    requires Fits(s, lines) && after.charges == s.charges && after.live == s.live
    ensures Fits(after, lines)
  {
  }

  // ------------------------------------------------------------------ transactions alone

  /** A refund that meets no other transaction is taken exactly if each line is at most what is paid on its live charge. */
  lemma AloneItRefunds(s: Desk, t: nat, lines: map<nat, int>)
    requires s.txns == map[] && lines != map[]
    ensures var done := Next(Next(Next(Next(s, Begin(t)), LockLive(t)), Claim(t, lines)), Repay(t));
            done == if forall c :: c in lines ==>
                         c in s.live && c in s.charges && 0 < lines[c] <= s.charges[c].received - s.charges[c].refunded
                    then s.(charges := map c | c in s.charges ::
                              if c in lines then s.charges[c].(refunded := s.charges[c].refunded + lines[c]) else s.charges[c])
                    else s
  {
    var locked := Next(Next(s, Begin(t)), LockLive(t));
    assert locked == s.(txns := map[t := Locking(s.live)]);
    AloneClaims(s, t, lines);
  }

  lemma AloneClaims(s: Desk, t: nat, lines: map<nat, int>)
    requires s.txns == map[] && lines != map[]
    ensures var done := Next(Next(s.(txns := map[t := Locking(s.live)]), Claim(t, lines)), Repay(t));
            done == if Fits(s, lines) then s.(charges := GiveBack(s.charges, lines)) else s
  {
    hide GiveBack;
    var locked := s.(txns := map[t := Locking(s.live)]);
    assert locked.txns - {t} == map[];
    assert Fits(locked, lines) <==> Fits(s, lines);
    if Fits(s, lines) {
      var claimed := Next(locked, Claim(t, lines));
      assert claimed == s.(txns := map[t := Repaying(s.live, lines)]);
      assert claimed.txns - {t} == map[];
    } else {
      assert Next(locked, Claim(t, lines)) == s;
    }
  }
}
