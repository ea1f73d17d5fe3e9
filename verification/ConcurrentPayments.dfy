/** One student's dues collected at two counters at once (apps/fees/services.py). */
module ConcurrentPayments {
  /*
   A payment locks the charges that are live when it starts, then reads the balances of all that are
   live by then. A writing transaction posts charges, cancels charges and raises fines, as many as it
   likes, and commits once: a posting, a plan run, a billing, a cancellation, a decision, a fine run.
   Each posting, cancellation and decision recomputes discounts: what is received is read without a
   lock, and the discounts that change are saved afterwards, charge by charge. An update waits for the
   row's lock and holds it to the commit.

   A receipt is cancelled line by line. A fine run has read the fine it raises before it writes, so any
   amount is possible.
   */

  /** A live charge: its amount, its discount, and the money of its live receipt lines. */
  datatype Due = Due(amount: int, discount: int, received: int)

  /**
   Of a writing transaction, `own` are the charges it has posted and `gone` those it has cancelled,
   `fines` the amounts it has set, `plan` the discounts it has worked out and `pending` those of them
   it has still to save; `held` are the rows it has updated.
   */
  datatype Txn =
    | Begun
    | Locking(locked: set<nat>)
    | Allocated(locked: set<nat>, lines: map<nat, int>)
    | Writing(own: seq<Due>, gone: set<nat>, fines: map<nat, int>, plan: map<nat, int>, pending: set<nat>, held: set<nat>)

  const BLANK := Writing([], {}, map[], map[], {}, {})

  /** `stray` holds the charges that got a receipt line after they were cancelled. */
  datatype Account = Account(dues: map<nat, Due>, nextCharge: nat, stray: set<nat>, txns: map<nat, Txn>)

  /** The steps of a writing transaction; Read and the Saves that follow are a recompute. */
  datatype Update =
    | Post(amount: int)
    | Withdraw(charge: nat)
    | Raise(charge: nat, amount: int)
    | Read(wanted: map<nat, nat>, wantedOwn: map<nat, nat>)
    | Save(charge: nat)

  datatype Event =
    | CancelLine(charge: nat, amount: int)
    | Begin(t: nat)
    | LockLive(t: nat)
    | Allocate(t: nat, lines: map<nat, int>)
    | Commit(t: nat)
    | BeginWrite(t: nat)
    | Write(t: nat, write: Update)
    | Finish(t: nat)
    | Abort(t: nat)

  const EMPTY := Account(map[], 0, {}, map[])

  function Outstanding(d: Due): int {
    d.amount - d.discount - d.received
  }

  function HeldBy(x: Txn): set<nat> {
    match x
    case Begun => {}
    case Locking(locked) => locked
    case Allocated(locked, _) => locked
    case Writing(_, gone, _, _, _, held) => gone + held
  }

  /** No transaction but t holds any of the charges. */
  predicate Unlocked(s: Account, t: nat, charges: set<nat>) {
    forall u :: u in s.txns && u != t ==> HeldBy(s.txns[u]) !! charges
  }

  /** Lines on distinct live charges, none taken beyond what is outstanding. */
  predicate Fits(dues: map<nat, Due>, lines: map<nat, int>) {
    forall c :: c in lines ==> c in dues && 0 < lines[c] <= Outstanding(dues[c])
  }

  function Receive(dues: map<nat, Due>, lines: map<nat, int>): map<nat, Due> {
    map c | c in dues :: if c in lines then dues[c].(received := dues[c].received + lines[c]) else dues[c]
  }

  /** max(0, amount - received): a concession never goes below what is already received. */
  function Ceiling(d: Due): int {
    if d.amount - d.received > 0 then d.amount - d.received else 0
  }

  /** The discount that approved concessions of `wanted` come to. */
  function Capped(d: Due, wanted: nat): int {
    if wanted < Ceiling(d) then wanted else Ceiling(d)
  }

  /** A charge as a transaction will leave it, with the discounts among `saved`. */
  function Rewritten(d: Due, x: Txn, c: nat, saved: set<nat>): Due
    requires x.Writing?
  {
    d.(amount := if c in x.fines then x.fines[c] else d.amount,
       discount := if c in x.plan && c in saved then x.plan[c] else d.discount)
  }

  /** The charges as a writing transaction sees them: what is committed and what it wrote itself. */
  function Seen(dues: map<nat, Due>, x: Txn): map<nat, Due>
    requires x.Writing?
  {
    map c | c in dues && c !in x.gone :: Rewritten(dues[c], x, c, x.plan.Keys - x.pending)
  }

  /** The discounts that differ, of the charges in the head and year that `wanted` covers. */
  function PlanOf(seen: map<nat, Due>, wanted: map<nat, nat>): map<nat, int> {
    map c | c in wanted && c in seen && seen[c].amount > 0 && Capped(seen[c], wanted[c]) != seen[c].discount
      :: Capped(seen[c], wanted[c])
  }

  function OwnOf(own: seq<Due>, wanted: map<nat, nat>): seq<Due> {
    seq(|own|, i requires 0 <= i < |own| =>
      if i in wanted && own[i].amount > 0 then own[i].(discount := Capped(own[i], wanted[i])) else own[i])
  }

  /** A recompute: what differs is to be saved, the transaction's own new charges at once. */
  function Recomputed(dues: map<nat, Due>, x: Txn, wanted: map<nat, nat>, wantedOwn: map<nat, nat>): Txn
    requires x.Writing?
  {
    var plan := PlanOf(Seen(dues, x), wanted);
    x.(own := OwnOf(x.own, wantedOwn), plan := x.plan + plan, pending := plan.Keys)
  }

  /** The charges once a writing transaction has committed. */
  function Settle(s: Account, x: Txn): map<nat, Due>
    requires x.Writing?
  {
    Seen(s.dues, x) + map c | c in NewIds(s.nextCharge, |x.own|) :: x.own[c - s.nextCharge]
  }

  function NewIds(from: nat, n: nat): (ids: set<nat>)
    ensures forall c: nat :: c in ids <==> from <= c < from + n
  {
    if n == 0 then {} else NewIds(from, n - 1) + {from + n - 1}
  }

  function With(s: Account, t: nat, x: Txn): Account {
    s.(txns := s.txns[t := x])
  }

  function Ended(s: Account, t: nat): Account {
    s.(txns := s.txns - {t})
  }

  predicate Paying(s: Account, t: nat) {
    t in s.txns && s.txns[t].Allocated?
  }

  predicate InWriting(s: Account, t: nat) {
    t in s.txns && s.txns[t].Writing?
  }

  predicate Settling(s: Account, t: nat) {
    InWriting(s, t) && s.txns[t].pending == {}
  }

  function Committed(s: Account, t: nat): Account {
    if !Paying(s, t) then s
    else
      var lines := s.txns[t].lines;
      Ended(s.(dues := Receive(s.dues, lines), stray := s.stray + (lines.Keys - s.dues.Keys)), t)
  }

  function Finished(s: Account, t: nat): Account {
    if !Settling(s, t) then s
    else Ended(s.(dues := Settle(s, s.txns[t]), nextCharge := s.nextCharge + |s.txns[t].own|), t)
  }

  /** A charge this transaction may update: live and free. */
  predicate MayUpdate(s: Account, t: nat, c: nat) {
    InWriting(s, t) && c in s.dues && c !in s.txns[t].gone && Unlocked(s, t, {c})
  }

  /** A writing transaction after one of its steps; a charge is cancelled only if it has received nothing, and a fine is not negative. */
  function Written(s: Account, t: nat, w: Update): (y: Txn)
    requires InWriting(s, t)
    ensures y.Writing?
  {
    var x := s.txns[t];
    match w
    case Post(amount) => x.(own := x.own + [Due(amount, 0, 0)])
    case Withdraw(c) => if MayUpdate(s, t, c) && s.dues[c].received <= 0 then x.(gone := x.gone + {c}) else x
    case Raise(c, amount) => if MayUpdate(s, t, c) && s.dues[c].amount >= 0 then x.(fines := x.fines[c := amount], held := x.held + {c}) else x
    case Read(wanted, wantedOwn) => if x.pending == {} then Recomputed(s.dues, x, wanted, wantedOwn) else x
    case Save(c) => if c in x.pending && Unlocked(s, t, {c}) then x.(pending := x.pending - {c}, held := x.held + {c}) else x
  }

  /** A step that is refused, or would wait, changes nothing. */
  function Next(s: Account, ev: Event): Account {
    match ev
    case CancelLine(c, amount) =>
      if c !in s.dues || !(0 < amount <= s.dues[c].received) then s
      else s.(dues := s.dues[c := s.dues[c].(received := s.dues[c].received - amount)])
    case Begin(t) => if t in s.txns then s else With(s, t, Begun)
    case LockLive(t) =>
      if t !in s.txns || !s.txns[t].Begun? || !Unlocked(s, t, s.dues.Keys) then s else With(s, t, Locking(s.dues.Keys))
    case Allocate(t, lines) =>
      if t !in s.txns || !s.txns[t].Locking? then s
      else if lines == map[] || !Fits(s.dues, lines) then Ended(s, t)
      else With(s, t, Allocated(s.txns[t].locked, lines))
    case Commit(t) => Committed(s, t)
    case BeginWrite(t) => if t in s.txns then s else With(s, t, BLANK)
    case Finish(t) => Finished(s, t)
    case Abort(t) => Ended(s, t)
    case Write(t, w) => if InWriting(s, t) then With(s, t, Written(s, t, w)) else s
  }

  function Run(s: Account, events: seq<Event>): Account {
    if events == [] then s else Next(Run(s, events[..|events| - 1]), events[|events| - 1])
  }

  // ------------------------------------------------------------------ exactly when nothing is over-collected

  predicate Covers(d: Due) {
    d.amount >= 0 ==> d.received + d.discount <= d.amount
  }

  predicate NeverOver(dues: map<nat, Due>) {
    forall c :: c in dues ==> Covers(dues[c])
  }

  predicate Sound(d: Due) {
    0 <= d.discount && 0 <= d.received
  }

  /** Lines are positive and discounts are not negative, from the checks that let them in. */
  predicate WellFormed(x: Txn) {
    (x.Allocated? ==> forall c :: c in x.lines ==> x.lines[c] > 0)
    && (x.Writing? ==>
          (forall c :: c in x.plan ==> x.plan[c] >= 0) && x.pending <= x.plan.Keys
          && forall i :: 0 <= i < |x.own| ==> Sound(x.own[i]) && x.own[i].received == 0 && Covers(x.own[i]))
  }

  predicate AllWellFormed(s: Account) {
    (forall t :: t in s.txns ==> WellFormed(s.txns[t])) && forall c :: c in s.dues ==> c < s.nextCharge && Sound(s.dues[c])
  }

  lemma RecomputedWellFormed(dues: map<nat, Due>, x: Txn, wanted: map<nat, nat>, wantedOwn: map<nat, nat>)
    requires x.Writing? && WellFormed(x)
    ensures WellFormed(Recomputed(dues, x, wanted, wantedOwn))
  {
    hide Seen;
  }

  lemma WrittenWellFormed(s: Account, t: nat, w: Update)
    requires InWriting(s, t) && WellFormed(s.txns[t])
    ensures WellFormed(Written(s, t, w))
  {
    hide Recomputed, Unlocked;
    if w.Read? {
      RecomputedWellFormed(s.dues, s.txns[t], w.wanted, w.wantedOwn);
    }
  }

  lemma DuesWellFormed(s: Account, ev: Event)
    requires AllWellFormed(s) && (ev.CancelLine? || ev.Commit? || ev.Finish?)
    ensures AllWellFormed(Next(s, ev))
  {
    if ev.Finish? && Settling(s, ev.t) {
      assert WellFormed(s.txns[ev.t]);
    }
    if ev.Commit? && Paying(s, ev.t) {
      assert WellFormed(s.txns[ev.t]);
    }
  }

  lemma NextWellFormed(s: Account, ev: Event)
    requires AllWellFormed(s)
    ensures AllWellFormed(Next(s, ev))
  {
    hide Committed, Finished, Written, WellFormed, Fits, Unlocked;
    if ev.CancelLine? || ev.Commit? || ev.Finish? {
      DuesWellFormed(s, ev);
    } else {
      if ev.Write? && InWriting(s, ev.t) {
        WrittenWellFormed(s, ev.t, ev.write);
      }
      BlankWellFormed();
      if ev.Allocate? {
        AllocatedWellFormed(s, ev.t, ev.lines);
      }
    }
  }

  lemma BlankWellFormed()
    ensures WellFormed(BLANK) && WellFormed(Begun) && forall locked :: WellFormed(Locking(locked))
  {
  }

  lemma AllocatedWellFormed(s: Account, t: nat, lines: map<nat, int>)
    requires AllWellFormed(s)
    ensures Fits(s.dues, lines) ==> forall locked :: WellFormed(Allocated(locked, lines))
  {
  }

  /** The charges a writing transaction has written something to. */
  function Touched(x: Txn): set<nat>
    requires x.Writing?
  {
    x.plan.Keys + x.fines.Keys
  }

  /**
   What a committing payment takes is still outstanding; on every charge a writing transaction has
   written, the discount it saved and the amount it set leave room for what is received by now.
   */
  predicate Fitting(s: Account, ev: Event) {
    (ev.Commit? && Paying(s, ev.t) ==>
       forall c :: c in s.txns[ev.t].lines && c in s.dues && s.dues[c].amount >= 0
         ==> s.txns[ev.t].lines[c] <= Outstanding(s.dues[c]))
    && (ev.Finish? && Settling(s, ev.t) ==>
          forall c :: c in Touched(s.txns[ev.t]) && c in s.dues && c !in s.txns[ev.t].gone
            ==> Covers(Rewritten(s.dues[c], s.txns[ev.t], c, s.txns[ev.t].plan.Keys)))
  }

  lemma CommitIff(s: Account, t: nat)
    requires AllWellFormed(s) && NeverOver(s.dues)
    ensures NeverOver(Committed(s, t).dues) <==> Fitting(s, Commit(t))
  {
    if Paying(s, t) {
      var lines, after := s.txns[t].lines, Receive(s.dues, s.txns[t].lines);
      assert WellFormed(s.txns[t]);
      if NeverOver(after) {
        forall c | c in lines && c in s.dues && s.dues[c].amount >= 0 ensures lines[c] <= Outstanding(s.dues[c]) {
          assert c in after && Covers(after[c]);
        }
      }
    }
  }

  lemma FinishIff(s: Account, t: nat)
    requires AllWellFormed(s) && NeverOver(s.dues)
    ensures NeverOver(Finished(s, t).dues) <==> Fitting(s, Finish(t))
  {
    if Settling(s, t) {
      var x, after := s.txns[t], Settle(s, s.txns[t]);
      assert WellFormed(x) && x.plan.Keys - x.pending == x.plan.Keys;
      hide Covers, WellFormed;
      if NeverOver(after) {
        forall c | c in Touched(x) && c in s.dues && c !in x.gone ensures Covers(Rewritten(s.dues[c], x, c, x.plan.Keys)) {
          assert c < s.nextCharge && c in after && after[c] == Rewritten(s.dues[c], x, c, x.plan.Keys);
        }
      }
      if Fitting(s, Finish(t)) {
        OwnCovered(x);
        forall c | c in after ensures Covers(after[c]) {
          if c in s.dues && c !in Touched(x) {
            assert after[c] == s.dues[c];
          }
        }
      }
    }
  }

  lemma OwnCovered(x: Txn)
    requires x.Writing? && WellFormed(x)
    ensures forall i :: 0 <= i < |x.own| ==> Covers(x.own[i])
  {
  }

  /** One step over-collects nothing if and only if it fits. */
  lemma StepNeverOverIff(s: Account, ev: Event)
    requires AllWellFormed(s) && NeverOver(s.dues)
    ensures NeverOver(Next(s, ev).dues) <==> Fitting(s, ev)
  {
    if ev.Commit? {
      CommitIff(s, ev.t);
    } else if ev.Finish? {
      FinishIff(s, ev.t);
    }
  }

  /** An account between transactions, concessions included. */
  predicate AtRest(s: Account) {
    s.txns == map[] && s.stray == {} && NeverOver(s.dues) && forall c :: c in s.dues ==> c < s.nextCharge && Sound(s.dues[c])
  }

  predicate AlwaysNeverOver(s: Account, events: seq<Event>) {
    NeverOver(Run(s, events).dues) && (events != [] ==> AlwaysNeverOver(s, events[..|events| - 1]))
  }

  predicate AlwaysFitting(s: Account, events: seq<Event>) {
    events != [] ==> AlwaysFitting(s, events[..|events| - 1]) && Fitting(Run(s, events[..|events| - 1]), events[|events| - 1])
  }

  lemma {:induction false} RunWellFormed(s: Account, events: seq<Event>)
    requires AtRest(s)
    ensures AllWellFormed(Run(s, events))
  {
    if events != [] {
      RunWellFormed(s, events[..|events| - 1]);
      NextWellFormed(Run(s, events[..|events| - 1]), events[|events| - 1]);
    }
  }

  /** In any interleaving, nothing is ever over-collected if and only if every payment and every write fits at its commit. */
  lemma {:induction false} RunNeverOverIff(s: Account, events: seq<Event>)
    requires AtRest(s)
    ensures AlwaysNeverOver(s, events) <==> AlwaysFitting(s, events)
  {
    hide AtRest, NeverOver, Fitting, Next, AllWellFormed;
    RestNeverOver(s);
    if events != [] {
      var front, ev := events[..|events| - 1], events[|events| - 1];
      RunNeverOverIff(s, front);
      if AlwaysNeverOver(s, front) {
        RunWellFormed(s, front);
        LastNeverOver(s, front);
        StepNeverOverIff(Run(s, front), ev);
      }
    }
  }

  lemma RestNeverOver(s: Account)
    requires AtRest(s)
    ensures NeverOver(s.dues)
  {
  }

  lemma LastNeverOver(s: Account, events: seq<Event>)
    requires AlwaysNeverOver(s, events)
    ensures NeverOver(Run(s, events).dues)
  {
  }

  // ------------------------------------------------------------------ exactly when money lands on a cancelled charge

  /** A committing payment takes live charges only. */
  predicate PaysLive(s: Account, ev: Event) {
    ev.Commit? && Paying(s, ev.t) ==> s.txns[ev.t].lines.Keys <= s.dues.Keys
  }

  predicate AlwaysPaysLive(s: Account, events: seq<Event>) {
    events != [] ==> AlwaysPaysLive(s, events[..|events| - 1]) && PaysLive(Run(s, events[..|events| - 1]), events[|events| - 1])
  }

  lemma StepStray(s: Account, ev: Event)
    ensures s.stray <= Next(s, ev).stray
    ensures s.stray == {} ==> (Next(s, ev).stray == {} <==> PaysLive(s, ev))
  {
    hide Written, Finished, Fits, Unlocked;
    FinishedStray(s, ev);
    if ev.Commit? && Paying(s, ev.t) {
      var lines := s.txns[ev.t].lines;
      if lines.Keys - s.dues.Keys == {} {
        forall c | c in lines ensures c in s.dues {
          assert c !in lines.Keys - s.dues.Keys;
        }
      }
    }
  }

  lemma FinishedStray(s: Account, ev: Event)
    ensures ev.Finish? ==> Finished(s, ev.t).stray == s.stray
  {
  }

  /** In any interleaving, no money lands on a cancelled charge if and only if every payment commits live charges only. */
  lemma {:induction false} RunStrayIff(s: Account, events: seq<Event>)
    requires s.stray == {}
    ensures Run(s, events).stray == {} <==> AlwaysPaysLive(s, events)
  {
    if events != [] {
      hide Next, PaysLive;
      var front := events[..|events| - 1];
      RunStrayIff(s, front);
      StepStray(Run(s, front), events[|events| - 1]);
    }
  }

  /** A transaction that cancels charges commits while no payment of them is under way. */
  predicate CancelsUnpaid(s: Account, ev: Event) {
    ev.Finish? && Settling(s, ev.t) ==> forall u :: u in s.txns && Paying(s, u) ==> s.txns[u].lines.Keys !! s.txns[ev.t].gone
  }

  predicate AllCancelsUnpaid(s: Account, events: seq<Event>) {
    events != [] ==>
      AllCancelsUnpaid(s, events[..|events| - 1]) && CancelsUnpaid(Run(s, events[..|events| - 1]), events[|events| - 1])
  }

  predicate LinesLive(s: Account) {
    forall t :: t in s.txns && Paying(s, t) ==> s.txns[t].lines.Keys <= s.dues.Keys
  }

  lemma StepLinesLive(s: Account, ev: Event)
    requires LinesLive(s) && CancelsUnpaid(s, ev)
    ensures LinesLive(Next(s, ev)) && PaysLive(s, ev)
  {
    hide Written, Unlocked, Settle;
    if ev.Finish? && Settling(s, ev.t) {
      KeptUnlessGone(s, s.txns[ev.t]);
    }
  }

  lemma KeptUnlessGone(s: Account, x: Txn)
    requires x.Writing?
    ensures forall c :: c in s.dues && c !in x.gone ==> c in Settle(s, x)
  {
  }

  /** So no money lands on a cancelled charge when none is cancelled under a payment. */
  lemma {:induction false} NoneCancelledUnderPayment(s: Account, events: seq<Event>)
    requires AtRest(s) && AllCancelsUnpaid(s, events)
    ensures Run(s, events).stray == {} && LinesLive(Run(s, events))
  {
    if events != [] {
      hide AtRest, Next, LinesLive, CancelsUnpaid, PaysLive;
      var front := events[..|events| - 1];
      NoneCancelledUnderPayment(s, front);
      StepLinesLive(Run(s, front), events[|events| - 1]);
      StepStray(Run(s, front), events[|events| - 1]);
    } else {
      assert LinesLive(s);
    }
  }

  // ------------------------------------------------------------------ conditions to check beforehand

  /** No fine is set below what it is. */
  predicate NotLess(s: Account, ev: Event) {
    ev.Write? && ev.write.Raise? && InWriting(s, ev.t) && ev.write.charge in Seen(s.dues, s.txns[ev.t])
    ==> Seen(s.dues, s.txns[ev.t])[ev.write.charge].amount <= ev.write.amount
  }

  /**
   A payment takes only charges it locked, and none of its charges is between another transaction's
   reading and saving of its discount when it commits. No fine is set below what another run made it.
   */
  predicate Guarded(s: Account, ev: Event) {
    (ev.Allocate? && ev.t in s.txns && s.txns[ev.t].Locking? ==> ev.lines.Keys <= s.txns[ev.t].locked)
    && (ev.Commit? && Paying(s, ev.t) ==>
          forall u :: u in s.txns && s.txns[u].Writing? ==> s.txns[u].pending !! s.txns[ev.t].lines.Keys)
    && NotLess(s, ev)
  }

  predicate AllGuarded(s: Account, events: seq<Event>) {
    events == [] || (AllGuarded(s, events[..|events| - 1]) && Guarded(Run(s, events[..|events| - 1]), events[|events| - 1]))
  }

  /** What is written, saved or not, leaves room for what is received, and no fine has come down. */
  predicate Room(dues: map<nat, Due>, x: Txn)
    requires x.Writing?
  {
    forall c :: c in Touched(x) && c in dues && c !in x.gone ==>
      RoomOn(dues[c], x, c)
  }

  predicate RoomOn(d: Due, x: Txn, c: nat)
    requires x.Writing?
  {
    Covers(Rewritten(d, x, c, x.plan.Keys)) && Rewritten(d, x, c, x.plan.Keys).amount >= 0 && (c in x.fines ==> d.amount <= x.fines[c])
  }

  predicate StillWriting(s: Account, x: Txn)
    requires x.Writing?
  {
    x.gone <= s.dues.Keys && x.pending <= x.plan.Keys && Touched(x) - x.pending <= x.held && x.fines.Keys <= x.held
    && (forall c :: c in Touched(x) ==> c < s.nextCharge) && Room(s.dues, x)
  }

  /** What is locked stays live, what was allocated still fits, and what was written still leaves room. */
  predicate StillTrue(s: Account, x: Txn) {
    (IsPayment(x) ==> HeldBy(x) <= s.dues.Keys)
    && (x.Allocated? ==> x.lines.Keys <= x.locked && Fits(s.dues, x.lines))
    && (x.Writing? ==> StillWriting(s, x))
  }

  predicate IsPayment(x: Txn) {
    x.Locking? || x.Allocated?
  }

  predicate HoldsApart(s: Account) {
    forall t, u :: t in s.txns && u in s.txns && t != u ==> HeldBy(s.txns[t]) !! HeldBy(s.txns[u])
  }

  predicate AllStillTrue(s: Account) {
    forall t :: t in s.txns ==> StillTrue(s, s.txns[t])
  }

  predicate Safe(s: Account) {
    AllWellFormed(s) && NeverOver(s.dues) && s.stray == {} && HoldsApart(s) && AllStillTrue(s)
  }

  /** A payment of charges a writing transaction neither holds nor plans for leaves its facts alone. */
  lemma PaidBeside(s: Account, lines: map<nat, int>, x: Txn)
    requires x.Writing? && StillWriting(s, x) && (forall c :: c in lines && c in s.dues ==> 0 < lines[c] <= Outstanding(s.dues[c]))
    requires x.plan.Keys !! lines.Keys
    ensures StillWriting(s.(dues := Receive(s.dues, lines)), x)
  {
    var after := Receive(s.dues, lines);
    assert after.Keys == s.dues.Keys;
    forall c | c in Touched(x) && c in after && c !in x.gone
      ensures RoomOn(after[c], x, c)
    {
      assert RoomOn(s.dues[c], x, c);
    }
  }

  lemma PaidElsewhere(s: Account, t: nat, x: Txn)
    requires Paying(s, t) && StillTrue(s, s.txns[t]) && StillTrue(s, x) && HeldBy(x) !! HeldBy(s.txns[t])
    requires x.Writing? ==> x.pending !! s.txns[t].lines.Keys
    ensures StillTrue(Committed(s, t), x)
  {
    var lines := s.txns[t].lines;
    assert Receive(s.dues, lines).Keys == s.dues.Keys;
    if x.Writing? {
      forall c | c in x.plan ensures c !in lines {
        assert c in x.pending || c in x.held;
      }
      PaidBeside(s, lines, x);
      SameDues(s.(dues := Receive(s.dues, lines)), Committed(s, t), x);
    }
  }

  lemma CommitKeeps(s: Account, t: nat)
    requires Safe(s) && Guarded(s, Commit(t))
    ensures Safe(Committed(s, t))
  {
    if Paying(s, t) {
      var lines := s.txns[t].lines;
      assert StillTrue(s, s.txns[t]);
      assert lines.Keys - s.dues.Keys == {};
      NextWellFormed(s, Commit(t));
      CommitIff(s, t);
      hide WellFormed, AllWellFormed, NeverOver, StillTrue, Receive;
      forall u | u in s.txns && u != t ensures StillTrue(Committed(s, t), s.txns[u]) {
        assert StillTrue(s, s.txns[u]) && HeldBy(s.txns[u]) !! HeldBy(s.txns[t]);
        PaidElsewhere(s, t, s.txns[u]);
      }
    }
  }

  /** What a finishing transaction does to a charge: nothing, unless it holds it. */
  lemma SettledRow(s: Account, x: Txn, c: nat)
    requires x.Writing? && StillWriting(s, x) && x.pending == {} && AllWellFormed(s) && c in s.dues
    ensures var after := Settle(s, x);
            (c in after <==> c !in x.gone)
            && (c !in HeldBy(x) ==> after[c] == s.dues[c])
            && (c in after ==> after[c].received == s.dues[c].received && s.dues[c].amount <= after[c].amount)
            && (c in after && c !in x.plan ==> after[c].discount == s.dues[c].discount)
  {
    assert c < s.nextCharge && x.plan.Keys - x.pending == x.plan.Keys;
  }

  /** Discounts saved, fines raised, charges posted and cancelled by one transaction leave another's facts alone. */
  lemma SavedElsewhere(s: Account, t: nat, y: Txn)
    requires Settling(s, t) && StillWriting(s, s.txns[t]) && AllWellFormed(s)
    requires HeldBy(y) !! HeldBy(s.txns[t]) && StillTrue(s, y)
    ensures StillTrue(Finished(s, t), y)
  {
    var x, after := s.txns[t], Settle(s, s.txns[t]);
    hide Settle, AllWellFormed;
    forall c | c in s.dues
      ensures (c in after <==> c !in x.gone) && (c !in HeldBy(x) ==> after[c] == s.dues[c])
              && (c in after ==> after[c].received == s.dues[c].received && s.dues[c].amount <= after[c].amount)
    {
      SettledRow(s, x, c);
    }
    if y.Writing? {
      NewOnesNew(s, x);
      RoomBeside(s, x, after, y);
    }
  }

  lemma NewOnesNew(s: Account, x: Txn)
    requires x.Writing?
    ensures forall c :: c in Settle(s, x) && c !in s.dues ==> c >= s.nextCharge
  {
  }

  lemma RoomBeside(s: Account, x: Txn, after: map<nat, Due>, y: Txn)
    requires x.Writing? && y.Writing? && HeldBy(y) !! HeldBy(x) && StillWriting(s, y)
    requires forall c :: c in after && c !in s.dues ==> c >= s.nextCharge
    requires forall c :: c in s.dues ==>
               (c in after <==> c !in x.gone) && (c !in HeldBy(x) ==> after[c] == s.dues[c])
               && (c in after ==> after[c].received == s.dues[c].received && s.dues[c].amount <= after[c].amount)
    ensures Room(after, y)
  {
    forall c | c in Touched(y) && c in after && c !in y.gone
      ensures RoomOn(after[c], y, c)
    {
      assert c in s.dues && RoomOn(s.dues[c], y, c);
      assert c in y.pending || c in HeldBy(y);
    }
  }

  lemma FinishNeverOver(s: Account, t: nat)
    requires AllWellFormed(s) && NeverOver(s.dues) && Settling(s, t) && StillWriting(s, s.txns[t])
    ensures AllWellFormed(Finished(s, t)) && NeverOver(Finished(s, t).dues)
  {
    NextWellFormed(s, Finish(t));
    FinishIff(s, t);
    var x := s.txns[t];
    hide AllWellFormed, NeverOver, Finished, Covers;
    forall c | c in Touched(x) && c in s.dues && c !in x.gone ensures Covers(Rewritten(s.dues[c], x, c, x.plan.Keys)) {
      assert RoomOn(s.dues[c], x, c);
    }
  }

  lemma FinishKeeps(s: Account, t: nat)
    requires Safe(s)
    ensures Safe(Finished(s, t))
  {
    if Settling(s, t) {
      assert StillTrue(s, s.txns[t]);
      FinishNeverOver(s, t);
      hide AllWellFormed, NeverOver, StillTrue, StillWriting, Settle, HeldBy;
      forall u | u in s.txns && u != t ensures StillTrue(Finished(s, t), s.txns[u]) {
        assert HeldBy(s.txns[u]) !! HeldBy(s.txns[t]) && StillTrue(s, s.txns[u]);
        SavedElsewhere(s, t, s.txns[u]);
      }
    }
  }

  lemma LineCancelled(s: Account, c: nat, amount: int, x: Txn)
    requires StillTrue(s, x)
    ensures StillTrue(Next(s, CancelLine(c, amount)), x)
  {
    var after := Next(s, CancelLine(c, amount));
    assert after.dues.Keys == s.dues.Keys;
    if x.Writing? {
      forall d | d in Touched(x) && d in after.dues && d !in x.gone
        ensures RoomOn(after.dues[d], x, d)
      {
        assert RoomOn(s.dues[d], x, d);
      }
    }
  }

  lemma CancelLineKeeps(s: Account, c: nat, amount: int)
    requires Safe(s)
    ensures Safe(Next(s, CancelLine(c, amount)))
  {
    NextWellFormed(s, CancelLine(c, amount));
    StepNeverOverIff(s, CancelLine(c, amount));
    hide WellFormed, AllWellFormed, NeverOver, StillTrue;
    forall u | u in s.txns ensures StillTrue(Next(s, CancelLine(c, amount)), s.txns[u]) {
      assert StillTrue(s, s.txns[u]);
      LineCancelled(s, c, amount, s.txns[u]);
    }
  }

  lemma SameDues(s: Account, after: Account, x: Txn)
    requires StillTrue(s, x) && after.dues == s.dues && after.nextCharge == s.nextCharge
    ensures StillTrue(after, x)
  {
  }

  lemma WithKeeps(s: Account, t: nat, x: Txn)
    requires Safe(s) && WellFormed(x) && StillTrue(s, x) && Unlocked(s, t, HeldBy(x))
    ensures Safe(With(s, t, x))
  {
    hide NeverOver, StillTrue, HeldBy, WellFormed, Sound;
    forall u | u in With(s, t, x).txns ensures StillTrue(With(s, t, x), With(s, t, x).txns[u]) {
      SameDues(s, With(s, t, x), With(s, t, x).txns[u]);
    }
  }

  lemma EndedKeeps(s: Account, t: nat)
    requires Safe(s)
    ensures Safe(Ended(s, t))
  {
    hide NeverOver, StillTrue, HeldBy, WellFormed, Sound;
    forall u | u in Ended(s, t).txns ensures StillTrue(Ended(s, t), s.txns[u]) {
      SameDues(s, Ended(s, t), s.txns[u]);
    }
  }

  lemma HoldsAlone(s: Account, t: nat)
    requires HoldsApart(s) && t in s.txns
    ensures Unlocked(s, t, HeldBy(s.txns[t]))
  {
  }

  /** A recompute plans no more than there is room for. */
  lemma RecomputeHasRoom(s: Account, x: Txn, wanted: map<nat, nat>, wantedOwn: map<nat, nat>)
    requires AllWellFormed(s) && NeverOver(s.dues) && x.Writing? && WellFormed(x) && StillWriting(s, x) && x.pending == {}
    ensures StillWriting(s, Recomputed(s.dues, x, wanted, wantedOwn))
  {
    var seen, y := Seen(s.dues, x), Recomputed(s.dues, x, wanted, wantedOwn);
    assert x.plan.Keys - x.pending == x.plan.Keys;
    var plan := PlanOf(seen, wanted);
    assert y.plan.Keys == x.plan.Keys + plan.Keys && plan.Keys <= seen.Keys;
    forall c | c in Touched(y) && c in s.dues && c !in y.gone
      ensures RoomOn(s.dues[c], y, c)
    {
      SeenCovered(s, x, c);
      if c !in plan {
        assert c in Touched(x) && Rewritten(s.dues[c], y, c, y.plan.Keys) == Rewritten(s.dues[c], x, c, x.plan.Keys);
      }
    }
  }

  lemma SeenCovered(s: Account, x: Txn, c: nat)
    requires AllWellFormed(s) && NeverOver(s.dues) && x.Writing? && WellFormed(x) && StillWriting(s, x) && x.pending == {}
    requires c in s.dues && c !in x.gone
    ensures c in Seen(s.dues, x) && Covers(Seen(s.dues, x)[c]) && Sound(Seen(s.dues, x)[c])
  {
    assert x.plan.Keys - x.pending == x.plan.Keys;
    if c !in Touched(x) {
      assert Seen(s.dues, x)[c] == s.dues[c];
    }
  }

  /** A fine raised leaves room, with what was saved and with what is pending. */
  lemma RaiseHasRoom(s: Account, t: nat, c: nat, amount: int)
    requires NeverOver(s.dues) && MayUpdate(s, t, c) && s.dues[c].amount >= 0 && StillWriting(s, s.txns[t]) && NotLess(s, Write(t, Raise(c, amount)))
    requires c < s.nextCharge
    ensures StillWriting(s, Written(s, t, Raise(c, amount)))
  {
    var x, y := s.txns[t], Written(s, t, Raise(c, amount));
    assert c in Seen(s.dues, x) && Seen(s.dues, x)[c].amount <= amount;
    forall d | d in Touched(y) && d in s.dues && d !in y.gone
      ensures RoomOn(s.dues[d], y, d)
    {
      if d in Touched(x) {
        assert RoomOn(s.dues[d], x, d);
      }
    }
  }

  /** Every step of a writing transaction keeps its facts, and takes rows no other holds. */
  lemma WrittenStillTrue(s: Account, t: nat, w: Update)
    requires AllWellFormed(s) && NeverOver(s.dues) && HoldsApart(s) && InWriting(s, t)
    requires StillWriting(s, s.txns[t]) && NotLess(s, Write(t, w))
    ensures WellFormed(Written(s, t, w)) && StillWriting(s, Written(s, t, w)) && Unlocked(s, t, HeldBy(Written(s, t, w)))
  {
    var x := s.txns[t];
    assert WellFormed(x);
    WrittenWellFormed(s, t, w);
    HoldsAlone(s, t);
    match w
    case Read(wanted, wantedOwn) =>
      hide WellFormed, NeverOver, Covers, Recomputed, Seen, NotLess;
      if x.pending == {} {
        RecomputeHasRoom(s, x, wanted, wantedOwn);
        SameHeld(s.dues, x, wanted, wantedOwn);
      }
    case Raise(c, amount) =>
      hide WellFormed, NeverOver, Covers, Seen, NotLess;
      if MayUpdate(s, t, c) && s.dues[c].amount >= 0 {
        RaiseHasRoom(s, t, c, amount);
      }
    case Save(c) =>
      hide WellFormed, NeverOver, Covers, Seen, NotLess;
      assert Touched(Written(s, t, w)) == Touched(x);
    case _ =>
      hide WellFormed, NeverOver, Covers, Seen, NotLess;
  }

  lemma SameHeld(dues: map<nat, Due>, x: Txn, wanted: map<nat, nat>, wantedOwn: map<nat, nat>)
    requires x.Writing?
    ensures HeldBy(Recomputed(dues, x, wanted, wantedOwn)) == HeldBy(x)
  {
  }

  lemma AllocateKeeps(s: Account, t: nat, lines: map<nat, int>)
    requires Safe(s) && Guarded(s, Allocate(t, lines))
    ensures Safe(Next(s, Allocate(t, lines)))
  {
    if t in s.txns && s.txns[t].Locking? {
      assert StillTrue(s, s.txns[t]);
      HoldsAlone(s, t);
      AllocatedWellFormed(s, t, lines);
      hide Safe, WellFormed;
      EndedKeeps(s, t);
      if Fits(s.dues, lines) {
        WithKeeps(s, t, Allocated(s.txns[t].locked, lines));
      }
    }
  }

  /** The steps that change no charge. */
  lemma MoveKeeps(s: Account, ev: Event)
    requires Safe(s) && Guarded(s, ev) && !ev.CancelLine? && !ev.Commit? && !ev.Finish? && !ev.Allocate?
    ensures Safe(Next(s, ev))
  {
    BlankWellFormed();
    hide NeverOver, AllWellFormed, WellFormed, Written, Ended, With, StillWriting, Room;
    match ev
    case Begin(t) => if t !in s.txns { WithKeeps(s, t, Begun); }
    case LockLive(t) => if Next(s, ev) != s { WithKeeps(s, t, Locking(s.dues.Keys)); }
    case BeginWrite(t) => if t !in s.txns { BlankStillTrue(s); WithKeeps(s, t, BLANK); }
    case Abort(t) => EndedKeeps(s, t);
    case Write(t, w) =>
      if InWriting(s, t) {
        assert StillTrue(s, s.txns[t]);
        WrittenStillTrue(s, t, w);
        WithKeeps(s, t, Written(s, t, w));
      }
    case _ =>
  }

  lemma BlankStillTrue(s: Account)
    ensures StillTrue(s, BLANK)
  {
  }

  lemma NextKeeps(s: Account, ev: Event)
    requires Safe(s) && Guarded(s, ev)
    ensures Safe(Next(s, ev))
  {
    hide Safe, Guarded, Committed, Finished;
    match ev
    case CancelLine(c, amount) => CancelLineKeeps(s, c, amount);
    case Commit(t) => CommitKeeps(s, t);
    case Finish(t) => FinishKeeps(s, t);
    case Allocate(t, lines) => AllocateKeeps(s, t, lines);
    case _ => MoveKeeps(s, ev);
  }

  /** From any account at rest, a guarded interleaving over-collects nothing and puts no money on a cancelled charge. */
  lemma {:induction false} LockedPaymentsAreSafe(s: Account, events: seq<Event>)
    requires AtRest(s) && AllGuarded(s, events)
    ensures Safe(Run(s, events))
  {
    if events != [] {
      LockedPaymentsAreSafe(s, events[..|events| - 1]);
      NextKeeps(Run(s, events[..|events| - 1]), events[|events| - 1]);
    }
  }

  // ------------------------------------------------------------------ paying with something locked

  /**
   A payment finds some live charge to lock, and no charge is in a payment and in a recompute at
   once: none it pays is planned when it commits, none that is planned is being paid when it finishes.
   No fine is set below what another run made it.
   */
  predicate Watched(s: Account, ev: Event) {
    (ev.LockLive? ==> s.dues != map[])
    && (ev.Commit? && Paying(s, ev.t) ==>
          forall u :: u in s.txns && s.txns[u].Writing? ==> s.txns[u].plan.Keys !! s.txns[ev.t].lines.Keys)
    && (ev.Finish? && Settling(s, ev.t) ==>
          forall u :: u in s.txns && Paying(s, u) ==> s.txns[u].lines.Keys !! s.txns[ev.t].plan.Keys)
    && NotLess(s, ev)
  }

  predicate AllWatched(s: Account, events: seq<Event>) {
    events == [] || (AllWatched(s, events[..|events| - 1]) && Watched(Run(s, events[..|events| - 1]), events[|events| - 1]))
  }

  /** As StillTrue, except that a charge taken without a lock may meanwhile be cancelled. */
  predicate StillFits(s: Account, x: Txn) {
    (IsPayment(x) ==> HeldBy(x) != {} && HeldBy(x) <= s.dues.Keys)
    && (x.Allocated? ==>
          forall c :: c in x.lines ==> c < s.nextCharge && (c in s.dues ==> 0 < x.lines[c] <= Outstanding(s.dues[c])))
    && (x.Writing? ==> StillWriting(s, x))
  }

  predicate OnePayment(s: Account) {
    forall t, u :: t in s.txns && u in s.txns && t != u ==> !IsPayment(s.txns[t]) || !IsPayment(s.txns[u])
  }

  predicate NotOver(s: Account) {
    AllWellFormed(s) && NeverOver(s.dues) && HoldsApart(s) && OnePayment(s) && forall t :: t in s.txns ==> StillFits(s, s.txns[t])
  }

  lemma FitsBeside(s: Account, t: nat, x: Txn)
    requires Paying(s, t) && StillFits(s, s.txns[t]) && StillFits(s, x) && !IsPayment(x)
    requires x.Writing? ==> x.plan.Keys !! s.txns[t].lines.Keys
    ensures StillFits(Committed(s, t), x)
  {
    if x.Writing? {
      PaidBeside(s, s.txns[t].lines, x);
      SameWriting(s.(dues := Receive(s.dues, s.txns[t].lines)), Committed(s, t), x);
    }
  }

  lemma SameWriting(s: Account, after: Account, x: Txn)
    requires x.Writing? && StillWriting(s, x) && after.dues == s.dues && after.nextCharge == s.nextCharge
    ensures StillWriting(after, x)
  {
  }

  lemma CommitKeepsNotOver(s: Account, t: nat)
    requires NotOver(s) && Watched(s, Commit(t))
    ensures NotOver(Committed(s, t))
  {
    if Paying(s, t) {
      assert StillFits(s, s.txns[t]);
      NextWellFormed(s, Commit(t));
      CommitIff(s, t);
      hide WellFormed, AllWellFormed, NeverOver, StillFits, Receive;
      forall u | u in s.txns && u != t ensures StillFits(Committed(s, t), s.txns[u]) {
        assert StillFits(s, s.txns[u]);
        FitsBeside(s, t, s.txns[u]);
      }
    }
  }

  lemma SavedBeside(s: Account, t: nat, y: Txn)
    requires Settling(s, t) && StillWriting(s, s.txns[t]) && AllWellFormed(s)
    requires HeldBy(y) !! HeldBy(s.txns[t]) && StillFits(s, y)
    requires y.Allocated? ==> y.lines.Keys !! s.txns[t].plan.Keys
    ensures StillFits(Finished(s, t), y)
  {
    var x, after := s.txns[t], Settle(s, s.txns[t]);
    if y.Writing? {
      SavedElsewhere(s, t, y);
    } else {
      NewOnesNew(s, x);
      hide Settle, AllWellFormed, StillWriting;
      forall c | c in s.dues
        ensures (c in after <==> c !in x.gone) && (c !in HeldBy(x) ==> after[c] == s.dues[c])
                && (c in after ==> after[c].received == s.dues[c].received && s.dues[c].amount <= after[c].amount)
                && (c in after && c !in x.plan ==> after[c].discount == s.dues[c].discount)
      {
        SettledRow(s, x, c);
      }
    }
  }

  lemma FinishKeepsNotOver(s: Account, t: nat)
    requires NotOver(s) && Watched(s, Finish(t))
    ensures NotOver(Finished(s, t))
  {
    if Settling(s, t) {
      assert StillFits(s, s.txns[t]);
      FinishNeverOver(s, t);
      hide AllWellFormed, NeverOver, StillFits, StillWriting, Settle, HeldBy, IsPayment;
      forall u | u in s.txns && u != t ensures StillFits(Finished(s, t), s.txns[u]) {
        assert StillFits(s, s.txns[u]) && HeldBy(s.txns[u]) !! HeldBy(s.txns[t]);
        SavedBeside(s, t, s.txns[u]);
      }
    }
  }

  lemma CancelLineKeepsNotOver(s: Account, c: nat, amount: int)
    requires NotOver(s)
    ensures NotOver(Next(s, CancelLine(c, amount)))
  {
    NextWellFormed(s, CancelLine(c, amount));
    StepNeverOverIff(s, CancelLine(c, amount));
    hide WellFormed, AllWellFormed, NeverOver, StillWriting;
    forall u | u in s.txns ensures StillFits(Next(s, CancelLine(c, amount)), s.txns[u]) {
      assert StillFits(s, s.txns[u]);
      if s.txns[u].Writing? {
        LineCancelled(s, c, amount, s.txns[u]);
      }
    }
  }

  lemma SameAccountFits(s: Account, after: Account, x: Txn)
    requires StillFits(s, x) && after.dues == s.dues && after.nextCharge == s.nextCharge
    ensures StillFits(after, x)
  {
  }

  lemma WithKeepsNotOver(s: Account, t: nat, x: Txn)
    requires NotOver(s) && WellFormed(x) && StillFits(s, x) && Unlocked(s, t, HeldBy(x))
    requires IsPayment(x) ==> forall u :: u in s.txns && u != t ==> !IsPayment(s.txns[u])
    ensures NotOver(With(s, t, x))
  {
    hide NeverOver, StillFits, HeldBy, IsPayment, WellFormed, Sound;
    forall u | u in With(s, t, x).txns ensures StillFits(With(s, t, x), With(s, t, x).txns[u]) {
      SameAccountFits(s, With(s, t, x), With(s, t, x).txns[u]);
    }
  }

  lemma EndedKeepsNotOver(s: Account, t: nat)
    requires NotOver(s)
    ensures NotOver(Ended(s, t))
  {
    hide NeverOver, StillFits, HeldBy, IsPayment, WellFormed, Sound;
    forall u | u in Ended(s, t).txns ensures StillFits(Ended(s, t), s.txns[u]) {
      SameAccountFits(s, Ended(s, t), s.txns[u]);
    }
  }

  /** While a payment holds its charges, no other can lock all that are live. */
  lemma HolderBlocks(s: Account, t: nat, u: nat)
    requires NotOver(s) && u in s.txns && u != t
    ensures IsPayment(s.txns[u]) ==> !Unlocked(s, t, s.dues.Keys)
  {
    if IsPayment(s.txns[u]) {
      assert StillFits(s, s.txns[u]);
      var c :| c in HeldBy(s.txns[u]);
      assert c in s.dues.Keys;
    }
  }

  lemma LockKeepsNotOver(s: Account, t: nat)
    requires NotOver(s) && s.dues != map[]
    ensures NotOver(Next(s, LockLive(t)))
  {
    hide NeverOver, AllWellFormed;
    if Next(s, LockLive(t)) != s {
      forall u | u in s.txns && u != t ensures !IsPayment(s.txns[u]) {
        HolderBlocks(s, t, u);
      }
      var c :| c in s.dues;
      assert c in s.dues.Keys;
      WithKeepsNotOver(s, t, Locking(s.dues.Keys));
    }
  }

  lemma AllocateKeepsNotOver(s: Account, t: nat, lines: map<nat, int>)
    requires NotOver(s)
    ensures NotOver(Next(s, Allocate(t, lines)))
  {
    if t in s.txns && s.txns[t].Locking? {
      assert StillFits(s, s.txns[t]);
      HoldsAlone(s, t);
      AllocatedWellFormed(s, t, lines);
      EndedKeepsNotOver(s, t);
      hide NeverOver, WellFormed, With, Ended;
      if Fits(s.dues, lines) {
        WithKeepsNotOver(s, t, Allocated(s.txns[t].locked, lines));
      }
    }
  }

  lemma MoveKeepsNotOver(s: Account, ev: Event)
    requires NotOver(s) && Watched(s, ev)
    requires !ev.CancelLine? && !ev.Commit? && !ev.Finish? && !ev.LockLive? && !ev.Allocate?
    ensures NotOver(Next(s, ev))
  {
    BlankWellFormed();
    hide NeverOver, AllWellFormed, WellFormed, Written, Ended, With, StillWriting, Room;
    match ev
    case Begin(t) => if t !in s.txns { WithKeepsNotOver(s, t, Begun); }
    case BeginWrite(t) => if t !in s.txns { BlankStillTrue(s); WithKeepsNotOver(s, t, BLANK); }
    case Abort(t) => EndedKeepsNotOver(s, t);
    case Write(t, w) =>
      if InWriting(s, t) {
        assert StillFits(s, s.txns[t]);
        WrittenStillTrue(s, t, w);
        WithKeepsNotOver(s, t, Written(s, t, w));
      }
    case _ =>
  }

  lemma NextKeepsNotOver(s: Account, ev: Event)
    requires NotOver(s) && Watched(s, ev)
    ensures NotOver(Next(s, ev))
  {
    hide NotOver, Committed, Finished;
    match ev
    case CancelLine(c, amount) => CancelLineKeepsNotOver(s, c, amount);
    case Commit(t) => CommitKeepsNotOver(s, t);
    case Finish(t) => FinishKeepsNotOver(s, t);
    case LockLive(t) => LockKeepsNotOver(s, t);
    case Allocate(t, lines) => AllocateKeepsNotOver(s, t, lines);
    case _ => MoveKeepsNotOver(s, ev);
  }

  /**
   Paying unlocked charges too, two counters never over-collect when each payment locks some live
   charge; nor do they pay a cancelled charge, if none is cancelled under a payment.
   */
  lemma {:induction false} CountersNeverOverCollect(s: Account, events: seq<Event>)
    requires AtRest(s) && AllWatched(s, events)
    ensures NotOver(Run(s, events))
    ensures AllCancelsUnpaid(s, events) ==> Run(s, events).stray == {}
  {
    hide AllCancelsUnpaid, AtRest;
    if AllCancelsUnpaid(s, events) {
      NoneCancelledUnderPayment(s, events);
    }
    CountersKeepNotOver(s, events);
  }

  lemma {:induction false} CountersKeepNotOver(s: Account, events: seq<Event>)
    requires AtRest(s) && AllWatched(s, events)
    ensures NotOver(Run(s, events))
  {
    if events != [] {
      CountersKeepNotOver(s, events[..|events| - 1]);
      NextKeepsNotOver(Run(s, events[..|events| - 1]), events[|events| - 1]);
    }
  }

  // ------------------------------------------------------------------ the interleavings that fail

  /** A charge posted in a transaction of its own: no concession applies to it. */
  function PostedBy(s: Account, t: nat, amount: int): Account {
    Next(Next(Next(Next(s, BeginWrite(t)), Write(t, Post(amount))), Write(t, Read(map[], map[]))), Finish(t))
  }

  /** A charge cancelled in a transaction of its own. */
  function CancelledBy(s: Account, t: nat, c: nat): Account {
    Next(Next(Next(Next(s, BeginWrite(t)), Write(t, Withdraw(c))), Write(t, Read(map[], map[]))), Finish(t))
  }

  lemma NothingRecomputed(dues: map<nat, Due>, x: Txn)
    requires x.Writing? && x.plan == map[] && x.pending == {}
    ensures Recomputed(dues, x, map[], map[]) == x
  {
    assert PlanOf(Seen(dues, x), map[]) == map[];
    assert OwnOf(x.own, map[]) == x.own;
  }

  lemma OneWrite(s: Account, t: nat, w: Update, x: Txn)
    requires t !in s.txns && x == Written(With(s, t, BLANK), t, w) && x.plan == map[] && x.pending == {}
    ensures Next(Next(Next(s, BeginWrite(t)), Write(t, w)), Write(t, Read(map[], map[]))) == With(s, t, x)
  {
    var begun := With(s, t, BLANK);
    assert Next(s, BeginWrite(t)) == begun;
    assert Next(begun, Write(t, w)) == With(begun, t, x) == With(s, t, x);
    ReadsNothing(With(s, t, x), t);
  }

  lemma ReadsNothing(s: Account, t: nat)
    requires InWriting(s, t) && s.txns[t].plan == map[] && s.txns[t].pending == {}
    ensures Next(s, Write(t, Read(map[], map[]))) == s
  {
    NothingRecomputed(s.dues, s.txns[t]);
    hide Recomputed;
  }

  lemma PostedAlone(s: Account, t: nat, amount: int)
    requires t !in s.txns && amount > 0
    ensures PostedBy(s, t, amount) == s.(dues := s.dues[s.nextCharge := Due(amount, 0, 0)], nextCharge := s.nextCharge + 1)
  {
    var x := BLANK.(own := [Due(amount, 0, 0)]);
    OneWrite(s, t, Post(amount), x);
    SettlesPosted(s, x);
    FinishesAlone(s, t, x);
    hide Next;
  }

  lemma SettlesPosted(s: Account, x: Txn)
    requires x.Writing? && x == BLANK.(own := x.own) && |x.own| == 1
    ensures Settle(s, x) == s.dues[s.nextCharge := x.own[0]]
  {
    assert Seen(s.dues, x) == s.dues;
  }

  lemma FinishesAlone(s: Account, t: nat, x: Txn)
    requires t !in s.txns && x.Writing? && x.pending == {}
    ensures Next(With(s, t, x), Finish(t)) == s.(dues := Settle(s, x), nextCharge := s.nextCharge + |x.own|)
  {
    hide Settle;
    assert With(s, t, x).txns - {t} == s.txns;
    assert Settle(With(s, t, x), x) == Settle(s, x) by { SameSettle(s, With(s, t, x), x); }
  }

  lemma SameSettle(s: Account, after: Account, x: Txn)
    requires x.Writing? && after.dues == s.dues && after.nextCharge == s.nextCharge
    ensures Settle(after, x) == Settle(s, x)
  {
  }

  lemma CancelledAlone(s: Account, t: nat, c: nat)
    requires t !in s.txns && c in s.dues && s.dues[c].received <= 0 && Unlocked(s, t, {c})
    ensures CancelledBy(s, t, c) == s.(dues := s.dues - {c})
  {
    var x := BLANK.(gone := {c});
    assert MayUpdate(With(s, t, BLANK), t, c);
    OneWrite(s, t, Withdraw(c), x);
    assert Seen(s.dues, x) == s.dues - {c};
    assert Settle(s, x) == s.dues - {c};
    FinishesAlone(s, t, x);
    hide Next;
  }

  lemma BothLockNothing()
    ensures Next(Next(Next(Next(EMPTY, Begin(1)), LockLive(1)), Begin(2)), LockLive(2))
            == Account(map[], 0, {}, map[1 := Locking({}), 2 := Locking({})])
  {
    assert EMPTY.dues.Keys == {};
    var one := Next(Next(EMPTY, Begin(1)), LockLive(1));
    assert one == Account(map[], 0, {}, map[1 := Locking({})]);
    assert one.dues.Keys == {};
    assert Next(one, Begin(2)) == Account(map[], 0, {}, map[1 := Locking({}), 2 := Begun]);
  }

  lemma BothTake(s: Account, lines: map<nat, int>)
    requires s.txns == map[1 := Locking({}), 2 := Locking({})] && lines != map[] && Fits(s.dues, lines)
    ensures Next(Next(s, Allocate(1, lines)), Allocate(2, lines))
            == s.(txns := map[1 := Allocated({}, lines), 2 := Allocated({}, lines)])
  {
    hide Fits;
    assert Next(s, Allocate(1, lines)).txns == map[1 := Allocated({}, lines), 2 := Locking({})];
  }

  lemma BothCommit(s: Account, lines: map<nat, int>)
    requires s.txns == map[1 := Allocated({}, lines), 2 := Allocated({}, lines)]
    ensures Next(Next(s, Commit(1)), Commit(2)).dues == Receive(Receive(s.dues, lines), lines)
  {
    hide Receive;
    assert Next(s, Commit(1)).txns == map[2 := Allocated({}, lines)];
  }

  /** With nothing to lock, two payments both take a charge posted after they started. */
  lemma TwoFirstPaymentsOverCollect(amount: int)
    requires amount > 0
    ensures var lines: map<nat, int> := map[0 := amount];
            var locked := Next(Next(Next(Next(EMPTY, Begin(1)), LockLive(1)), Begin(2)), LockLive(2));
            var taken := Next(Next(PostedBy(locked, 3, amount), Allocate(1, lines)), Allocate(2, lines));
            Next(Next(taken, Commit(1)), Commit(2)).dues == map[0 := Due(amount, 0, 2 * amount)]
  {
    hide Next, PostedBy;
    var lines: map<nat, int> := map[0 := amount];
    BothLockNothing();
    var locked := Account(map[], 0, {}, map[1 := Locking({}), 2 := Locking({})]);
    PostedAlone(locked, 3, amount);
    var posted := locked.(dues := map[0 := Due(amount, 0, 0)], nextCharge := 1);
    assert 0 in lines;
    BothTake(posted, lines);
    BothCommit(posted.(txns := map[1 := Allocated({}, lines), 2 := Allocated({}, lines)]), lines);
    assert Receive(posted.dues, lines) == map[0 := Due(amount, 0, amount)];
  }

  lemma Takes(s: Account, t: nat, lines: map<nat, int>)
    requires t in s.txns && s.txns[t].Locking? && lines != map[] && Fits(s.dues, lines)
    ensures Next(s, Allocate(t, lines)) == With(s, t, Allocated(s.txns[t].locked, lines))
  {
  }

  lemma Strays(s: Account, t: nat, c: nat)
    requires Paying(s, t) && c in s.txns[t].lines && c !in s.dues
    ensures c in Next(s, Commit(t)).stray
  {
  }

  /** A charge posted after the lock can be cancelled before the payment of it commits. */
  lemma MoneyOnACancelledCharge(s: Account, t: nat, u: nat, amount: int)
    requires t in s.txns && s.txns[t].Locking? && u !in s.txns && amount > 0
    requires s.nextCharge !in s.dues && Unlocked(s, u, {s.nextCharge})
    ensures var c := s.nextCharge;
            var taken := Next(PostedBy(s, u, amount), Allocate(t, map[c := amount]));
            c in Next(CancelledBy(taken, u, c), Commit(t)).stray
  {
    hide Next, PostedBy, CancelledBy;
    var c := s.nextCharge;
    PostedAlone(s, u, amount);
    var posted := s.(dues := s.dues[c := Due(amount, 0, 0)], nextCharge := c + 1);
    var lines: map<nat, int> := map[c := amount];
    assert c in lines && Fits(posted.dues, lines);
    Takes(posted, t, lines);
    var taken := With(posted, t, Allocated(s.txns[t].locked, lines));
    assert Unlocked(taken, u, {c});
    CancelledAlone(taken, u, c);
    Strays(taken.(dues := taken.dues - {c}), t, c);
  }

  // ------------------------------------------------------------------ a recompute and a payment

  /** The account with one charge, and a transaction that has posted others and is about to recompute. */
  function OneCharge(d: Due, own: seq<Due>): Account {
    Account(map[0 := d], 1, {}, map[1 := BLANK.(own := own)])
  }

  /** Transaction 2 pays the whole due between transaction 1's read and its save. */
  function PaidBetween(d: Due, own: seq<Due>, wanted: nat): Account {
    var read := Next(OneCharge(d, own), Write(1, Read(map[0 := wanted], map[])));
    var locked := Next(Next(read, Begin(2)), LockLive(2));
    var paid := Next(Next(locked, Allocate(2, map[0 := Outstanding(d)])), Commit(2));
    Next(Next(paid, Write(1, Save(0))), Finish(1))
  }

  /** Whatever else transaction 1 posts, if anything, over-collection then comes exactly of raising the discount. */
  lemma ConcessionRacesPayment(d: Due, own: seq<Due>, wanted: nat)
    requires Sound(d) && Covers(d) && d.amount >= 0 && Outstanding(d) > 0
    requires forall i :: 0 <= i < |own| ==> own[i] == Due(own[i].amount, 0, 0)
    ensures NeverOver(PaidBetween(d, own, wanted).dues) <==> Capped(d, wanted) <= d.discount
  {
    ReadsPlan(d, own, wanted);
    var x := PlannedFor(d, own, wanted);
    PaysWhole(d, x);
    hide Next;
    SavesAfter(d, own, wanted);
  }

  /** What transaction 1 has to save. */
  function PlannedFor(d: Due, own: seq<Due>, wanted: nat): (x: Txn)
    ensures x.Writing?
  {
    var plan: map<nat, int> := if Capped(d, wanted) != d.discount then map[0 := Capped(d, wanted)] else map[];
    BLANK.(own := own, plan := plan, pending := plan.Keys)
  }

  lemma PlansOne(d: Due, own: seq<Due>, wanted: nat)
    requires d.amount > 0
    ensures Recomputed(map[0 := d], BLANK.(own := own), map[0 := wanted], map[]) == PlannedFor(d, own, wanted)
  {
    var x := BLANK.(own := own);
    assert Seen(map[0 := d], x) == map[0 := d];
    var wants: map<nat, nat> := map[0 := wanted];
    assert 0 in wants;
    assert PlanOf(map[0 := d], wants) == PlannedFor(d, own, wanted).plan;
    assert OwnOf(own, map[]) == own;
  }

  lemma ReadsPlan(d: Due, own: seq<Due>, wanted: nat)
    requires d.amount > 0
    ensures Next(OneCharge(d, own), Write(1, Read(map[0 := wanted], map[])))
            == Account(map[0 := d], 1, {}, map[1 := PlannedFor(d, own, wanted)])
  {
    PlansOne(d, own, wanted);
    hide Recomputed, PlannedFor;
  }

  lemma PaysWhole(d: Due, x: Txn)
    requires Outstanding(d) > 0 && x.Writing? && HeldBy(x) == {}
    ensures var s := Account(map[0 := d], 1, {}, map[1 := x]);
            var locked := Next(Next(s, Begin(2)), LockLive(2));
            Next(Next(locked, Allocate(2, map[0 := Outstanding(d)])), Commit(2))
            == Account(map[0 := d.(received := d.amount - d.discount)], 1, {}, map[1 := x])
  {
    hide Written;
    var s := Account(map[0 := d], 1, {}, map[1 := x]);
    assert s.dues.Keys == {0};
    var locked := Next(Next(s, Begin(2)), LockLive(2));
    assert locked == s.(txns := map[1 := x, 2 := Locking({0})]);
    PaysLocked(d, x, locked);
  }

  lemma PaysLocked(d: Due, x: Txn, locked: Account)
    requires Outstanding(d) > 0 && locked == Account(map[0 := d], 1, {}, map[1 := x, 2 := Locking({0})])
    ensures Next(Next(locked, Allocate(2, map[0 := Outstanding(d)])), Commit(2))
            == Account(map[0 := d.(received := d.amount - d.discount)], 1, {}, map[1 := x])
  {
    hide Written;
    var lines: map<nat, int> := map[0 := Outstanding(d)];
    assert 0 in lines && Fits(locked.dues, lines);
    var taken := Next(locked, Allocate(2, lines));
    assert taken == locked.(txns := map[1 := x, 2 := Allocated({0}, lines)]);
    assert Receive(taken.dues, lines) == map[0 := d.(received := d.amount - d.discount)];
    assert taken.txns - {2} == map[1 := x] && lines.Keys - taken.dues.Keys == {};
  }

  lemma SavesPlan(e: Due, x: Txn)
    requires x.Writing? && x.held == {} && x.pending == x.plan.Keys && x.plan.Keys <= {0}
    ensures Next(Account(map[0 := e], 1, {}, map[1 := x]), Write(1, Save(0)))
            == Account(map[0 := e], 1, {}, map[1 := x.(pending := {}, held := x.plan.Keys)])
  {
    var s := Account(map[0 := e], 1, {}, map[1 := x]);
    assert Unlocked(s, 1, {0});
    if 0 in x.plan {
      assert x.plan.Keys == {0} && x.pending - {0} == {} && x.held + {0} == {0};
    } else {
      assert x.plan.Keys == {};
    }
  }

  lemma SavesAfter(d: Due, own: seq<Due>, wanted: nat)
    requires Sound(d) && Covers(d) && Outstanding(d) > 0 && d.amount > 0
    requires forall i :: 0 <= i < |own| ==> own[i] == Due(own[i].amount, 0, 0)
    ensures var paid := Account(map[0 := d.(received := d.amount - d.discount)], 1, {}, map[1 := PlannedFor(d, own, wanted)]);
            NeverOver(Next(Next(paid, Write(1, Save(0))), Finish(1)).dues) <==> Capped(d, wanted) <= d.discount
  {
    var e, x := d.(received := d.amount - d.discount), PlannedFor(d, own, wanted);
    SavesPlan(e, x);
    var y := x.(pending := {}, held := x.plan.Keys);
    var s := Account(map[0 := e], 1, {}, map[]);
    FinishesAlone(s, 1, y);
    assert With(s, 1, y).txns == map[1 := y];
    hide Next;
    SettlesOne(d, e, own, wanted, y);
  }

  lemma SettlesOne(d: Due, e: Due, own: seq<Due>, wanted: nat, y: Txn)
    requires Sound(d) && Outstanding(d) > 0 && d.amount > 0 && e == d.(received := d.amount - d.discount)
    requires forall i :: 0 <= i < |own| ==> own[i] == Due(own[i].amount, 0, 0)
    requires y == BLANK.(own := own, plan := PlannedFor(d, own, wanted).plan, held := PlannedFor(d, own, wanted).plan.Keys)
    ensures NeverOver(Settle(Account(map[0 := e], 1, {}, map[]), y)) <==> Capped(d, wanted) <= d.discount
  {
    var after := Settle(Account(map[0 := e], 1, {}, map[]), y);
    assert after[0] == e.(discount := Capped(d, wanted));
    forall c | c in after && c != 0 ensures Covers(after[c]) {
      assert after[c] == own[c - 1];
    }
  }

  // ------------------------------------------------------------------ transactions alone

  /** A payment that meets no other transaction is taken exactly if each line is at most what its charge still asks. */
  lemma AloneItPays(s: Account, t: nat, lines: map<nat, int>)
    requires s.txns == map[] && lines != map[]
    ensures var done := Next(Next(Next(Next(s, Begin(t)), LockLive(t)), Allocate(t, lines)), Commit(t));
            done == if forall c :: c in lines ==>
                         c in s.dues && 0 < lines[c] <= s.dues[c].amount - s.dues[c].discount - s.dues[c].received
                    then s.(dues := map c | c in s.dues ::
                              if c in lines then s.dues[c].(received := s.dues[c].received + lines[c]) else s.dues[c])
                    else s
  {
    hide Written;
    var locked := Next(Next(s, Begin(t)), LockLive(t));
    assert locked == s.(txns := map[t := Locking(s.dues.Keys)]);
    AloneAllocates(s, t, lines);
  }

  lemma AloneAllocates(s: Account, t: nat, lines: map<nat, int>)
    requires s.txns == map[] && lines != map[]
    ensures var done := Next(Next(s.(txns := map[t := Locking(s.dues.Keys)]), Allocate(t, lines)), Commit(t));
            done == if Fits(s.dues, lines) then s.(dues := Receive(s.dues, lines)) else s
  {
    hide Written, Receive;
    var locked := s.(txns := map[t := Locking(s.dues.Keys)]);
    assert locked.txns - {t} == map[];
    if Fits(s.dues, lines) {
      var taken := Next(locked, Allocate(t, lines));
      assert taken == s.(txns := map[t := Allocated(s.dues.Keys, lines)]);
      assert taken.txns - {t} == map[] && s.stray + (lines.Keys - s.dues.Keys) == s.stray;
    } else {
      assert Next(locked, Allocate(t, lines)) == s;
    }
  }

  /** A recompute of one charge that meets no other leaves what is wanted, but at most what is not received. */
  lemma AloneItDiscounts(s: Account, t: nat, c: nat, wanted: nat)
    requires s.txns == map[] && c in s.dues && c < s.nextCharge && s.dues[c].amount > 0
    ensures var read := Next(Next(s, BeginWrite(t)), Write(t, Read(map[c := wanted], map[])));
            var d := s.dues[c];
            var room := if d.amount - d.received > 0 then d.amount - d.received else 0;
            Next(Next(read, Write(t, Save(c))), Finish(t))
            == s.(dues := s.dues[c := d.(discount := if wanted < room then wanted else room)])
  {
    var d, to := s.dues[c], Capped(s.dues[c], wanted);
    var wants: map<nat, nat> := map[c := wanted];
    var plan: map<nat, int> := if to != d.discount then map[c := to] else map[];
    var x := BLANK.(plan := plan, pending := plan.Keys);
    hide Next, Settle, Recomputed;
    AlonePlans(s.dues, c, wanted);
    AloneReads(s, t, wants, x);
    AloneSaves(s, t, c, x);
    var y := x.(pending := {}, held := plan.Keys);
    FinishesAlone(s, t, y);
    assert With(s, t, y).txns == map[t := y];
    AloneSettles(s, c, to, y);
  }

  lemma AlonePlans(dues: map<nat, Due>, c: nat, wanted: nat)
    requires c in dues && dues[c].amount > 0
    ensures var to := Capped(dues[c], wanted);
            var plan: map<nat, int> := if to != dues[c].discount then map[c := to] else map[];
            Recomputed(dues, BLANK, map[c := wanted], map[]) == BLANK.(plan := plan, pending := plan.Keys)
  {
    var to := Capped(dues[c], wanted);
    var wants: map<nat, nat> := map[c := wanted];
    var plan: map<nat, int> := if to != dues[c].discount then map[c := to] else map[];
    AlonePlan(dues, c, wanted);
    hide PlanOf, Capped, Seen;
    assert OwnOf(BLANK.own, map[]) == [];
  }

  lemma AlonePlan(dues: map<nat, Due>, c: nat, wanted: nat)
    requires c in dues && dues[c].amount > 0
    ensures var to := Capped(dues[c], wanted);
            PlanOf(Seen(dues, BLANK), map[c := wanted]) == if to != dues[c].discount then map[c := to] else map[]
  {
    assert Seen(dues, BLANK) == dues;
    hide Seen, Capped;
  }

  lemma AloneReads(s: Account, t: nat, wants: map<nat, nat>, x: Txn)
    requires s.txns == map[] && x == Recomputed(s.dues, BLANK, wants, map[])
    ensures Next(Next(s, BeginWrite(t)), Write(t, Read(wants, map[]))) == s.(txns := map[t := x])
  {
    hide Recomputed;
    assert Next(s, BeginWrite(t)) == s.(txns := map[t := BLANK]);
  }

  lemma AloneSaves(s: Account, t: nat, c: nat, x: Txn)
    requires x.Writing? && x.held == {} && x.pending == x.plan.Keys && x.plan.Keys <= {c}
    ensures Next(s.(txns := map[t := x]), Write(t, Save(c))) == s.(txns := map[t := x.(pending := {}, held := x.plan.Keys)])
  {
    var at := s.(txns := map[t := x]);
    assert Unlocked(at, t, {c});
    if c in x.plan {
      assert x.plan.Keys == {c} && x.pending - {c} == {} && x.held + {c} == {c};
    } else {
      assert x.plan.Keys == {};
    }
  }

  lemma AloneSettles(s: Account, c: nat, to: int, y: Txn)
    requires c in s.dues && y.Writing? && y == BLANK.(plan := y.plan, held := y.held)
    requires y.plan == if to != s.dues[c].discount then map[c := to] else map[]
    ensures Settle(s, y) == s.dues[c := s.dues[c].(discount := to)] && |y.own| == 0
  {
  }
}
