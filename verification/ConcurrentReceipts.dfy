/** Receipts numbered at several counters at once (apps/fees/services.py). */
module ConcurrentReceipts {
  /*
   Transactions take steps in any order. A statement reads committed rows and the transaction's own;
   a row lock, and a row that has been inserted but not committed, keep others out until the end.
   */
  import L = LedgerModel
  import I = LedgerInvariants

  /** One run of numbers: a branch in a financial year. */
  type Series = (nat, int)

  datatype Txn =
    | Begun(series: Series)
    | Created(series: Series)               // inserted the counter row, at 0
    | Found(series: Series)                 // saw a committed counter row
    | Locked(series: Series, read: nat)
    | Numbered(series: Series, number: nat) // counter row saved and receipt inserted

  /** Committed counters and receipts, and the transactions under way. */
  datatype State = State(counters: map<Series, nat>, receipts: seq<(Series, nat)>, txns: map<nat, Txn>)

  datatype Event =
    | Begin(t: nat, series: Series)
    | GetOrCreate(t: nat)
    | Lock(t: nat)
    | Save(t: nat)
    | Commit(t: nat)
    | Abort(t: nat)

  const EMPTY := State(map[], [], map[])

  predicate Holds(x: Txn, series: Series) {
    x.series == series && (x.Created? || x.Locked? || x.Numbered?)
  }

  predicate Held(s: State, series: Series) {
    exists t :: t in s.txns && Holds(s.txns[t], series)
  }

  function With(s: State, t: nat, x: Txn): State {
    s.(txns := s.txns[t := x])
  }

  /** A step that cannot be taken now, because it would wait, changes nothing. */
  function Next(s: State, ev: Event): State {
    if ev.Begin? then
      if ev.t in s.txns then s else With(s, ev.t, Begun(ev.series))
    else if ev.t !in s.txns then s
    else
      var x := s.txns[ev.t];
      match ev
      case GetOrCreate(t) =>
        if !x.Begun? then s
        else if x.series in s.counters then With(s, t, Found(x.series))
        else if Held(s, x.series) then s
        else With(s, t, Created(x.series))
      case Lock(t) =>
        if x.Created? then With(s, t, Locked(x.series, 0))
        else if x.Found? && x.series in s.counters && !Held(s, x.series) then With(s, t, Locked(x.series, s.counters[x.series]))
        else s
      case Save(t) =>
        if x.Locked? then With(s, t, Numbered(x.series, x.read + 1)) else s
      case Commit(t) =>
        if x.Numbered? then State(s.counters[x.series := x.number], s.receipts + [(x.series, x.number)], s.txns - {t}) else s
      case Abort(t) => s.(txns := s.txns - {t})
  }

  function Run(events: seq<Event>): State {
    if events == [] then EMPTY else Next(Run(events[..|events| - 1]), events[|events| - 1])
  }

  /** The numbers given out in a series, in the order of commit. */
  function NumbersOf(receipts: seq<(Series, nat)>, series: Series): seq<nat> {
    if receipts == [] then []
    else
      var rest, r := NumbersOf(receipts[..|receipts| - 1], series), receipts[|receipts| - 1];
      if r.0 == series then rest + [r.1] else rest
  }

  /** What a transaction has read of its counter is still the last number committed. */
  predicate StillTrue(counters: map<Series, nat>, x: Txn) {
    (x.Created? ==> L.LastNumber(counters, x.series) == 0)
    && (x.Locked? ==> x.read == L.LastNumber(counters, x.series))
    && (x.Numbered? ==> x.number == L.LastNumber(counters, x.series) + 1)
  }

  /** At most one transaction holds a series' counter. */
  predicate Serialized(s: State) {
    (forall t, u :: t in s.txns && u in s.txns && t != u ==>
       !(Holds(s.txns[t], s.txns[t].series) && Holds(s.txns[u], s.txns[t].series)))
    && forall t :: t in s.txns ==> StillTrue(s.counters, s.txns[t])
  }

  ghost predicate GapFree(s: State) {
    forall series :: NumbersOf(s.receipts, series) == I.UpTo(L.LastNumber(s.counters, series))
  }

  lemma OneNumberMore(receipts: seq<(Series, nat)>, r: (Series, nat), series: Series)
    ensures NumbersOf(receipts + [r], series) == NumbersOf(receipts, series) + (if r.0 == series then [r.1] else [])
  {
    assert (receipts + [r])[..|receipts|] == receipts;
  }

  lemma OneMoreUpTo(n: nat)
    ensures I.UpTo(n + 1) == I.UpTo(n) + [n + 1]
  {
  }

  lemma CommitKeepsGapFree(s: State, t: nat)
    requires Serialized(s) && GapFree(s) && t in s.txns && s.txns[t].Numbered?
    ensures GapFree(Next(s, Commit(t)))
  {
    hide NumbersOf, I.UpTo;
    var x, after := s.txns[t], Next(s, Commit(t));
    assert StillTrue(s.counters, x);
    forall series ensures NumbersOf(after.receipts, series) == I.UpTo(L.LastNumber(after.counters, series)) {
      OneNumberMore(s.receipts, (x.series, x.number), series);
      OneMoreUpTo(L.LastNumber(s.counters, series));
    }
  }

  lemma NextSerialized(s: State, ev: Event)
    requires Serialized(s)
    ensures Serialized(Next(s, ev))
  {
    if ev.Lock? && ev.t in s.txns && s.txns[ev.t].Created? {
      assert Holds(s.txns[ev.t], s.txns[ev.t].series);
    } else if ev.Commit? && ev.t in s.txns && s.txns[ev.t].Numbered? {
      assert Holds(s.txns[ev.t], s.txns[ev.t].series);
    }
  }

  lemma NextKeeps(s: State, ev: Event)
    requires Serialized(s) && GapFree(s)
    ensures Serialized(Next(s, ev)) && GapFree(Next(s, ev))
  {
    NextSerialized(s, ev);
    hide GapFree, Serialized;
    if ev.Commit? && ev.t in s.txns && s.txns[ev.t].Numbered? {
      CommitKeepsGapFree(s, ev.t);
    } else {
      SameReceipts(s, Next(s, ev));
    }
  }

  lemma SameReceipts(s: State, t: State)
    requires GapFree(s) && t.receipts == s.receipts && t.counters == s.counters
    ensures GapFree(t)
  {
  }

  /** Under every interleaving, the receipts committed in a series are numbered 1, 2, ... up to its counter. */
  lemma {:induction false} NumbersAreGapFree(events: seq<Event>)
    ensures Serialized(Run(events)) && GapFree(Run(events))
  {
    if events != [] {
      NumbersAreGapFree(events[..|events| - 1]);
      NextKeeps(Run(events[..|events| - 1]), events[|events| - 1]);
    }
  }

  /** A receipt that meets no other transaction takes the number after the last, creating the counter if need be. */
  lemma AloneItTakesTheNext(s: State, t: nat, series: Series)
    requires s.txns == map[]
    ensures var locked := Next(Next(Next(s, Begin(t, series)), GetOrCreate(t)), Lock(t));
            var n := L.LastNumber(s.counters, series) + 1;
            Next(Next(locked, Save(t)), Commit(t)) == State(s.counters[series := n], s.receipts + [(series, n)], map[])
  {
    assert forall x: Txn :: map[t := x] - {t} == map[];
  }
}
