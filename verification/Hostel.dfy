/**
 The hostel services as they run (apps/hostel/services.py): allocating and vacating a bed with
 the fees and the mess membership that go with it, proved against HostelModel.
 */
module HostelService {
  import opened Wrappers
  import opened Dates
  import opened MessModel
  import H = HostelModel
  import G = GateModel
  import L = LedgerModel
  import opened MessService
  import FeesService

  class Hostel {
    const cfg: H.Config
    const mess: MessBook
    var allocs: seq<H.Allocation>
    var waits: seq<H.Wait>

    constructor (cfg: H.Config, mess: MessBook)
      ensures this.cfg == cfg && this.mess == mess && allocs == [] && waits == []
    {
      this.cfg, this.mess, allocs, waits := cfg, mess, [], [];
    }

    function Model(): H.State
      reads this, mess, mess.fees
    {
      H.State(mess.fees.Model(), mess.Model(), allocs, waits)
    }

    ghost predicate Linked()
      reads this, mess, mess.fees
    {
      mess.Linked() && mess.setup == cfg.setup
    }

    method Restore(s: H.State)
      modifies this, mess, mess.fees
      ensures Model() == s
    {
      allocs, waits := s.allocs, s.waits;
      mess.members, mess.leaves, mess.rebates, mess.nextLeave := s.book.members, s.book.leaves, s.book.rebates, s.book.nextLeave;
      mess.fees.Restore(s.ledger);
    }

    /** The loop of _post_hostel_fees: a charge for each month that months_between yields. */
    method PostMonths(alloc: H.Allocation, a: nat, amount: int, last: int) returns (ok: bool)
      requires Linked()
      modifies mess.fees
      ensures var ps := H.FeePostings(cfg, alloc, a, amount, H.MonthCount(MonthOf(alloc.checkIn), last));
              ok <==> L.PostAll(cfg.setup.fees, old(mess.fees.Model()), ps).Ok?
      ensures var ps := H.FeePostings(cfg, alloc, a, amount, H.MonthCount(MonthOf(alloc.checkIn), last));
              ok ==> L.PostAll(cfg.setup.fees, old(mess.fees.Model()), ps) == Ok(mess.fees.Model())
    {
      var first := MonthOf(alloc.checkIn);
      hide MonthOf, H.FeePosting, L.PostCharge, L.PostAll;
      var m, k := first, 0;
      ghost var ps := H.FeePostings(cfg, alloc, a, amount, H.MonthCount(first, last));
      ghost var s := mess.fees.Model();
      NoPostings(cfg.setup.fees, s, ps);
      while m <= last
        invariant m == first + k && 0 <= k <= |ps|
        invariant L.PostAll(cfg.setup.fees, s, ps[..k]) == Ok(mess.fees.Model())
      {
        assert ps[k] == H.FeePosting(cfg, alloc, a, amount, m);
        OnePosting(cfg.setup.fees, s, ps, k);
        var posted := mess.fees.Post(H.FeePosting(cfg, alloc, a, amount, m));
        if posted.Conflict? {
          FeesService.RefusedBatch(cfg.setup.fees, s, ps, k + 1);
          return false;
        }
        m, k := m + 1, k + 1;
      }
      assert ps[..k] == ps;
      ok := true;
    }

    method PostHostelFees(alloc: H.Allocation, a: nat) returns (ok: bool)
      requires Linked()
      modifies mess.fees
      ensures ok <==> H.PostFees(cfg, old(mess.fees.Model()), alloc, a).Ok?
      ensures ok ==> H.PostFees(cfg, old(mess.fees.Model()), alloc, a) == Ok(mess.fees.Model())
    {
      hide MonthOf, L.PostAll, H.BestRule;
      var rule := H.BestRule(cfg.rules(cfg.room(alloc.room).branch), cfg.room(alloc.room));
      if !cfg.setup.licensed || rule.None? {
        return true;
      }
      ok := PostMonths(alloc, a, rule.value.amount, H.LastMonth(cfg, alloc.checkIn));
    }

    method JoinMess(student: nat, room: nat, plan: PlanKind, start: int, a: nat) returns (ok: bool)
      requires Linked()
      modifies mess`members, mess`rebates, mess.fees
      ensures ok <==> H.Join(cfg, old(Model()), student, room, plan, start, a).Ok?
      ensures ok ==> H.Join(cfg, old(Model()), student, room, plan, start, a) == Ok(Model())
    {
      hide MonthOf, BillMonth;
      var block := cfg.messOf(cfg.room(room).block);
      if block.None? || G.FindOpen(mess.members, student).Some? {
        return true;
      }
      if cfg.messBranch(block.value) != cfg.setup.fees.branchOf(student) {
        return false;
      }
      var m := |mess.members|;
      mess.members := mess.members + [Member(block.value, Some(student), plan, start, None, Some(a))];
      if plan == Monthly {
        var billed := mess.BillMember(m, MonthOf(start));
        return billed.Ok?;
      }
      ok := true;
    }

    method Allocate(student: nat, room: nat, on: int, plan: PlanKind) returns (r: Result<nat>)
      requires Linked()
      modifies this, mess, mess.fees
      ensures match H.Allocate(cfg, old(Model()), student, room, on, plan)
              case Conflict => r.Conflict? && Model() == old(Model())
              case Ok(t) => r == Ok(|old(allocs)|) && Model() == t
    {
      hide MonthOf, BillMonth, H.PostFees, H.Join, H.MayTake;
      var saved := Model();
      if !H.MayTake(cfg, saved, student, room) {
        return Conflict;
      }
      var a, alloc := |allocs|, H.Allocation(student, room, on, None);
      allocs := allocs + [alloc];
      waits := H.Fulfil(waits, student, room);
      var ok := PostHostelFees(alloc, a);
      if ok {
        ok := JoinMess(student, room, plan, on, a);
      }
      if !ok {
        Restore(saved);
        return Conflict;
      }
      r := Ok(a);
    }

    /** The loop that ends the mess memberships which came with the bed. */
    method EndMemberships(a: nat, on: int) returns (ok: bool)
      requires Linked()
      modifies mess`members, mess.fees
      ensures ok <==> H.EndAll(cfg, old(Model()), a, on, |old(mess.members)|).Ok?
      ensures ok ==> H.EndAll(cfg, old(Model()), a, on, |old(mess.members)|) == Ok(Model())
    {
      ghost var s := Model();
      var n := |mess.members|;
      for i := 0 to n
        invariant |mess.members| == n
        invariant H.EndAll(cfg, s, a, on, i) == Ok(Model())
      {
        var m := mess.members[i];
        if m.allocation == Some(a) && m.end.None? {
          if on < m.start {
            RefusedEnd(cfg, s, a, on, i + 1);
            return false;
          }
          mess.members := mess.members[i := m.(end := Some(on))];
          if m.student.Some? && cfg.setup.licensed {
            var _ := mess.fees.CancelFutureCharges(m.student.value, L.Mess, H.MessPrefix(i), FirstDay(MonthOf(on) + 1));
          }
        }
      }
      ok := true;
    }

    method Vacate(a: nat, on: int) returns (r: Result<()>)
      requires Linked() && a < |allocs|
      modifies this, mess, mess.fees
      ensures match H.Vacate(cfg, old(Model()), a, on)
              case Conflict => r.Conflict? && Model() == old(Model())
              case Ok(t) => r.Ok? && Model() == t
    {
      hide MonthOf, H.EndAll, L.CancelFuture;
      var saved, alloc := Model(), allocs[a];
      if alloc.checkOut.Some? || on < alloc.checkIn {
        return Conflict;
      }
      allocs := allocs[a := alloc.(checkOut := Some(on))];
      if cfg.setup.licensed {
        var _ := mess.fees.CancelFutureCharges(alloc.student, L.Hostel, H.AllocPrefix(a), FirstDay(MonthOf(on) + 1));
      }
      var ok := EndMemberships(a, on);
      if !ok {
        Restore(saved);
        return Conflict;
      }
      waits := H.Offer(waits, alloc.room);
      r := Ok(());
    }
  }

  lemma NoPostings(fees: L.Config, s: L.State, ps: seq<L.Posting>)
    ensures L.PostAll(fees, s, ps[..0]) == Ok(s)
  {
  }

  lemma OnePosting(fees: L.Config, s: L.State, ps: seq<L.Posting>, k: nat)
    requires k < |ps| && L.PostAll(fees, s, ps[..k]).Ok?
    ensures L.PostAll(fees, s, ps[..k + 1])
            == match L.PostCharge(fees, L.PostAll(fees, s, ps[..k]).value, ps[k])
               case Conflict => Conflict
               case Ok(r) => Ok(r.0)
  {
    assert ps[..k + 1][..k] == ps[..k];
  }

  lemma {:induction false} RefusedEnd(cfg: H.Config, s: H.State, a: nat, on: int, n: nat)
    requires n <= |s.book.members| && H.EndAll(cfg, s, a, on, n).Conflict?
    ensures H.EndAll(cfg, s, a, on, |s.book.members|).Conflict?
    decreases |s.book.members| - n
  {
    if n < |s.book.members| {
      RefusedEnd(cfg, s, a, on, n + 1);
    }
  }
}
