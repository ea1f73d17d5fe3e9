/**
 The gate services as they run (apps/hostel/gate.py): each step assigns the fields of stored
 rows, proved against GateModel.
 */
module GateService {
  import opened Wrappers
  import opened Dates
  import opened MessModel
  import G = GateModel
  import L = LedgerModel
  import opened MessService

  class Gate {
    const mess: MessBook
    var passes: seq<G.Outpass>

    constructor (mess: MessBook)
      ensures this.mess == mess && passes == []
    {
      this.mess, passes := mess, [];
    }

    function Model(): G.State
      reads this, mess
    {
      G.State(passes, mess.Model())
    }

    /** A step took effect as the model says, or was refused and left no trace. */
    twostate predicate Did(new r: Result<()>, new to: Result<G.State>)
      reads this, mess
    {
      match to
      case Conflict => r.Conflict? && Model() == old(Model())
      case Ok(t) => r.Ok? && Model() == t
    }

    method RequestOutpass(student: nat, from: int, to: int, returnBy: int) returns (r: Result<()>)
      modifies this
      ensures Did(r, G.Request(old(Model()), student, from, to, returnBy))
    {
      if to < from {
        return Conflict;
      }
      if exists i :: 0 <= i < |passes| && passes[i].student == student && G.Active(passes[i])
                     && G.DatesMeet(passes[i].from, passes[i].to, from, to)
      {
        return Conflict;
      }
      passes := passes + [G.Outpass(student, from, to, returnBy, G.Requested, false)];
      r := Ok(());
    }

    method DecideOutpass(o: nat, approve: bool) returns (r: Result<()>)
      requires o < |passes|
      modifies this, mess`leaves, mess`nextLeave
      ensures Did(r, G.Decide(old(Model()), o, approve))
    {
      var p := passes[o];
      if p.status != G.Requested {
        return Conflict;
      }
      passes := passes[o := p.(status := if approve then G.Approved else G.Rejected)];
      if approve {
        var member := G.FindOpen(mess.members, p.student);
        if member.Some? && !G.LeaveMeets(mess.Model(), member.value, p.from, p.to) {
          var recorded := mess.Record(member.value, L.Max(p.from, mess.members[member.value].start), p.to, Some(o));
          if recorded.Conflict? {
            passes := passes[o := p];
            return Conflict;
          }
        }
      }
      r := Ok(());
    }

    method LeaveGate(o: nat) returns (r: Result<()>)
      requires o < |passes|
      modifies this
      ensures Did(r, G.GateOut(old(Model()), o))
    {
      if passes[o].status != G.Approved {
        return Conflict;
      }
      passes := passes[o := passes[o].(status := G.Out)];
      r := Ok(());
    }

    method EnterGate(o: nat, day: int, time: int) returns (r: Result<()>)
      requires o < |passes|
      modifies this, mess`leaves
      ensures Did(r, G.GateIn(old(Model()), o, day, time))
    {
      var p := passes[o];
      if p.status != G.Out {
        return Conflict;
      }
      passes := passes[o := p.(status := G.Returned, late := day > p.to || (day == p.to && time > p.returnBy))];
      var leave := G.FindTied(mess.leaves, o);
      if leave.Some? && day < mess.leaves[leave.value].to {
        var l := mess.leaves[leave.value];
        mess.leaves := mess.leaves[leave.value := l.(to := if day >= l.from then day else l.from)];
      }
      r := Ok(());
    }

    method CancelOutpass(o: nat) returns (r: Result<()>)
      requires o < |passes|
      modifies this, mess`leaves, mess`rebates
      ensures Did(r, G.Cancel(old(Model()), o))
    {
      if passes[o].status != G.Requested && passes[o].status != G.Approved {
        return Conflict;
      }
      passes := passes[o := passes[o].(status := G.Cancelled)];
      mess.rebates := G.WithoutRebates(mess.rebates, mess.leaves, o);
      mess.leaves := G.WithoutTied(mess.leaves, o);
      r := Ok(());
    }
  }
}
