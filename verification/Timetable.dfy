/**
 The timetable services as they run (apps/timetable/services.py): the grid is a field that
 placing, moving and confirming update, proved against TimetableModel.
 */
module TimetableService {
  import opened Wrappers
  import opened Text
  import opened TimetableModel

  datatype Candidate = Candidate(staff: nat, name: string, sameSubject: bool, periods: nat)

  /** The sort key of suggest(): same subject first, then fewest periods that day, then name. */
  predicate KeyAtMost(a: Candidate, b: Candidate) {
    if a.sameSubject != b.sameSubject then a.sameSubject
    else if a.periods != b.periods then a.periods < b.periods
    else a.name == b.name || Before(a.name, b.name)
  }

  lemma KeyTotal(a: Candidate, b: Candidate)
    ensures KeyAtMost(a, b) || KeyAtMost(b, a)
  {
    BeforeTotal(a.name, b.name);
  }

  lemma KeyTransitive(a: Candidate, b: Candidate, c: Candidate)
    requires KeyAtMost(a, b) && KeyAtMost(b, c)
    ensures KeyAtMost(a, c)
  {
    hide Before;
    if a.name != b.name && b.name != c.name && Before(a.name, b.name) && Before(b.name, c.name) {
      BeforeTransitive(a.name, b.name, c.name);
    }
  }

  predicate Ranked(cs: seq<Candidate>) {
    forall i, j :: 0 <= i < j < |cs| ==> KeyAtMost(cs[i], cs[j])
  }

  /** Where a candidate goes: after all those that may precede it. */
  function RankPosition(cs: seq<Candidate>, c: Candidate): (i: nat)
    ensures i <= |cs|
    ensures forall j :: 0 <= j < i ==> KeyAtMost(cs[j], c)
    ensures i < |cs| ==> KeyAtMost(c, cs[i])
  {
    if cs == [] then 0
    else if KeyAtMost(cs[0], c) then 1 + RankPosition(cs[1..], c)
    else
      KeyTotal(cs[0], c);
      0
  }

  lemma InsertRanked(cs: seq<Candidate>, c: Candidate)
    requires Ranked(cs)
    ensures var i := RankPosition(cs, c);
            Ranked(cs[..i] + [c] + cs[i..])
  {
    hide KeyAtMost;
    var i := RankPosition(cs, c);
    if i < |cs| {
      forall j | i < j < |cs| ensures KeyAtMost(c, cs[j]) {
        KeyTransitive(c, cs[i], cs[j]);
      }
    }
  }

  class Timetable {
    const cfg: Config
    var entries: map<nat, Entry>
    var nextEntry: nat
    var subs: map<(nat, int), nat>
    var branches: map<nat, nat>

    /** Every period has a branch. */
    predicate Valid()
      reads this
    {
      branches.Keys == entries.Keys
    }

    constructor (cfg: Config)
      ensures this.cfg == cfg && Model() == EMPTY && Valid()
    {
      this.cfg, entries, nextEntry, subs, branches := cfg, map[], 0, map[], map[];
    }

    function Model(): State
      reads this
    {
      State(entries, nextEntry, subs, branches)
    }

    method PlacePeriod(section: nat, day: int, slot: nat, assignment: nat, room: Option<nat>, entry: Option<nat>)
      returns (r: Result<nat>)
      requires Valid() && (entry.Some? ==> entry.value in entries)
      modifies this`entries, this`nextEntry, this`branches
      ensures Valid()
      ensures match TimetableModel.Place(cfg, old(Model()), Entry(section, day, slot, assignment, room), entry)
              case Conflict => r.Conflict? && Model() == old(Model())
              case Ok(t) => r == Ok(if entry.Some? then entry.value else old(nextEntry)) && Model() == t
    {
      hide TeacherWeek, AssignmentWeek, TeacherDay, RoomDay, Busy, Taken, Without;
      var a, s := cfg.assignment(assignment), cfg.slot(slot);
      if a.section != section {
        return Conflict;
      }
      if cfg.scheduleFor(section) != Some(s.schedule) || s.isBreak || day !in s.weekdays {
        return Conflict;
      }
      if Taken(entries, section, day, slot, entry) {
        return Conflict;
      }
      if Busy(cfg, entries, TeacherDay(cfg, entries, a.staff, day), slot, entry) {
        return Conflict;
      }
      if room.Some? && Busy(cfg, entries, RoomDay(entries, room.value, day), slot, entry) {
        return Conflict;
      }
      if |Without(TeacherWeek(cfg, entries, a.staff), entry)| >= cfg.maxPeriods(a.staff) {
        return Conflict;
      }
      if a.periodsPerWeek != 0 && |Without(AssignmentWeek(entries, assignment), entry)| >= a.periodsPerWeek {
        return Conflict;
      }
      var e := Entry(section, day, slot, assignment, room);
      if entry.None? {
        entries := entries[nextEntry := e];
        branches := branches[nextEntry := cfg.branchOf(section)];
        r := Ok(nextEntry);
        nextEntry := nextEntry + 1;
      } else {
        entries := entries[entry.value := e];
        r := Ok(entry.value);
      }
    }

    /** Free teachers for a period on a date, best first. */
    method Suggest(entry: nat, on: int, teachers: seq<nat>, absent: set<nat>, subjectTeachers: set<nat>, name: nat -> string)
      returns (r: Result<seq<Candidate>>)
      requires Valid() && entry in entries
      ensures r.Conflict? <==> entries[entry].day != Weekday(on)
      ensures r.Ok? ==> Ranked(r.value)
      ensures r.Ok? ==>
                forall i, j :: 0 <= i < j < |r.value| ==>
                  var a, b := r.value[i], r.value[j];
                  (b.sameSubject ==> a.sameSubject)
                  && (a.sameSubject == b.sameSubject ==>
                        a.periods < b.periods || (a.periods == b.periods && (a.name == b.name || Before(a.name, b.name))))
      ensures r.Ok? ==> forall t :: (exists c :: c in r.value && c.staff == t) <==> t in teachers && Free(cfg, Model(), entry, on, absent, t)
      ensures r.Ok? ==> forall c :: c in r.value ==>
                c.name == name(c.staff) && c.sameSubject == (c.staff in subjectTeachers)
                && c.periods == |OwnIn(cfg, Model(), branches[entry], c.staff, entries[entry].day)|
                             + |CoveringIn(Model(), branches[entry], c.staff, on)|
    {
      var e := entries[entry];
      if e.day != Weekday(on) {
        return Conflict;
      }
      var s, branch := Model(), branches[entry];
      var out: seq<Candidate> := [];
      for i := 0 to |teachers|
        invariant Ranked(out)
        invariant forall t :: Listed(out, t) <==> t in teachers[..i] && Free(cfg, s, entry, on, absent, t)
        invariant forall c :: c in out ==>
                    c.name == name(c.staff) && c.sameSubject == (c.staff in subjectTeachers)
                    && c.periods == |OwnIn(cfg, s, branch, c.staff, e.day)| + |CoveringIn(s, branch, c.staff, on)|
      {
        hide OwnIn, CoveringIn, Busy, Ranked, KeyAtMost;
        var t := teachers[i];
        assert teachers[..i + 1] == teachers[..i] + [t];
        var own, covering := OwnIn(cfg, s, branch, t, e.day), CoveringIn(s, branch, t, on);
        if cfg.home(t) == branch && t !in absent && t != StaffOf(cfg, e)
           && !Busy(cfg, entries, own, e.slot, None) && !Busy(cfg, entries, covering, e.slot, None)
        {
          var c := Candidate(t, name(t), t in subjectTeachers, |own| + |covering|);
          var p := RankPosition(out, c);
          InsertRanked(out, c);
          InsertedMembers(out, c, p);
          out := out[..p] + [c] + out[p..];
        }
      }
      assert teachers[..|teachers|] == teachers;
      assert forall t :: Listed(out, t) <==> exists c :: c in out && c.staff == t;
      r := Ok(out);
    }

    method ConfirmSubstitute(entry: nat, on: int, teachers: seq<nat>, absent: set<nat>, subjectTeachers: set<nat>,
                             name: nat -> string, staff: nat) returns (r: Result<()>)
      requires Valid() && entry in entries
      modifies this`subs
      ensures Valid()
      ensures match Confirm(cfg, old(Model()), entry, on, (set t | t in teachers), absent, staff)
              case Conflict => r.Conflict? && Model() == old(Model())
              case Ok(t) => r.Ok? && Model() == t
    {
      var offered := Suggest(entry, on, teachers, absent, subjectTeachers, name);
      hide Free, OwnIn, CoveringIn, Ranked;
      if offered.Conflict? || !(exists c :: c in offered.value && c.staff == staff) {
        return Conflict;
      }
      subs := subs[(entry, on) := staff];
      r := Ok(());
    }
  }

  predicate Listed(cs: seq<Candidate>, staff: nat) {
    exists c :: c in cs && c.staff == staff
  }

  lemma InsertedMembers(cs: seq<Candidate>, c: Candidate, p: nat)
    requires p <= |cs|
    ensures forall x :: x in cs[..p] + [c] + cs[p..] <==> x in cs || x == c
    ensures forall t :: Listed(cs[..p] + [c] + cs[p..], t) <==> Listed(cs, t) || t == c.staff
  {
    var all := cs[..p] + [c] + cs[p..];
    assert cs == cs[..p] + cs[p..];
    assert forall x :: x in all <==> x in cs || x == c;
    forall t ensures Listed(all, t) <==> Listed(cs, t) || t == c.staff {
      assert c in all;
    }
  }
}
