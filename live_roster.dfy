/**
 * The roster as the handler holds it: one object whose arrays are changed
 * in place by `push`, `splice` and `caps[i] += 1` (api/discord.js:392-484).
 * Every method is proved to do to the fields exactly what the matching
 * function of RosterModel or Component does to a State value, so the
 * properties proved there carry over.
 */
module LiveRoster {
  import opened Wrappers
  import opened JsText
  import opened RosterModel
  import opened ComponentIds
  import opened Component
  import opened Variants

  /** `Array.prototype.indexOf`: the first position of x, or -1. */
  method IndexOf(xs: seq<UserId>, x: UserId) returns (pos: int)
    ensures -1 <= pos < |xs|
    ensures pos == -1 <==> x !in xs
    ensures pos >= 0 ==> xs[pos] == x && x !in xs[..pos]
  {
    pos := 0;
    while pos < |xs|
      invariant 0 <= pos <= |xs|
      invariant x !in xs[..pos]
    {
      if xs[pos] == x {
        return;
      }
      assert xs[..pos + 1] == xs[..pos] + [xs[pos]];
      pos := pos + 1;
    }
    assert xs[..pos] == xs;
    pos := -1;
  }

  /** `arr.splice(pos, 1)` at the first occurrence of x removes what RemoveFirst removes. */
  lemma SpliceFirst(xs: seq<UserId>, x: UserId, pos: nat)
    requires pos < |xs| && xs[pos] == x && x !in xs[..pos]
    ensures RemoveFirst(xs, x) == xs[..pos] + xs[pos + 1..]
  {
    forall k | 0 <= k < pos ensures xs[k] != x {
      assert xs[k] == xs[..pos][k];
    }
    SpliceAt(xs, x, pos);
  }

  lemma {:induction false} SpliceAt(xs: seq<UserId>, x: UserId, pos: nat)
    requires pos < |xs| && xs[pos] == x && forall k :: 0 <= k < pos ==> xs[k] != x
    ensures RemoveFirst(xs, x) == xs[..pos] + xs[pos + 1..]
    decreases pos
  {
    if pos > 0 {
      var t := xs[1..];
      SpliceAt(t, x, pos - 1);
      RemoveFirstPast(xs, x);
      SpliceCons(xs, pos);
    }
  }

  lemma RemoveFirstPast(xs: seq<UserId>, x: UserId)
    requires |xs| > 0 && xs[0] != x
    ensures RemoveFirst(xs, x) == [xs[0]] + RemoveFirst(xs[1..], x)
  {
  }

  lemma SpliceCons(xs: seq<UserId>, pos: nat)
    requires 0 < pos < |xs|
    ensures xs[..pos] + xs[pos + 1..] == [xs[0]] + (xs[1..][..pos - 1] + xs[1..][pos..])
  {
  }

  /** Leave, when the member was found at position pos: the splice there. */
  lemma LeaveAt(s: State, u: UserId, idx: int, pos: nat)
    requires WellFormed(s) && idx in s.members
    requires pos < |s.members[idx]| && s.members[idx][pos] == u && u !in s.members[idx][..pos]
    ensures var arr := s.members[idx];
            Leave(s, u, idx) == Outcome(State(s.title, s.caps[idx - 1 := s.caps[idx - 1] + 1],
                                              s.members[idx := arr[..pos] + arr[pos + 1..]],
                                              s.multi, s.ownerId), [])
  {
    var arr := s.members[idx];
    SpliceFirst(arr, u, pos);
    LeaveFoundShape(s, u, idx);
  }

  /** The second half of a move: u pushed into group t unless t is no group or already lists u. */
  function Landed(s: State, t: int, u: UserId): State
    requires WellFormed(s)
  {
    if t in s.members && u !in s.members[t] then
      s.(members := s.members[t := s.members[t] + [u]], caps := s.caps[t - 1 := s.caps[t - 1] - 1])
    else s
  }

  /** Move, once the source group holds the member: the leave, then the landing. */
  lemma MoveAt(s: State, u: UserId, f: int, t: int)
    requires WellFormed(s) && InGroup(s, f, u) && t != 0 && f != t
    requires !(1 <= t <= |s.caps| && s.caps[t - 1] <= 0)
    ensures Move(s, u, Some(f), Some(t)) == Outcome(Landed(Leave(s, u, f).next, t, u), [Moved(u, f, t)])
  {
  }

  /** One step of KickEach, seen from position i of the selected values. */
  lemma KickEachStep(s: State, values: seq<string>, i: nat)
    requires WellFormed(s) && i < |values|
    ensures var first := KickValue(s, values[i]);
            var rest := KickEach(first.next, values[i + 1..]);
            KickEach(s, values[i..]) == Outcome(rest.next, first.notices + rest.notices)
  {
    assert values[i..][1..] == values[i + 1..];
  }

  /** The loop invariant of Roster.KickAll, carried past one selected value. */
  lemma KickEachAdvance(total: Outcome, s: State, values: seq<string>, i: nat, done: seq<Notice>)
    requires WellFormed(s) && i < |values|
    requires total == Outcome(KickEach(s, values[i..]).next, done + KickEach(s, values[i..]).notices)
    ensures var first := KickValue(s, values[i]);
            var rest := KickEach(first.next, values[i + 1..]);
            total == Outcome(rest.next, (done + first.notices) + rest.notices)
  {
    KickEachStep(s, values, i);
    var first := KickValue(s, values[i]);
    OutcomeChain(total, KickEach(s, values[i..]), first, KickEach(first.next, values[i + 1..]), done);
  }

  /** Notices so far, then those of a run that splits into a first step and the rest. */
  lemma OutcomeChain(total: Outcome, whole: Outcome, first: Outcome, rest: Outcome, done: seq<Notice>)
    requires first.Outcome? && rest.Outcome?
    requires whole == Outcome(rest.next, first.notices + rest.notices)
    requires total == Outcome(whole.next, done + whole.notices)
    ensures total == Outcome(rest.next, (done + first.notices) + rest.notices)
  {
    assert done + (first.notices + rest.notices) == (done + first.notices) + rest.notices;
  }

  class Roster {
    var title: string
    var caps: seq<int>
    var members: map<int, seq<UserId>>
    var multi: bool
    var ownerId: UserId

    /** The roster's current value. */
    function Value(): State
      reads this
    {
      State(title, caps, members, multi, ownerId)
    }

    /** What a call reported: the throw, or the new value and the notices sent. */
    function Result(notices: seq<Notice>, fault: bool): Outcome
      reads this
    {
      if fault then Fault else Outcome(Value(), notices)
    }

    /** The object `JSON.parse` (or the fallback) produced. */
    constructor (s: State)
      ensures Value() == s
    {
      title, caps, members, multi, ownerId := s.title, s.caps, s.members, s.multi, s.ownerId;
    }

    /** `join_{idx}` pressed by u (api/discord.js:396-413). */
    method Join(u: UserId, idx: int) returns (notices: seq<Notice>, fault: bool)
      requires WellFormed(Value())
      modifies this
      ensures Result(notices, fault) == RosterModel.Join(old(Value()), u, idx)
      ensures fault ==> Value() == old(Value())
    {
      notices, fault := [], false;
      var myGroups := set g | g in members && u in members[g];
      if InAnyGroup(Value(), u) {
        var g :| g in members && u in members[g];
        assert g in myGroups;
      }
      if !InAnyGroup(Value(), u) {
        forall g ensures g !in myGroups {
          assert !(g in members && u in members[g]);
        }
        assert myGroups == {};
      }
      assert idx in myGroups <==> InGroup(Value(), idx, u);
      if !multi && myGroups != {} && idx !in myGroups {
        notices := [OtherGroupTaken];
      } else if 1 <= idx <= |caps| && caps[idx - 1] <= 0 {
        notices := [GroupFull(idx)];
      } else if idx !in members {
        // `arr.includes` on `undefined` throws
        fault := true;
      } else {
        var arr := members[idx];
        var pos := IndexOf(arr, u);
        if pos == -1 {
          members, caps := members[idx := arr + [u]], caps[idx - 1 := caps[idx - 1] - 1];
        } else {
          notices := [AlreadyIn(idx)];
        }
      }
    }

    /** `leave_{idx}` pressed by u (api/discord.js:414-422). */
    method Leave(u: UserId, idx: int) returns (notices: seq<Notice>, fault: bool)
      requires WellFormed(Value())
      modifies this
      ensures Result(notices, fault) == RosterModel.Leave(old(Value()), u, idx)
      ensures fault ==> Value() == old(Value())
    {
      notices, fault := [], false;
      if idx !in members {
        // `arr.indexOf` on `undefined` throws
        fault := true;
        return;
      }
      var arr := members[idx];
      var pos := IndexOf(arr, u);
      if pos == -1 {
        notices := [NotIn(idx)];
      } else {
        Vacate(u, idx, pos);
      }
    }

    /** One `kick:{g}:{uid}` value chosen in the kick select (api/discord.js:431-446). */
    method KickOne(v: string) returns (notices: seq<Notice>)
      requires WellFormed(Value())
      modifies this
      ensures Outcome(Value(), notices) == KickValue(old(Value()), v)
    {
      notices := [];
      match ParseKick(v) {
        case None =>
        case Some((g, u)) =>
          var arr := if g in members then members[g] else [];
          var pos := IndexOf(arr, u);
          if pos == -1 {
            notices := [NotInThatGroup];
          } else {
            assert g in members && InGroup(Value(), g, u);
            KickIsLeave(Value(), g, u);
            Vacate(u, g, pos);
            notices := [Kicked(u, g)];
          }
      }
    }

    /** Every value chosen in the kick select, in order. */
    method KickAll(values: seq<string>) returns (notices: seq<Notice>)
      requires WellFormed(Value())
      modifies this
      ensures Outcome(Value(), notices) == KickEach(old(Value()), values)
    {
      notices := [];
      var i := 0;
      while i < |values|
        invariant 0 <= i <= |values|
        invariant WellFormed(Value())
        invariant KickEach(old(Value()), values)
          == Outcome(KickEach(Value(), values[i..]).next, notices + KickEach(Value(), values[i..]).notices)
      {
        KickEachAdvance(KickEach(old(Value()), values), Value(), values, i, notices);
        var more := KickOne(values[i]);
        notices := notices + more;
        i := i + 1;
      }
    }

    /** `fromArr.splice(pos, 1)` and the freed seat: the leave half of a move. */
    method Vacate(u: UserId, f: int, pos: nat)
      requires WellFormed(Value()) && f in members
      requires pos < |members[f]| && members[f][pos] == u && u !in members[f][..pos]
      modifies this
      ensures Value() == RosterModel.Leave(old(Value()), u, f).next
    {
      LeaveAt(Value(), u, f, pos);
      var arr := members[f];
      members, caps := members[f := arr[..pos] + arr[pos + 1..]], caps[f - 1 := caps[f - 1] + 1];
    }

    /** The join half of a move: pushed into group t unless already listed there. */
    method Land(u: UserId, t: int)
      requires WellFormed(Value())
      modifies this
      ensures Value() == Landed(old(Value()), t, u)
    {
      if t in members {
        var toArr := members[t];
        var there := IndexOf(toArr, u);
        if there == -1 {
          members, caps := members[t := toArr + [u]], caps[t - 1 := caps[t - 1] - 1];
        }
      }
    }

    /** The second step of a move: u from group `from` to group `to` (api/discord.js:456-481). */
    method Move(u: UserId, from: Option<int>, to: Option<int>) returns (notices: seq<Notice>)
      requires WellFormed(Value())
      modifies this
      ensures Outcome(Value(), notices) == RosterModel.Move(old(Value()), u, from, to)
    {
      notices := [];
      // `toIdx && toIdx !== fromIdx`: NaN and 0 are falsy, and NaN differs from everything
      if to.None? || to.value == 0 || (from.Some? && from.value == to.value) {
        return;
      }
      var t := to.value;
      if 1 <= t <= |caps| && caps[t - 1] <= 0 {
        notices := [GroupFull(t)];
        return;
      }
      var fromArr := if from.Some? && from.value in members then members[from.value] else [];
      var pos := IndexOf(fromArr, u);
      if pos == -1 {
        notices := [NoLongerInSource];
        return;
      }
      assert from.Some? && from.value in members;
      notices := MoveFound(u, from.value, t, pos);
    }

    /** The move itself, once u was found at position pos of the source group f. */
    method MoveFound(u: UserId, f: int, t: int, pos: nat) returns (notices: seq<Notice>)
      requires WellFormed(Value()) && f in members && t != 0 && f != t
      requires !(1 <= t <= |caps| && caps[t - 1] <= 0)
      requires pos < |members[f]| && members[f][pos] == u && u !in members[f][..pos]
      modifies this
      ensures Outcome(Value(), notices) == RosterModel.Move(old(Value()), u, Some(f), Some(t))
    {
      assert InGroup(Value(), f, u);
      MoveAt(Value(), u, f, t);
      Vacate(u, f, pos);
      Land(u, t);
      notices := [Moved(u, f, t)];
    }

    /** The whole mutation block for one component interaction. */
    method Apply(v: Variant, customId: string, values: seq<string>, c: Caller) returns (notices: seq<Notice>, fault: bool)
      requires WellFormed(Value())
      modifies this
      ensures Result(notices, fault) == ApplyComponent(v, old(Value()), customId, values, c)
      ensures fault ==> Value() == old(Value())
    {
      notices, fault := [], false;
      match ParseButton(customId) {
        case Some(JoinGroup(i)) =>
          notices, fault := Join(c.id, i);
        case Some(LeaveGroup(i)) =>
          notices, fault := Leave(c.id, i);
        case None =>
          if StartsWith(customId, "admin_manage:") {
            if !HasAdmin(c, ownerId) {
              notices := [AdminOnly];
            } else {
              assert customId[12] == ':';
              var action := Split(customId, ':')[1];
              if action == "kick" {
                if v == Corrected {
                  notices := KickAll(values);
                } else if |values| > 0 {
                  notices := KickOne(values[0]);
                }
              } else if action == "pickmove" {
                if |values| > 0 && ParsePick(values[0]).Some? {
                  var (g, u) := ParsePick(values[0]).value;
                  notices := [ChooseDestination(u, g)];
                }
              } else if StartsWith(action, "to") {
                var (u, from) := ParseMoveTarget(customId);
                notices := Move(u, from, Destination(values));
              }
            }
          }
      }
    }
  }
}
