/**
 * The sign-up roster kept in one Discord message (api/discord.js): numbered
 * groups, each with a remaining-seat counter and an ordered member list, and
 * the rules by which join, leave, kick and move change it.  Everything here is
 * a value; `LiveRoster` updates the same state in place.
 */
module RosterModel {
  import opened Wrappers

  type UserId = string

  /**
   * `{ title, caps, members, multi, ownerId }`: `caps[g-1]` is the number of
   * seats still free in group g, `members[g]` its members in joining order
   * (the source's object key `String(g)`).  The `messageId` the handler adds
   * is dropped by the encoder and is not part of the roster.
   */
  datatype State = State(
    title: string,
    caps: seq<int>,
    members: map<int, seq<UserId>>,
    multi: bool,
    ownerId: UserId)

  /** The one who pressed the button, and the permission bits Discord sent along (absent outside a guild). */
  datatype Caller = Caller(id: UserId, permissions: Option<nat>)

  /** The ephemeral follow-up messages a mutation sends to the caller. */
  datatype Notice =
    | OtherGroupTaken
    | GroupFull(g: int)
    | AlreadyIn(g: int)
    | NotIn(g: int)
    | AdminOnly
    | Kicked(uid: UserId, g: int)
    | NotInThatGroup
    | ChooseDestination(uid: UserId, from: int)
    | NoLongerInSource
    | Moved(uid: UserId, from: int, to: int)
    | SystemBusy

  /**
   * The result of running the mutation block: the roster it leaves and the
   * notices it sent, or `Fault` when it throws (a `TypeError` on a group that
   * does not exist), in which case nothing is written back.
   */
  datatype Outcome = Outcome(next: State, notices: seq<Notice>) | Fault

  predicate IsGroup(s: State, g: int) { 1 <= g <= |s.caps| }

  /** The member map has exactly the keys 1..|caps|, as every roster the handler builds does. */
  ghost predicate WellFormed(s: State) {
    forall g :: g in s.members <==> IsGroup(s, g)
  }

  predicate CapsNonNegative(s: State) {
    forall i :: 0 <= i < |s.caps| ==> s.caps[i] >= 0
  }

  predicate Distinct(xs: seq<UserId>) {
    forall i, j :: 0 <= i < j < |xs| ==> xs[i] != xs[j]
  }

  predicate NoDuplicates(s: State) {
    forall g :: g in s.members ==> Distinct(s.members[g])
  }

  predicate InGroup(s: State, g: int, u: UserId) {
    g in s.members && u in s.members[g]
  }

  predicate InAnyGroup(s: State, u: UserId) {
    exists g :: g in s.members && u in s.members[g]
  }

  /** Without the "multiple groups" option a user is in at most one group. */
  predicate SingleMembership(s: State) {
    !s.multi ==>
      forall g, h, u :: g in s.members && h in s.members && u in s.members[g] && u in s.members[h] ==> g == h
  }

  /** The safety invariant every mutation keeps. */
  ghost predicate Inv(s: State) {
    WellFormed(s) && CapsNonNegative(s) && NoDuplicates(s) && SingleMembership(s)
  }

  /** Seats of group g: free ones plus taken ones. */
  function Seats(s: State, g: int): int
    requires WellFormed(s) && IsGroup(s, g)
  {
    s.caps[g - 1] + |s.members[g]|
  }

  /**
   * `t` is `s` after a mutation: the same title, mode, owner and groups, and
   * in every group the free seats plus the members add up as before.
   */
  ghost predicate Conserves(s: State, t: State)
    requires WellFormed(s)
  {
    && t.title == s.title && t.multi == s.multi && t.ownerId == s.ownerId
    && |t.caps| == |s.caps| && WellFormed(t)
    && forall g :: IsGroup(s, g) ==> Seats(t, g) == Seats(s, g)
  }

  /** `hasAdmin`: the caller is the (non-empty) owner, or holds the Administrator bit 0x8. */
  predicate HasAdmin(c: Caller, ownerId: UserId) {
    (c.id != "" && ownerId != "" && c.id == ownerId)
    || (c.permissions.Some? && c.permissions.value / 8 % 2 == 1)
  }

  /** `arr.splice(arr.indexOf(x), 1)` when `x` is present; the list unchanged otherwise. */
  function RemoveFirst(xs: seq<UserId>, x: UserId): (r: seq<UserId>)
    ensures multiset(r) == multiset(xs) - multiset{x}
    ensures x !in xs ==> r == xs
  {
    if xs == [] then []
    else
      assert xs == [xs[0]] + xs[1..];
      if xs[0] == x then xs[1..] else [xs[0]] + RemoveFirst(xs[1..], x)
  }

  /** The member is gone, every other member stays, and no duplicate appears. */
  lemma RemoveFirstDistinct(xs: seq<UserId>, x: UserId)
    requires Distinct(xs)
    ensures x in xs ==> |RemoveFirst(xs, x)| == |xs| - 1
    ensures x !in RemoveFirst(xs, x) && Distinct(RemoveFirst(xs, x))
    ensures forall y :: y != x ==> (y in RemoveFirst(xs, x) <==> y in xs)
  {
    var r := RemoveFirst(xs, x);
    DistinctCounts(xs);
    assert multiset(xs)[x] <= 1;
    assert multiset(r)[x] == 0;
    forall y | y != x ensures y in r <==> y in xs {
      assert multiset(r)[y] == multiset(xs)[y];
    }
    forall i, j | 0 <= i < j < |r| ensures r[i] != r[j] {
      CountsDistinct(r, i, j);
    }
    if x in xs {
      assert |multiset(r)| == |multiset(xs)| - 1;
    }
  }

  lemma {:induction false} DistinctCounts(xs: seq<UserId>)
    requires Distinct(xs)
    ensures forall y :: multiset(xs)[y] <= 1
  {
    if xs != [] {
      assert xs == [xs[0]] + xs[1..];
      assert Distinct(xs[1..]);
      DistinctCounts(xs[1..]);
      assert xs[0] !in xs[1..];
    }
  }

  lemma CountsDistinct(xs: seq<UserId>, i: int, j: int)
    requires 0 <= i < j < |xs|
    ensures xs[i] == xs[j] ==> multiset(xs)[xs[i]] >= 2
  {
    assert xs == xs[..i] + [xs[i]] + xs[i + 1..j] + [xs[j]] + xs[j + 1..];
  }

  /** A user not yet listed can be appended without creating a duplicate. */
  lemma AppendDistinct(xs: seq<UserId>, u: UserId)
    requires Distinct(xs) && u !in xs
    ensures Distinct(xs + [u])
  {
  }

  // ---------------------------------------------------------------- join

  /**
   * `join_{idx}`: refused when the user already sits in another group and
   * several groups are not allowed, then when group idx has no free seat,
   * then when the user is already in it; otherwise the user is appended and
   * one seat is taken.  A group that does not exist makes the source throw.
   */
  function Join(s: State, u: UserId, idx: int): (o: Outcome)
    requires WellFormed(s)
    ensures o.Outcome? ==> WellFormed(o.next)
  {
    if !s.multi && InAnyGroup(s, u) && !InGroup(s, idx, u) then Outcome(s, [OtherGroupTaken])
    else if IsGroup(s, idx) && s.caps[idx - 1] <= 0 then Outcome(s, [GroupFull(idx)])
    else if idx !in s.members then Fault
    else if u in s.members[idx] then Outcome(s, [AlreadyIn(idx)])
    else Outcome(s.(members := s.members[idx := s.members[idx] + [u]],
                    caps := s.caps[idx - 1 := s.caps[idx - 1] - 1]), [])
  }

  /**
   * Join changes the roster exactly when the group exists, has a free seat,
   * does not list the user yet, and the user is allowed in (several groups
   * allowed, or in no group yet); then the user is the group's last member,
   * one seat fewer is free, and no other group changes.  Out of range, the
   * source throws unless the user is refused for being in another group.
   */
  lemma JoinEffect(s: State, u: UserId, idx: int)
    requires WellFormed(s)
    ensures Join(s, u, idx) == Fault <==> !IsGroup(s, idx) && (s.multi || !InAnyGroup(s, u))
    ensures Join(s, u, idx).Outcome? && Join(s, u, idx).next != s
        <==> IsGroup(s, idx) && s.caps[idx - 1] > 0 && u !in s.members[idx] && (s.multi || !InAnyGroup(s, u))
    ensures Join(s, u, idx).Outcome? && Join(s, u, idx).next != s ==>
      var t := Join(s, u, idx).next;
      && t.members[idx] == s.members[idx] + [u]
      && t.caps[idx - 1] == s.caps[idx - 1] - 1
      && (forall g :: g in s.members && g != idx ==> t.members[g] == s.members[g] && t.caps[g - 1] == s.caps[g - 1])
  {
    var o := Join(s, u, idx);
    if IsGroup(s, idx) && s.caps[idx - 1] > 0 && u !in s.members[idx] && (s.multi || !InAnyGroup(s, u)) {
      assert |o.next.members[idx]| == |s.members[idx]| + 1;
    }
  }

  lemma JoinKeepsInv(s: State, u: UserId, idx: int)
    requires Inv(s)
    ensures Join(s, u, idx).Outcome? ==> Inv(Join(s, u, idx).next) && Conserves(s, Join(s, u, idx).next)
  {
    var o := Join(s, u, idx);
    if o.Outcome? && o.next != s {
      var t := o.next;
      assert !s.multi ==> !InAnyGroup(s, u);
      AppendDistinct(s.members[idx], u);
      forall g | IsGroup(s, g) ensures Seats(t, g) == Seats(s, g) {
        if g == idx {
          assert |t.members[g]| == |s.members[g]| + 1;
        }
      }
      if !s.multi {
        forall g, h, v | g in t.members && h in t.members && v in t.members[g] && v in t.members[h]
          ensures g == h
        {
          if v == u {
            assert forall k :: k in s.members ==> u !in s.members[k];
            assert g == idx && h == idx;
          } else {
            assert v in s.members[g] && v in s.members[h];
          }
        }
      }
    }
  }

  // ---------------------------------------------------------------- leave

  /** `leave_{idx}`: the user's entry is removed and a seat freed; a user not in the group is told so. */
  function Leave(s: State, u: UserId, idx: int): (o: Outcome)
    requires WellFormed(s)
    ensures o.Outcome? ==> WellFormed(o.next)
  {
    if idx !in s.members then Fault
    else if u !in s.members[idx] then Outcome(s, [NotIn(idx)])
    else Outcome(s.(members := s.members[idx := RemoveFirst(s.members[idx], u)],
                    caps := s.caps[idx - 1 := s.caps[idx - 1] + 1]), [])
  }

  /**
   * Leave changes the roster exactly when the user is in the group; then the
   * user is no longer in it and one more seat is free.  A second leave right
   * after a successful one changes nothing and only reports "not in group".
   */
  lemma LeaveEffect(s: State, u: UserId, idx: int)
    requires Inv(s)
    ensures Leave(s, u, idx) == Fault <==> !IsGroup(s, idx)
    ensures Leave(s, u, idx).Outcome? && Leave(s, u, idx).next != s <==> InGroup(s, idx, u)
    ensures InGroup(s, idx, u) ==>
      var t := Leave(s, u, idx).next;
      && u !in t.members[idx]
      && t.caps[idx - 1] == s.caps[idx - 1] + 1
      && Leave(t, u, idx) == Outcome(t, [NotIn(idx)])
  {
    if InGroup(s, idx, u) {
      RemoveFirstDistinct(s.members[idx], u);
      var t := Leave(s, u, idx).next;
      assert |t.members[idx]| < |s.members[idx]|;
    }
  }

  lemma LeaveKeepsInv(s: State, u: UserId, idx: int)
    requires Inv(s)
    ensures Leave(s, u, idx).Outcome? ==> Inv(Leave(s, u, idx).next) && Conserves(s, Leave(s, u, idx).next)
  {
    var o := Leave(s, u, idx);
    if o.Outcome? && InGroup(s, idx, u) {
      RemoveFirstDistinct(s.members[idx], u);
      var t := o.next;
      assert forall g, v :: g in t.members && v in t.members[g] ==> v in s.members[g];
    }
  }

  /** Leaving right after a successful join restores the roster exactly. */
  lemma {:induction false} JoinThenLeave(s: State, u: UserId, idx: int)
    requires WellFormed(s)
    requires Join(s, u, idx).Outcome? && Join(s, u, idx).next != s
    ensures WellFormed(Join(s, u, idx).next)
    ensures Leave(Join(s, u, idx).next, u, idx) == Outcome(s, [])
  {
    var t := Join(s, u, idx).next;
    JoinEffect(s, u, idx);
    RemoveFirstAppended(s.members[idx], u);
    assert t.members[idx := s.members[idx]] == s.members;
    assert t.caps[idx - 1 := s.caps[idx - 1]] == s.caps;
  }

  lemma {:induction false} RemoveFirstAppended(xs: seq<UserId>, u: UserId)
    requires u !in xs
    ensures RemoveFirst(xs + [u], u) == xs
  {
    if xs != [] {
      assert (xs + [u])[1..] == xs[1..] + [u];
      RemoveFirstAppended(xs[1..], u);
    }
  }

  // ---------------------------------------------------------------- kick

  /**
   * `kick:{g}:{uid}` (admin only, checked by the caller): the user leaves
   * group g only; a user not listed there is reported, nothing changes.
   */
  function Kick(s: State, g: int, u: UserId): (o: Outcome)
    requires WellFormed(s)
    ensures o.Outcome? && WellFormed(o.next) && o.next.members.Keys == s.members.Keys
  {
    if !InGroup(s, g, u) then Outcome(s, [NotInThatGroup])
    else Outcome(s.(members := s.members[g := RemoveFirst(s.members[g], u)],
                    caps := s.caps[g - 1 := s.caps[g - 1] + 1]), [Kicked(u, g)])
  }

  /** Kicking never throws, and does to the roster exactly what the user leaving group g would. */
  lemma KickIsLeave(s: State, g: int, u: UserId)
    requires WellFormed(s)
    ensures Kick(s, g, u).Outcome?
    ensures IsGroup(s, g) ==> Kick(s, g, u).next == Leave(s, u, g).next
    ensures !IsGroup(s, g) ==> Kick(s, g, u) == Outcome(s, [NotInThatGroup])
  {
  }

  /** With no duplicates, a kick removes exactly the pair (g, u) from the roster's memberships. */
  lemma KickMembership(s: State, g: int, u: UserId)
    requires Inv(s)
    ensures forall h, v :: InGroup(Kick(s, g, u).next, h, v) <==> InGroup(s, h, v) && (h, v) != (g, u)
  {
    if InGroup(s, g, u) {
      RemoveFirstDistinct(s.members[g], u);
    }
  }

  /** Conservation composes along a sequence of mutations. */
  lemma ConservesTrans(s: State, t: State, w: State)
    requires WellFormed(s) && Conserves(s, t) && Conserves(t, w)
    ensures Conserves(s, w)
  {
    forall g | IsGroup(s, g) ensures Seats(w, g) == Seats(s, g) {
      assert IsGroup(t, g);
    }
  }

  lemma KickKeepsInv(s: State, g: int, u: UserId)
    requires Inv(s)
    ensures Inv(Kick(s, g, u).next) && Conserves(s, Kick(s, g, u).next)
  {
    LeaveKeepsInv(s, u, g);
  }

  // ---------------------------------------------------------------- move

  /**
   * Second step of "move": user `u` from group `from` to group `to`, both as
   * read back from the select (`None` is `NaN`).  Nothing happens without a
   * destination or when it is the source; a full destination and a user no
   * longer in the source are reported.  Otherwise the user leaves the source
   * (freeing a seat there) and is appended to the destination (taking a seat)
   * unless already listed there.  A destination outside 1..|caps| is pushed
   * into a throw-away array: the user then ends up in no group.
   */
  function Move(s: State, u: UserId, from: Option<int>, to: Option<int>): (o: Outcome)
    requires WellFormed(s)
    ensures o.Outcome? && WellFormed(o.next)
  {
    if to.None? || to.value == 0 || (from.Some? && from.value == to.value) then Outcome(s, [])
    else if IsGroup(s, to.value) && s.caps[to.value - 1] <= 0 then Outcome(s, [GroupFull(to.value)])
    else if from.None? || !InGroup(s, from.value, u) then Outcome(s, [NoLongerInSource])
    else
      var f, t := from.value, to.value;
      var left := s.(members := s.members[f := RemoveFirst(s.members[f], u)],
                     caps := s.caps[f - 1 := s.caps[f - 1] + 1]);
      var landed :=
        if t in left.members && u !in left.members[t] then
          left.(members := left.members[t := left.members[t] + [u]],
                caps := left.caps[t - 1 := left.caps[t - 1] - 1])
        else left;
      Outcome(landed, [Moved(u, f, t)])
  }

  /**
   * Move is all or nothing: when the user is not in the source group, or the
   * destination is full, or there is no real destination, neither group nor
   * any seat count changes.
   */
  lemma MoveAtomic(s: State, u: UserId, from: Option<int>, to: Option<int>)
    requires WellFormed(s)
    requires || to.None? || to.value == 0 || from == to
             || (IsGroup(s, to.value) && s.caps[to.value - 1] <= 0)
             || from.None? || !InGroup(s, from.value, u)
    ensures Move(s, u, from, to).next == s
  {
  }

  /**
   * An in-range move of a user listed in the source and not yet in the
   * destination is the user leaving the source and then joining the
   * destination.
   */
  lemma MoveIsLeaveThenJoin(s: State, u: UserId, f: int, t: int)
    requires Inv(s)
    requires IsGroup(s, t) && t != f && s.caps[t - 1] > 0
    requires InGroup(s, f, u) && u !in s.members[t]
    ensures
      var left := Leave(s, u, f).next;
      && WellFormed(left)
      && Move(s, u, Some(f), Some(t)).next == Join(left, u, t).next
  {
    LeaveFoundShape(s, u, f);
    var left := Leave(s, u, f).next;
    RemoveFirstDistinct(s.members[f], u);
    if !s.multi {
      NowInNoGroup(s, u, f, left);
    }
    JoinPushes(left, u, t);
  }

  /** Leaving a group the user is in takes their first entry out and frees one seat. */
  lemma LeaveFoundShape(s: State, u: UserId, f: int)
    requires WellFormed(s) && InGroup(s, f, u)
    ensures Leave(s, u, f) == Outcome(s.(members := s.members[f := RemoveFirst(s.members[f], u)],
                                         caps := s.caps[f - 1 := s.caps[f - 1] + 1]), [])
  {
  }

  /** A join that is let in appends the user and takes one seat. */
  lemma JoinPushes(s: State, u: UserId, idx: int)
    requires WellFormed(s) && IsGroup(s, idx) && s.caps[idx - 1] > 0
    requires u !in s.members[idx] && (s.multi || !InAnyGroup(s, u))
    ensures Join(s, u, idx) == Outcome(s.(members := s.members[idx := s.members[idx] + [u]],
                                          caps := s.caps[idx - 1 := s.caps[idx - 1] - 1]), [])
  {
  }

  /** Under single membership, removing a user from their group leaves them in none. */
  lemma NowInNoGroup(s: State, u: UserId, f: int, t: State)
    requires Inv(s) && !s.multi && InGroup(s, f, u)
    requires t.members.Keys == s.members.Keys && u !in t.members[f]
    requires forall g :: g in s.members && g != f ==> t.members[g] == s.members[g]
    ensures !InAnyGroup(t, u)
  {
    forall g | g in t.members ensures u !in t.members[g] {
      if g != f {
        assert t.members[g] == s.members[g];
      }
    }
  }

  lemma MoveKeepsInv(s: State, u: UserId, from: Option<int>, to: Option<int>)
    requires Inv(s)
    ensures Inv(Move(s, u, from, to).next) && Conserves(s, Move(s, u, from, to).next)
  {
    if !(|| to.None? || to.value == 0 || from == to
         || (IsGroup(s, to.value) && s.caps[to.value - 1] <= 0)
         || from.None? || !InGroup(s, from.value, u)) {
      MoveFoundKeepsInv(s, u, from.value, to.value);
    } else {
      MoveAtomic(s, u, from, to);
    }
  }

  /** The move that goes ahead: the user leaves f and lands in t when there is room. */
  lemma MoveFoundKeepsInv(s: State, u: UserId, f: int, t: int)
    requires Inv(s) && t != 0 && f != t && InGroup(s, f, u)
    requires !(IsGroup(s, t) && s.caps[t - 1] <= 0)
    ensures Inv(Move(s, u, Some(f), Some(t)).next) && Conserves(s, Move(s, u, Some(f), Some(t)).next)
  {
    LeaveKeepsInv(s, u, f);
    LeaveEffect(s, u, f);
    var left := Leave(s, u, f).next;
    if t in left.members && u !in left.members[t] {
      MoveIsLeaveThenJoin(s, u, f, t);
      JoinKeepsInv(left, u, t);
    }
  }

  /**
   * A destination that is not a group (a forged or stale select value) still
   * reports the move, but the user is removed from the source and added
   * nowhere: with a single group per user, the user is in no group at all.
   */
  lemma MoveOutOfRangeDropsMember(s: State, u: UserId, f: int, t: int)
    requires Inv(s) && !s.multi
    requires InGroup(s, f, u) && t != 0 && !IsGroup(s, t)
    ensures Move(s, u, Some(f), Some(t)).notices == [Moved(u, f, t)]
    ensures !InAnyGroup(Move(s, u, Some(f), Some(t)).next, u)
  {
    var n := Move(s, u, Some(f), Some(t)).next;
    RemoveFirstDistinct(s.members[f], u);
    NowInNoGroup(s, u, f, n);
  }

  // ---------------------------------------------------------------- scenarios

  /** Two users race for the last seat: the lock runs them one after the other; exactly one gets in. */
  lemma LastSeatGoesToOne(s: State, a: UserId, b: UserId, idx: int)
    requires Inv(s) && IsGroup(s, idx) && s.caps[idx - 1] == 1
    requires a != b && !InAnyGroup(s, a) && !InAnyGroup(s, b)
    ensures
      var first := Join(s, a, idx);
      && first.Outcome? && first.notices == []
      && Join(first.next, b, idx) == Outcome(first.next, [GroupFull(idx)])
      && first.next.caps[idx - 1] == 0
      && first.next.members[idx] == s.members[idx] + [a]
  {
    JoinEffect(s, a, idx);
  }

  /**
   * Groups with capacities [2, 1], one group per user: X joins group 1
   * (caps [1, 1]), is refused group 2, leaves group 1 (caps [2, 1]) and
   * joins group 2 (caps [2, 0]).
   */
  lemma JoinLeaveScenario(x: UserId)
    ensures
      var s0 := State("", [2, 1], map[1 := [], 2 := []], false, "");
      var s1 := Join(s0, x, 1);
      && s1 == Outcome(State("", [1, 1], map[1 := [x], 2 := []], false, ""), [])
      && Join(s1.next, x, 2) == Outcome(s1.next, [OtherGroupTaken])
      && Leave(s1.next, x, 1) == Outcome(s0, [])
      && Join(s0, x, 2) == Outcome(State("", [2, 0], map[1 := [], 2 := [x]], false, ""), [])
  {
    var s0 := State("", [2, 1], map[1 := [], 2 := []], false, "");
    assert !InAnyGroup(s0, x);
    assert s0.members[1 := [x]] == map[1 := [x], 2 := []];
    assert s0.members[2 := [x]] == map[1 := [], 2 := [x]];
    var s1 := State("", [1, 1], map[1 := [x], 2 := []], false, "");
    assert s0.caps[0 := 1] == [1, 1] && s0.members[1] + [x] == [x];
    assert Join(s0, x, 1) == Outcome(s1, []);
    assert InGroup(s1, 1, x) && !InGroup(s1, 2, x);
    assert Join(s1, x, 2) == Outcome(s1, [OtherGroupTaken]);
    assert RemoveFirst([x], x) == [];
    assert s1.members[1 := []] == s0.members;
    assert s1.caps[0 := 2] == s0.caps;
    assert Leave(s1, x, 1) == Outcome(s0, []);
    assert s0.caps[1 := 0] == [2, 0];
  }
}
