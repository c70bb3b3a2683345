/**
 * The mutation block run under the lock (api/discord.js:392-484, and again
 * at 528-618): it reads the pressed component's id and selected values and
 * applies one join, leave, kick or move to the roster.
 */
module Component {
  import opened Wrappers
  import opened JsText
  import opened RosterModel
  import opened ComponentIds
  import opened Variants

  /** One kick value as the source handles it: a value that is not `kick:{g}:{uid}` does nothing. */
  function KickValue(s: State, v: string): (o: Outcome)
    requires WellFormed(s)
    ensures o.Outcome? && WellFormed(o.next) && o.next.members.Keys == s.members.Keys
  {
    match ParseKick(v)
    case None => Outcome(s, [])
    case Some((g, u)) => Kick(s, g, u)
  }

  /** The kick select as written: only `values[0]` is looked at. */
  function KickAsWritten(s: State, values: seq<string>): (o: Outcome)
    requires WellFormed(s)
    ensures o.Outcome? && WellFormed(o.next) && o.next.members.Keys == s.members.Keys
  {
    if |values| == 0 then Outcome(s, []) else KickValue(s, values[0])
  }

  /** The kick select as intended: every selected member is kicked, in the order selected. */
  function KickEach(s: State, values: seq<string>): (o: Outcome)
    requires WellFormed(s)
    ensures o.Outcome? && WellFormed(o.next) && o.next.members.Keys == s.members.Keys
    decreases |values|
  {
    if values == [] then Outcome(s, [])
    else
      var first := KickValue(s, values[0]);
      var rest := KickEach(first.next, values[1..]);
      Outcome(rest.next, first.notices + rest.notices)
  }

  /** (g, u) is one of the members chosen in the kick select. */
  predicate Selected(values: seq<string>, g: int, u: UserId) {
    exists k :: 0 <= k < |values| && ParseKick(values[k]) == Some((g, u))
  }

  /**
   * As written, whatever is selected after the first value is ignored: the
   * select allows up to one choice per member, yet one kick happens.
   */
  lemma KickAsWrittenIgnoresRest(s: State, values: seq<string>)
    requires WellFormed(s) && |values| >= 1
    ensures KickAsWritten(s, values) == KickAsWritten(s, values[..1])
    ensures KickAsWritten(s, values) == KickEach(s, values[..1])
  {
    assert values[..1][1..] == [];
  }

  /**
   * Two members selected for kicking, as the panel offers them: as written
   * the second one stays where they were, while the intended kick removes
   * both.
   */
  lemma KickAsWrittenLeavesSecond(s: State, g: nat, u: UserId, h: nat, v: UserId)
    requires Inv(s) && InGroup(s, g, u) && InGroup(s, h, v) && (g, u) != (h, v)
    requires IsSnowflake(u) && IsSnowflake(v)
    ensures
      var values := ["kick:" + GroupAndUser(g, u), "kick:" + GroupAndUser(h, v)];
      && InGroup(KickAsWritten(s, values).next, h, v)
      && !InGroup(KickEach(s, values).next, h, v)
  {
    var values := ["kick:" + GroupAndUser(g, u), "kick:" + GroupAndUser(h, v)];
    PanelValueRoundTrip(g, u);
    PanelValueRoundTrip(h, v);
    assert KickAsWritten(s, values) == Kick(s, g, u);
    KickMembership(s, g, u);
    KickEachEffect(s, values);
    assert Selected(values, h, v) by {
      assert ParseKick(values[1]) == Some((h, v));
    }
  }

  /**
   * The intended kick: afterwards a user is in a group exactly when they were
   * before and that (group, user) pair was not selected; every group keeps
   * its seats and the invariant holds.
   */
  lemma {:induction false} KickEachEffect(s: State, values: seq<string>)
    requires Inv(s)
    ensures Inv(KickEach(s, values).next) && Conserves(s, KickEach(s, values).next)
    ensures forall g, u :: InGroup(KickEach(s, values).next, g, u) <==> InGroup(s, g, u) && !Selected(values, g, u)
    decreases |values|
  {
    if values != [] {
      var first := KickValue(s, values[0]);
      var s1 := first.next;
      match ParseKick(values[0]) {
        case None =>
        case Some((g, u)) =>
          KickKeepsInv(s, g, u);
          KickMembership(s, g, u);
      }
      KickEachEffect(s1, values[1..]);
      var w := KickEach(s, values).next;
      ConservesTrans(s, s1, w);
      forall g, u ensures InGroup(w, g, u) <==> InGroup(s, g, u) && !Selected(values, g, u) {
        assert Selected(values, g, u) <==> ParseKick(values[0]) == Some((g, u)) || Selected(values[1..], g, u) by {
          if Selected(values[1..], g, u) {
            var k :| 0 <= k < |values[1..]| && ParseKick(values[1..][k]) == Some((g, u));
            assert ParseKick(values[k + 1]) == Some((g, u));
          }
          if Selected(values, g, u) && ParseKick(values[0]) != Some((g, u)) {
            var k :| 0 <= k < |values| && ParseKick(values[k]) == Some((g, u));
            assert k > 0 && values[1..][k - 1] == values[k];
          }
        }
      }
    }
  }

  /** `parseInt(values?.[0] || '0', 10)`: the destination group chosen in the second move step. */
  function Destination(values: seq<string>): Option<int>
  {
    if |values| == 0 || values[0] == "" then Some(0) else ParseInt(values[0])
  }

  /** The kick select: as written only the first value, corrected every value. */
  function KickSelect(v: Variant, s: State, values: seq<string>): (o: Outcome)
    requires WellFormed(s)
    ensures o.Outcome? && WellFormed(o.next) && o.next.members.Keys == s.members.Keys
  {
    match v
    case AsWritten => KickAsWritten(s, values)
    case Corrected => KickEach(s, values)
  }

  /** The `admin_manage:` branch, for a caller already found to be an admin. */
  function AdminAction(v: Variant, s: State, customId: string, values: seq<string>): (o: Outcome)
    requires WellFormed(s) && ':' in customId
    ensures o.Outcome? && WellFormed(o.next)
  {
    var action := Split(customId, ':')[1];
    if action == "kick" then KickSelect(v, s, values)
    else if action == "pickmove" then
      if |values| > 0 && ParsePick(values[0]).Some? then
        var (g, u) := ParsePick(values[0]).value;
        Outcome(s, [ChooseDestination(u, g)])
      else Outcome(s, [])
    else if StartsWith(action, "to") then
      var (u, from) := ParseMoveTarget(customId);
      Move(s, u, from, Destination(values))
    else Outcome(s, [])
  }

  /**
   * The mutation block: a join or leave button acts for the caller; an
   * `admin_manage:` component acts only for an admin; anything else changes
   * nothing.  The two `if` blocks of the source never both apply, since a
   * button id never starts with `admin_manage:`.  `AsWritten` is the block
   * of the source; `Corrected` differs only in kicking every selected member.
   */
  function ApplyComponent(v: Variant, s: State, customId: string, values: seq<string>, c: Caller): (o: Outcome)
    requires WellFormed(s)
    ensures o.Outcome? ==> WellFormed(o.next)
  {
    match ParseButton(customId)
    case Some(JoinGroup(i)) => Join(s, c.id, i)
    case Some(LeaveGroup(i)) => Leave(s, c.id, i)
    case None =>
      if !StartsWith(customId, "admin_manage:") then Outcome(s, [])
      else if !HasAdmin(c, s.ownerId) then Outcome(s, [AdminOnly])
      else
        assert customId[12] == ':';
        AdminAction(v, s, customId, values)
  }

  /** Whatever is pressed, the roster stays valid and every group keeps its seats (unless the block throws). */
  lemma ApplyKeepsInv(v: Variant, s: State, customId: string, values: seq<string>, c: Caller)
    requires Inv(s)
    ensures ApplyComponent(v, s, customId, values, c).Outcome? ==>
      Inv(ApplyComponent(v, s, customId, values, c).next) && Conserves(s, ApplyComponent(v, s, customId, values, c).next)
  {
    match ParseButton(customId)
    case Some(JoinGroup(i)) => JoinKeepsInv(s, c.id, i);
    case Some(LeaveGroup(i)) => LeaveKeepsInv(s, c.id, i);
    case None =>
      if StartsWith(customId, "admin_manage:") && HasAdmin(c, s.ownerId) {
        assert customId[12] == ':';
        var action := Split(customId, ':')[1];
        if action == "kick" {
          KickSelectKeepsInv(v, s, values);
        } else if action != "pickmove" && StartsWith(action, "to") {
          var (u, from) := ParseMoveTarget(customId);
          MoveKeepsInv(s, u, from, Destination(values));
        }
      }
  }

  /** Both kick selects keep the invariant and every group's seats. */
  lemma KickSelectKeepsInv(v: Variant, s: State, values: seq<string>)
    requires Inv(s)
    ensures Inv(KickSelect(v, s, values).next) && Conserves(s, KickSelect(v, s, values).next)
  {
    if v == Corrected {
      KickEachEffect(s, values);
    } else if |values| > 0 {
      match ParseKick(values[0]) {
        case None =>
        case Some((g, u)) => KickKeepsInv(s, g, u);
      }
    }
  }

  /**
   * Someone who is neither the owner nor an administrator changes at most
   * their own memberships: every other user is in exactly the groups they
   * were in before.
   */
  lemma NonAdminTouchesOnlySelf(v: Variant, s: State, customId: string, values: seq<string>, c: Caller)
    requires Inv(s) && !HasAdmin(c, s.ownerId)
    requires ApplyComponent(v, s, customId, values, c).Outcome?
    ensures forall g, w :: w != c.id ==>
      (InGroup(ApplyComponent(v, s, customId, values, c).next, g, w) <==> InGroup(s, g, w))
  {
    match ParseButton(customId)
    case Some(JoinGroup(i)) => {}
    case Some(LeaveGroup(i)) =>
      if InGroup(s, i, c.id) {
        RemoveFirstDistinct(s.members[i], c.id);
      }
    case None => {}
  }

  /** The admin gate: an `admin_manage:` component from a non-admin changes nothing and says so. */
  lemma AdminGate(v: Variant, s: State, customId: string, values: seq<string>, c: Caller)
    requires WellFormed(s) && StartsWith(customId, "admin_manage:") && !HasAdmin(c, s.ownerId)
    ensures ApplyComponent(v, s, customId, values, c) == Outcome(s, [AdminOnly])
  {
    assert customId[0] == 'a';
  }
}
