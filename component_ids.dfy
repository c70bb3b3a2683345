/**
 * The identifiers the roster message's components carry, and how the handler
 * reads them back: button ids `join_{i}` / `leave_{i}`, the admin select
 * values `kick:{i}:{uid}` / `pick:{i}:{uid}`, the destination select id
 * `admin_manage:to:{uid}:{from}` and its option values `{i}`.  Each parser is
 * paired with the builder whose output it reads.
 */
module ComponentIds {
  import opened Wrappers
  import opened JsText
  import opened RosterModel

  datatype ButtonPress = JoinGroup(idx: nat) | LeaveGroup(idx: nat)

  /** `^(join|leave)_(\d+)$` followed by `parseInt` of the digits. */
  function ParseButton(id: string): Option<ButtonPress>
  {
    if StartsWith(id, "join_") && |id| > 5 && AllDigits(id[5..]) then Some(JoinGroup(DigitsValue(id[5..])))
    else if StartsWith(id, "leave_") && |id| > 6 && AllDigits(id[6..]) then Some(LeaveGroup(DigitsValue(id[6..])))
    else None
  }

  /** The `custom_id` of the join and leave buttons of group i (`buildMainButtons`). */
  function ButtonId(press: ButtonPress): string
  {
    match press
    case JoinGroup(i) => "join_" + NatToString(i)
    case LeaveGroup(i) => "leave_" + NatToString(i)
  }

  /** Every button reads back as the press it was built for. */
  lemma ButtonRoundTrip(press: ButtonPress)
    ensures ParseButton(ButtonId(press)) == Some(press)
  {
    var id := ButtonId(press);
    DigitsValueOfNatToString(press.idx);
    match press
    case JoinGroup(i) =>
      assert id[5..] == NatToString(i);
    case LeaveGroup(i) =>
      assert id[5] == '_' && IsDigit(NatToString(i)[0]);
      assert id[0] == 'l';
      assert !StartsWith(id, "join_");
      assert id[6..] == NatToString(i);
  }

  /** `{digits}:{digits}`, the tail of `^kick:(\d+):(\d+)$` and `^pick:(\d+):(\d+)$`. */
  function ParseGroupAndUser(rest: string): Option<(nat, UserId)>
  {
    var d := DigitPrefix(rest);
    if |d| > 0 && |d| < |rest| && rest[|d|] == ':' && |rest| > |d| + 1 && AllDigits(rest[|d| + 1..])
    then Some((DigitsValue(d), rest[|d| + 1..]))
    else None
  }

  /** The value of a "kick" option: `^kick:(\d+):(\d+)$`. */
  function ParseKick(v: string): Option<(nat, UserId)>
  {
    if StartsWith(v, "kick:") then ParseGroupAndUser(v[5..]) else None
  }

  /** The value of a "pick for moving" option: `^pick:(\d+):(\d+)$`. */
  function ParsePick(v: string): Option<(nat, UserId)>
  {
    if StartsWith(v, "pick:") then ParseGroupAndUser(v[5..]) else None
  }

  /** A Discord user id: a snowflake, written in decimal. */
  predicate IsSnowflake(u: UserId) { |u| > 0 && AllDigits(u) }

  /** `{i}:{uid}`, the group and user a panel option value names after its tag. */
  function GroupAndUser(g: nat, u: UserId): string
  {
    NatToString(g) + ":" + u
  }

  lemma GroupAndUserRoundTrip(g: nat, u: UserId)
    requires IsSnowflake(u)
    ensures ParseGroupAndUser(GroupAndUser(g, u)) == Some((g, u))
  {
    var rest := GroupAndUser(g, u);
    DigitPrefixOf(NatToString(g), ":" + u);
    assert rest == NatToString(g) + (":" + u);
    DigitsValueOfNatToString(g);
    assert rest[|NatToString(g)| + 1..] == u;
  }

  lemma TaggedBody(tag: string, body: string)
    requires |tag| == 5
    ensures StartsWith(tag + body, tag) && (tag + body)[5..] == body
  {
    assert (tag + body)[..5] == tag;
  }

  lemma KickBody(body: string)
    ensures ParseKick("kick:" + body) == ParseGroupAndUser(body)
    ensures ParsePick("kick:" + body) == None
  {
    TaggedBody("kick:", body);
    assert ("kick:" + body)[0] != "pick:"[0];
  }

  lemma PickBody(body: string)
    ensures ParsePick("pick:" + body) == ParseGroupAndUser(body)
  {
    TaggedBody("pick:", body);
  }

  /** `kick:{i}:{uid}` and `pick:{i}:{uid}` read back as the group and user they name. */
  lemma PanelValueRoundTrip(g: nat, u: UserId)
    requires IsSnowflake(u)
    ensures ParseKick("kick:" + GroupAndUser(g, u)) == Some((g, u))
    ensures ParsePick("pick:" + GroupAndUser(g, u)) == Some((g, u))
    ensures ParsePick("kick:" + GroupAndUser(g, u)) == None
  {
    GroupAndUserRoundTrip(g, u);
    KickBody(GroupAndUser(g, u));
    PickBody(GroupAndUser(g, u));
  }

  /** The (group, member) pairs of groups lo..|caps|, in the order the admin panel lists them. */
  function PanelEntries(s: State, lo: int): (r: seq<(int, UserId)>)
    ensures forall k :: 0 <= k < |r| ==> lo <= r[k].0 && InGroup(s, r[k].0, r[k].1) && IsGroup(s, r[k].0)
    decreases |s.caps| + 1 - lo
  {
    if lo < 1 || lo > |s.caps| then []
    else
      var arr := if lo in s.members then s.members[lo] else [];
      seq(|arr|, k requires 0 <= k < |arr| => (lo, arr[k])) + PanelEntries(s, lo + 1)
  }

  function PanelValue(tag: string, e: (int, UserId)): string
    requires e.0 >= 0
  {
    tag + GroupAndUser(e.0, e.1)
  }

  /** `buildAdminPanelSelects`: the kick (`tag` "kick:") or pick ("pick:") option values, at most 25. */
  function PanelOptions(s: State, tag: string): (r: seq<string>)
    ensures |r| <= 25
  {
    var entries := PanelEntries(s, 1);
    var shown := if |entries| <= 25 then entries else entries[..25];
    seq(|shown|, k requires 0 <= k < |shown| => PanelValue(tag, shown[k]))
  }

  /** Every kick option offered names a current member of the group it names, and reads back as that pair. */
  lemma KickOptionsSound(s: State, k: int)
    requires forall g, u :: g in s.members && u in s.members[g] ==> IsSnowflake(u)
    requires 0 <= k < |PanelOptions(s, "kick:")|
    ensures ParseKick(PanelOptions(s, "kick:")[k]).Some?
    ensures var (g, u) := ParseKick(PanelOptions(s, "kick:")[k]).value; InGroup(s, g, u)
  {
    var entries := PanelEntries(s, 1);
    var e := entries[k];
    var shown := if |entries| <= 25 then entries else entries[..25];
    assert shown[k] == e && e.0 >= 1;
    assert PanelOptions(s, "kick:")[k] == PanelValue("kick:", e);
    PanelValueRoundTrip(e.0, e.1);
  }

  /** `admin_manage:to:{uid}:{from}`: the id of the destination select (`buildMoveToSelect`). */
  function MoveSelectId(u: UserId, from: nat): string
  {
    "admin_manage:to:" + u + ":" + NatToString(from)
  }

  /**
   * What the second move step reads from its own id: `seg[2]` as the user
   * and `parseInt(seg[3])` as the source group.  Without a third segment the
   * fourth is missing too, so the source is `NaN` and the user never looked at.
   */
  function ParseMoveTarget(id: string): (UserId, Option<int>)
  {
    var seg := Split(id, ':');
    (if |seg| > 2 then seg[2] else "", if |seg| > 3 then ParseInt(seg[3]) else None)
  }

  /** The destination select carries the picked user and group through to the second step. */
  lemma MoveSelectRoundTrip(u: UserId, from: nat)
    requires ':' !in u
    ensures Split(MoveSelectId(u, from), ':')[1] == "to"
    ensures ParseMoveTarget(MoveSelectId(u, from)) == (u, Some(from))
  {
    var parts := ["admin_manage", "to", u, NatToString(from)];
    assert ':' !in NatToString(from) by {
      assert forall i :: 0 <= i < |NatToString(from)| ==> IsDigit(NatToString(from)[i]);
    }
    assert JoinWith(parts, ':') == MoveSelectId(u, from) by {
      assert JoinWith(parts[3..], ':') == NatToString(from);
      assert JoinWith(parts[2..], ':') == u + ":" + NatToString(from);
    }
    SplitJoin(parts, ':');
    ParseIntOfIntToString(from, "");
    assert NatToString(from) + "" == NatToString(from);
  }

  /** Groups lo..n other than `from`, in order. */
  function OtherGroups(lo: int, n: int, from: int): (r: seq<int>)
    ensures forall k :: 0 <= k < |r| ==> lo <= r[k] <= n && r[k] != from
    ensures forall i :: lo <= i <= n && i != from ==> i in r
    decreases n + 1 - lo
  {
    if lo > n then [] else if lo == from then OtherGroups(lo + 1, n, from) else [lo] + OtherGroups(lo + 1, n, from)
  }

  /**
   * The destinations `buildMoveToSelect` offers: every other group, at most 25.
   * None is the source group; with at most 26 groups every other group is offered.
   */
  function Destinations(n: int, from: int): (r: seq<int>)
    ensures |r| <= 25
    ensures forall k :: 0 <= k < |r| ==> 1 <= r[k] <= n && r[k] != from
    ensures n <= 26 && 1 <= from <= n ==> forall i :: 1 <= i <= n && i != from ==> i in r
  {
    var all := OtherGroups(1, n, from);
    AllOthersFit(n, from);
    if |all| <= 25 then all else all[..25]
  }

  lemma AllOthersFit(n: int, from: int)
    ensures n <= 26 && 1 <= from <= n ==> |OtherGroups(1, n, from)| <= 25
  {
    if n <= 26 && 1 <= from <= n {
      OtherGroupsCount(1, n, from);
    }
  }

  lemma {:induction false} OtherGroupsCount(lo: int, n: int, from: int)
    requires 1 <= lo <= from <= n
    ensures |OtherGroups(lo, n, from)| == n - lo
    decreases n + 1 - lo
  {
    if lo < from {
      OtherGroupsCount(lo + 1, n, from);
    } else {
      OtherGroupsAbove(lo + 1, n, from);
    }
  }

  lemma {:induction false} OtherGroupsAbove(lo: int, n: int, from: int)
    requires from < lo
    ensures |OtherGroups(lo, n, from)| == if lo > n then 0 else n + 1 - lo
    decreases n + 1 - lo
  {
    if lo <= n {
      OtherGroupsAbove(lo + 1, n, from);
    }
  }

  /** Each destination option's value `String(i)` is read back by `parseInt` as i. */
  lemma DestinationValueRoundTrip(n: int, from: int, k: int)
    requires 0 <= k < |Destinations(n, from)|
    ensures ParseInt(NatToString(Destinations(n, from)[k])) == Some(Destinations(n, from)[k])
  {
    var i := Destinations(n, from)[k];
    ParseIntOfIntToString(i, "");
    assert NatToString(i) + "" == NatToString(i);
  }
}
