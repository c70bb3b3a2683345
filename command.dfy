/**
 * The `/cteam` slash command (api/discord.js:298-340): it reads the seat
 * counts, the title, the "multiple groups" switch and an optional list of
 * pre-filled members, and builds the first roster.
 */
module Command {
  import opened Wrappers
  import opened JsText
  import opened RosterModel
  import opened ComponentIds

  /** `options.caps ? String(options.caps) : '12,12,12'`: a missing or empty option means three groups of 12. */
  function CapsText(opt: Option<string>): string
  {
    if opt.Some? && opt.value != "" then opt.value else "12,12,12"
  }

  /** `options.x || ''`. */
  function OrEmpty(opt: Option<string>): string
  {
    if opt.Some? then opt.value else ""
  }

  /** `.map(s => parseInt(s.trim(), 10))`: each part read as an integer, or not a number. */
  function ParseEach(parts: seq<string>): (ns: seq<Option<int>>)
    ensures |ns| == |parts|
  {
    seq(|parts|, i requires 0 <= i < |parts| => ParseInt(Trim(parts[i])))
  }

  /** `.filter(n => Number.isInteger(n) && n >= 0)`: the integers of at least 0, in order. */
  function KeepCaps(ns: seq<Option<int>>): (caps: seq<int>)
    ensures |caps| <= |ns|
    ensures forall i :: 0 <= i < |caps| ==> caps[i] >= 0
  {
    if ns == [] then []
    else
      var rest := KeepCaps(ns[1..]);
      if ns[0].Some? && ns[0].value >= 0 then [ns[0].value] + rest else rest
  }

  /** `capsStr.split(',').map(s => parseInt(s.trim(), 10)).filter(n => Number.isInteger(n) && n >= 0)`. */
  function ParseCaps(text: string): (caps: seq<int>)
    ensures forall i :: 0 <= i < |caps| ==> caps[i] >= 0
  {
    KeepCaps(ParseEach(Split(text, ',')))
  }

  /** The decimal numerals of a list of seat counts. */
  function Numerals(caps: seq<nat>): (r: seq<string>)
    ensures |r| == |caps|
    ensures forall i :: 0 <= i < |r| ==> r[i] == NatToString(caps[i])
  {
    if caps == [] then [] else [NatToString(caps[0])] + Numerals(caps[1..])
  }

  /** A list where every entry is a number of at least 0 passes the filter whole. */
  lemma {:induction false} KeepAll(ns: seq<Option<int>>, caps: seq<nat>)
    requires |ns| == |caps| && forall i :: 0 <= i < |ns| ==> ns[i] == Some(caps[i] as int)
    ensures KeepCaps(ns) == caps
  {
    if ns != [] {
      KeepAll(ns[1..], caps[1..]);
    }
  }

  /** A seat count's numeral reads back as that count. */
  lemma NumeralReads(n: nat)
    ensures ParseInt(Trim(NatToString(n))) == Some(n as int)
  {
    var t := NatToString(n);
    TrimNoSpace(t);
    ParseIntOfIntToString(n, "");
    assert IntToString(n) + "" == t;
  }

  /** Seat counts written as `12,8,5` are read back exactly. */
  lemma CapsRoundTrip(caps: seq<nat>)
    requires |caps| >= 1
    ensures ParseCaps(JoinWith(Numerals(caps), ',')) == caps
  {
    var parts := Numerals(caps);
    forall i | 0 <= i < |parts| ensures ',' !in parts[i] {
      assert AllDigits(parts[i]);
    }
    SplitJoin(parts, ',');
    var ns := ParseEach(parts);
    forall i | 0 <= i < |ns| ensures ns[i] == Some(caps[i] as int) {
      NumeralReads(caps[i]);
    }
    KeepAll(ns, caps);
  }

  /** Some code point of `s` is a line terminator. */
  predicate HasLineTerminator(s: string) {
    exists k :: 0 <= k < |s| && IsLineTerminator(s[k])
  }

  /**
   * One line of the defaults option matched against `^(\d+)\s*:\s*(.*)$`
   * after `trim`: the group number and the text after the colon.  The `.`
   * refuses line terminators, so a line holding one after the colon's
   * spaces does not match.
   */
  function DefaultLine(line: string): Option<(nat, string)>
  {
    var t := Trim(line);
    var d := DigitPrefix(t);
    if |d| == 0 then None
    else
      var rest := AfterColon(t[|d|..]);
      if rest.None? then None else Some((DigitsValue(d), rest.value))
  }

  /** The `\s*:\s*(.*)$` part: the text after the colon and its spaces, if it holds no line terminator. */
  function AfterColon(s: string): Option<string>
  {
    var t := TrimStart(s);
    if |t| == 0 || t[0] != ':' then None
    else
      var rest := TrimStart(t[1..]);
      if HasLineTerminator(rest) then None else Some(rest)
  }

  /** `Array.from(rest.matchAll(/<@!?(\d+)>/g)).map(mm => mm[1])`: the ids of the mentions, left to right. */
  function MentionIds(t: string): (ids: seq<UserId>)
    ensures forall k :: 0 <= k < |ids| ==> IsSnowflake(ids[k])
    decreases |t|
  {
    if |t| < 2 then []
    else if t[0] == '<' && t[1] == '@' then
      var j := if |t| > 2 && t[2] == '!' then 3 else 2;
      var d := DigitPrefix(t[j..]);
      if |d| > 0 && j + |d| < |t| && t[j + |d|] == '>' then [d] + MentionIds(t[j + |d| + 1..])
      else MentionIds(t[1..])
    else MentionIds(t[1..])
  }

  /** Mentions of the given ids, separated by single spaces. */
  function MentionsText(ids: seq<UserId>): string
  {
    if ids == [] then ""
    else if |ids| == 1 then "<@" + ids[0] + ">"
    else "<@" + ids[0] + "> " + MentionsText(ids[1..])
  }

  lemma MentionFirst(u: UserId, rest: string)
    requires IsSnowflake(u)
    ensures MentionIds("<@" + u + ">" + rest) == [u] + MentionIds(rest)
  {
    var t := "<@" + u + ">" + rest;
    assert t[2..] == u + (">" + rest);
    DigitPrefixOf(u, ">" + rest);
    assert t[2 + |u| + 1..] == rest;
  }

  /** A space between mentions is skipped. */
  lemma SpaceSkipped(rest: string)
    ensures MentionIds(" " + rest) == MentionIds(rest)
  {
    assert (" " + rest)[1..] == rest;
  }

  lemma MentionsTextOne(ids: seq<UserId>)
    requires |ids| == 1
    ensures MentionsText(ids) == "<@" + ids[0] + ">" + ""
  {
    assert "<@" + ids[0] + ">" + "" == "<@" + ids[0] + ">";
  }

  lemma MentionsTextCons(ids: seq<UserId>)
    requires |ids| > 1
    ensures MentionsText(ids) == "<@" + ids[0] + ">" + (" " + MentionsText(ids[1..]))
  {
  }

  /** The mention pattern reads back every id of a list of mentions. */
  lemma {:induction false} MentionIdsRoundTrip(ids: seq<UserId>)
    requires forall k :: 0 <= k < |ids| ==> IsSnowflake(ids[k])
    ensures MentionIds(MentionsText(ids)) == ids
  {
    if |ids| == 1 {
      MentionFirst(ids[0], "");
      MentionsTextOne(ids);
    } else if |ids| > 1 {
      var rest := MentionsText(ids[1..]);
      MentionsTextCons(ids);
      MentionFirst(ids[0], " " + rest);
      SpaceSkipped(rest);
      MentionIdsRoundTrip(ids[1..]);
      assert ids == [ids[0]] + ids[1..];
    }
  }

  lemma ColonKept(rest: string)
    ensures TrimStart(": " + rest) == ": " + rest
  {
    var tail := ": " + rest;
    assert tail[0] == ':';
    TrimStartKeeps(tail);
  }

  lemma SpaceDropped(rest: string)
    requires |rest| > 0 && !IsJsSpace(rest[0])
    ensures TrimStart(" " + rest) == rest
  {
    var spaced := " " + rest;
    assert spaced[0] == ' ' && spaced[1..] == rest;
    TrimStartDrops(spaced);
    TrimStartKeeps(rest);
  }

  lemma AfterColonOf(rest: string)
    requires |rest| > 0 && !IsJsSpace(rest[0])
    requires !HasLineTerminator(rest)
    ensures AfterColon(": " + rest) == Some(rest)
  {
    var tail := ": " + rest;
    ColonKept(rest);
    assert tail == [':'] + (" " + rest);
    assert tail[1..] == " " + rest;
    SpaceDropped(rest);
  }

  /** How DefaultLine reads a trimmed line made of a number and what follows it. */
  lemma DefaultLineFrom(line: string, num: string, tail: string, g: nat, rest: string)
    requires Trim(line) == line && DigitPrefix(line) == num && |num| > 0
    requires line[|num|..] == tail && AfterColon(tail) == Some(rest) && DigitsValue(num) == g
    ensures DefaultLine(line) == Some((g, rest))
  {
  }

  lemma EndsTrimmed(num: string, tail: string)
    requires |num| > 0 && !IsJsSpace(num[0]) && |tail| > 0 && !IsJsSpace(tail[|tail| - 1])
    ensures Trim(num + tail) == num + tail
  {
    var line := num + tail;
    assert line[0] == num[0];
    assert line[|line| - 1] == tail[|tail| - 1];
    TrimClean(line);
  }

  /** A line `g: rest` is read as group g with text rest. */
  lemma DefaultLineRoundTrip(g: nat, rest: string)
    requires |rest| > 0 && !IsJsSpace(rest[0]) && !IsJsSpace(rest[|rest| - 1])
    requires !HasLineTerminator(rest)
    ensures DefaultLine(NatToString(g) + ": " + rest) == Some((g, rest))
  {
    var num := NatToString(g);
    var tail := ": " + rest;
    var line := num + tail;
    assert NatToString(g) + ": " + rest == line;
    assert tail[|tail| - 1] == rest[|rest| - 1];
    EndsTrimmed(num, tail);
    DigitPrefixOf(num, tail);
    assert line[|num|..] == tail;
    AfterColonOf(rest);
    DigitsValueOfNatToString(g);
    DefaultLineFrom(line, num, tail, g, rest);
  }

  /** The roster being pre-filled: seat counts and members. */
  datatype Draft = Draft(caps: seq<int>, members: map<int, seq<UserId>>)

  /** The member map has exactly the keys 1..|caps|. */
  ghost predicate Keyed(d: Draft) {
    forall g :: g in d.members <==> 1 <= g <= |d.caps|
  }

  /** `Object.fromEntries(Array.from({ length: n }, (_, i) => [String(i+1), []]))`. */
  function EmptyMembers(n: nat): (m: map<int, seq<UserId>>)
    ensures forall g :: g in m <==> 1 <= g <= n
    ensures forall g :: g in m ==> m[g] == []
  {
    if n == 0 then map[] else EmptyMembers(n - 1)[n := []]
  }

  /** One id for group g: added unless already there, and a seat taken only while one is left. */
  function AddDefault(d: Draft, g: int, uid: UserId): (r: Draft)
    requires Keyed(d) && 1 <= g <= |d.caps|
    ensures Keyed(r) && |r.caps| == |d.caps|
  {
    if uid in d.members[g] then d
    else Draft(d.caps[g - 1 := if d.caps[g - 1] > 0 then d.caps[g - 1] - 1 else d.caps[g - 1]],
               d.members[g := d.members[g] + [uid]])
  }

  function AddAll(d: Draft, g: int, ids: seq<UserId>): (r: Draft)
    requires Keyed(d) && 1 <= g <= |d.caps|
    ensures Keyed(r) && |r.caps| == |d.caps|
    decreases |ids|
  {
    if ids == [] then d else AddAll(AddDefault(d, g, ids[0]), g, ids[1..])
  }

  /** What one line does: a line that does not match, or names no group, is skipped. */
  function AddLine(d: Draft, line: string): (r: Draft)
    requires Keyed(d)
    ensures Keyed(r) && |r.caps| == |d.caps|
  {
    var m := DefaultLine(line);
    if m.Some? && 1 <= m.value.0 <= |d.caps| then AddAll(d, m.value.0, MentionIds(m.value.1)) else d
  }

  function AddLines(d: Draft, lines: seq<string>): (r: Draft)
    requires Keyed(d)
    ensures Keyed(r) && |r.caps| == |d.caps|
    decreases |lines|
  {
    if lines == [] then d else AddLines(AddLine(d, lines[0]), lines[1..])
  }

  /** The lines of the defaults option, after `trim`. */
  function DefaultLines(text: string): seq<string>
  {
    var t := Trim(text);
    if t == "" then [] else Split(t, '\n')
  }

  /** The seat counts and members after the defaults option is applied to fresh groups. */
  function Defaults(text: string, caps0: seq<int>): (r: Draft)
    ensures Keyed(r) && |r.caps| == |caps0|
  {
    AddLines(Draft(caps0, EmptyMembers(|caps0|)), DefaultLines(text))
  }

  /** `Math.max(x, 0)`. */
  function Max0(x: int): int { if x > 0 then x else 0 }

  /**
   * The state the pre-filling keeps: no group lists an id twice, and each
   * group's seat count is its starting count less its members, but never
   * below 0.
   */
  ghost predicate Filled(caps0: seq<int>, d: Draft) {
    && Keyed(d) && |d.caps| == |caps0|
    && (forall g :: g in d.members ==> Distinct(d.members[g]))
    && (forall i :: 0 <= i < |caps0| ==> d.caps[i] == Max0(caps0[i] - |d.members[i + 1]|))
  }

  lemma AddDefaultFilled(caps0: seq<int>, d: Draft, g: int, uid: UserId)
    requires Filled(caps0, d) && 1 <= g <= |d.caps|
    ensures Filled(caps0, AddDefault(d, g, uid))
  {
    var r := AddDefault(d, g, uid);
    if uid !in d.members[g] {
      forall h | h in r.members ensures Distinct(r.members[h]) {
        if h == g {
          assert r.members[h] == d.members[g] + [uid];
        }
      }
      forall i | 0 <= i < |caps0| ensures r.caps[i] == Max0(caps0[i] - |r.members[i + 1]|) {
        if i + 1 == g {
          assert |r.members[g]| == |d.members[g]| + 1;
        }
      }
    }
  }

  lemma {:induction false} AddAllFilled(caps0: seq<int>, d: Draft, g: int, ids: seq<UserId>)
    requires Filled(caps0, d) && 1 <= g <= |d.caps|
    ensures Filled(caps0, AddAll(d, g, ids))
    decreases |ids|
  {
    if ids != [] {
      AddDefaultFilled(caps0, d, g, ids[0]);
      AddAllFilled(caps0, AddDefault(d, g, ids[0]), g, ids[1..]);
    }
  }

  /** The ids of one line are added to group g, and nothing else changes membership. */
  lemma {:induction false} AddAllMember(d: Draft, g: int, ids: seq<UserId>, h: int, u: UserId)
    requires Keyed(d) && 1 <= g <= |d.caps| && h in d.members
    ensures u in AddAll(d, g, ids).members[h] <==> u in d.members[h] || (h == g && u in ids)
    decreases |ids|
  {
    if ids != [] {
      var d1 := AddDefault(d, g, ids[0]);
      assert u in d1.members[h] <==> u in d.members[h] || (h == g && u == ids[0]);
      AddAllMember(d1, g, ids[1..], h, u);
      assert u in ids <==> u == ids[0] || u in ids[1..] by {
        assert ids == [ids[0]] + ids[1..];
      }
    }
  }

  /** Line `line` puts u into group h. */
  predicate LineAdds(line: string, h: int, u: UserId) {
    DefaultLine(line).Some? && DefaultLine(line).value.0 == h && u in MentionIds(DefaultLine(line).value.1)
  }

  lemma AddLineFilled(caps0: seq<int>, d: Draft, line: string)
    requires Filled(caps0, d)
    ensures Filled(caps0, AddLine(d, line))
  {
    var m := DefaultLine(line);
    if m.Some? && 1 <= m.value.0 <= |d.caps| {
      AddAllFilled(caps0, d, m.value.0, MentionIds(m.value.1));
    }
  }

  lemma AddLineMember(d: Draft, line: string, h: int, u: UserId)
    requires Keyed(d) && h in d.members
    ensures u in AddLine(d, line).members[h] <==> u in d.members[h] || LineAdds(line, h, u)
  {
    var m := DefaultLine(line);
    if m.Some? && 1 <= m.value.0 <= |d.caps| {
      AddAllMember(d, m.value.0, MentionIds(m.value.1), h, u);
    }
  }

  /** Some line among `lines` puts u into group h. */
  predicate SomeLineAdds(lines: seq<string>, h: int, u: UserId) {
    exists k :: 0 <= k < |lines| && LineAdds(lines[k], h, u)
  }

  lemma SomeLineAddsCons(lines: seq<string>, h: int, u: UserId)
    requires |lines| > 0
    ensures SomeLineAdds(lines, h, u) <==> LineAdds(lines[0], h, u) || SomeLineAdds(lines[1..], h, u)
  {
    if SomeLineAdds(lines[1..], h, u) {
      LaterLineAdds(lines, h, u);
    }
    if SomeLineAdds(lines, h, u) && !LineAdds(lines[0], h, u) {
      RestLineAdds(lines, h, u);
    }
  }

  lemma LaterLineAdds(lines: seq<string>, h: int, u: UserId)
    requires |lines| > 0 && SomeLineAdds(lines[1..], h, u)
    ensures SomeLineAdds(lines, h, u)
  {
    var k :| 0 <= k < |lines[1..]| && LineAdds(lines[1..][k], h, u);
    assert lines[1..][k] == lines[k + 1];
  }

  lemma RestLineAdds(lines: seq<string>, h: int, u: UserId)
    requires |lines| > 0 && SomeLineAdds(lines, h, u) && !LineAdds(lines[0], h, u)
    ensures SomeLineAdds(lines[1..], h, u)
  {
    var k :| 0 <= k < |lines| && LineAdds(lines[k], h, u);
    assert k != 0 by {
      if k == 0 {
        assert false;
      }
    }
    var line := lines[k];
    assert lines[1..][k - 1] == line;
    assert LineAdds(line, h, u);
  }

  lemma {:induction false} AddLinesFilled(caps0: seq<int>, d: Draft, lines: seq<string>)
    requires Filled(caps0, d)
    ensures Filled(caps0, AddLines(d, lines))
    decreases |lines|
  {
    if lines != [] {
      AddLineFilled(caps0, d, lines[0]);
      AddLinesFilled(caps0, AddLine(d, lines[0]), lines[1..]);
    }
  }

  /** The lines add exactly the ids they mention to the groups they name. */
  lemma {:induction false} AddLinesMember(d: Draft, lines: seq<string>, h: int, u: UserId)
    requires Keyed(d) && h in d.members
    ensures u in AddLines(d, lines).members[h] <==> u in d.members[h] || SomeLineAdds(lines, h, u)
    decreases |lines|
  {
    if lines != [] {
      AddLineMember(d, lines[0], h, u);
      AddLinesMember(AddLine(d, lines[0]), lines[1..], h, u);
      SomeLineAddsCons(lines, h, u);
    }
  }

  /**
   * The defaults option, whole: every group lists each mentioned id once,
   * exactly the ids mentioned on its lines, and its seat count is the
   * starting count less its members, never below 0 (so a group can be
   * filled beyond its seats).
   */
  lemma DefaultsEffect(text: string, caps0: seq<int>)
    requires forall i :: 0 <= i < |caps0| ==> caps0[i] >= 0
    ensures var d := Defaults(text, caps0);
      && (forall g :: g in d.members ==> Distinct(d.members[g]))
      && (forall i :: 0 <= i < |caps0| ==> d.caps[i] == Max0(caps0[i] - |d.members[i + 1]|))
      && (forall i :: 0 <= i < |d.caps| ==> d.caps[i] >= 0)
      && forall g, u :: 1 <= g <= |caps0| ==>
           (u in d.members[g] <==> SomeLineAdds(DefaultLines(text), g, u))
  {
    var d0 := Draft(caps0, EmptyMembers(|caps0|));
    AddLinesFilled(caps0, d0, DefaultLines(text));
    var d := Defaults(text, caps0);
    forall g, u | 1 <= g <= |caps0|
      ensures u in d.members[g] <==> SomeLineAdds(DefaultLines(text), g, u)
    {
      AddLinesMember(d0, DefaultLines(text), g, u);
    }
  }

  /** The inner loop: each id not yet in group gi is pushed, and takes a seat while one is left. */
  method AddIds(caps0: seq<int>, members0: map<int, seq<UserId>>, gi: int, ids: seq<UserId>)
      returns (caps: seq<int>, members: map<int, seq<UserId>>)
    requires Keyed(Draft(caps0, members0)) && 1 <= gi <= |caps0|
    ensures Draft(caps, members) == AddAll(Draft(caps0, members0), gi, ids)
  {
    caps, members := caps0, members0;
    var j := 0;
    while j < |ids|
      invariant 0 <= j <= |ids|
      invariant Keyed(Draft(caps, members)) && |caps| == |caps0|
      invariant AddAll(Draft(caps, members), gi, ids[j..]) == AddAll(Draft(caps0, members0), gi, ids)
    {
      assert ids[j..][1..] == ids[j + 1..];
      ghost var before := Draft(caps, members);
      var uid := ids[j];
      if uid !in members[gi] {
        members := members[gi := members[gi] + [uid]];
        if caps[gi - 1] > 0 {
          caps := caps[gi - 1 := caps[gi - 1] - 1];
        }
      }
      assert Draft(caps, members) == AddDefault(before, gi, uid);
      j := j + 1;
    }
  }

  /** One line of the outer loop: skipped unless it matches and names a group. */
  method AddOneLine(caps0: seq<int>, members0: map<int, seq<UserId>>, line: string)
      returns (caps: seq<int>, members: map<int, seq<UserId>>)
    requires Keyed(Draft(caps0, members0))
    ensures Draft(caps, members) == AddLine(Draft(caps0, members0), line)
  {
    caps, members := caps0, members0;
    var m := DefaultLine(line);
    if m.Some? && 1 <= m.value.0 <= |caps| {
      caps, members := AddIds(caps, members, m.value.0, MentionIds(m.value.1));
    }
  }

  /** The outer loop: each line that names a group adds its mentions to that group. */
  method AddLineByLine(caps0: seq<int>, members0: map<int, seq<UserId>>, lines: seq<string>)
      returns (caps: seq<int>, members: map<int, seq<UserId>>)
    requires Keyed(Draft(caps0, members0))
    ensures Draft(caps, members) == AddLines(Draft(caps0, members0), lines)
  {
    caps, members := caps0, members0;
    var i := 0;
    while i < |lines|
      invariant 0 <= i <= |lines|
      invariant Keyed(Draft(caps, members)) && |caps| == |caps0|
      invariant AddLines(Draft(caps, members), lines[i..]) == AddLines(Draft(caps0, members0), lines)
    {
      assert lines[i..][1..] == lines[i + 1..];
      caps, members := AddOneLine(caps, members, lines[i]);
      i := i + 1;
    }
  }

  /** The defaults loop (api/discord.js:314-331), updating the seat counts and the member lists in place. */
  method ApplyDefaults(text: string, caps0: seq<int>) returns (caps: seq<int>, members: map<int, seq<UserId>>)
    ensures Draft(caps, members) == Defaults(text, caps0)
  {
    caps := caps0;
    members := EmptyMembers(|caps0|);
    var t := Trim(text);
    if t != "" {
      caps, members := AddLineByLine(caps, members, Split(t, '\n'));
    }
  }

  /** The command's options. */
  datatype CommandOptions = CommandOptions(caps: Option<string>, multi: bool, title: Option<string>, defaults: Option<string>)

  /** The roster the command creates, or None when no seat count could be read (the "bad format" reply). */
  function Created(opts: CommandOptions, ownerId: UserId): Option<State>
  {
    var caps := ParseCaps(CapsText(opts.caps));
    if caps == [] then None
    else
      var d := Defaults(OrEmpty(opts.defaults), caps);
      Some(State(Trim(OrEmpty(opts.title)), d.caps, d.members, opts.multi, ownerId))
  }

  /** `/cteam`: parse the options, pre-fill the groups, and build the first roster. */
  method CreateRoster(opts: CommandOptions, ownerId: UserId) returns (r: Option<State>)
    ensures r == Created(opts, ownerId)
  {
    var caps := ParseCaps(CapsText(opts.caps));
    if |caps| == 0 {
      return None;
    }
    var members;
    caps, members := ApplyDefaults(OrEmpty(opts.defaults), caps);
    r := Some(State(Trim(OrEmpty(opts.title)), caps, members, opts.multi, ownerId));
  }

  /**
   * A created roster is well formed, has at least one group, no negative
   * seat count and no duplicate within a group; it is refused exactly when
   * no seat count could be read.
   */
  lemma CreatedValid(opts: CommandOptions, ownerId: UserId)
    ensures Created(opts, ownerId).None? <==> ParseCaps(CapsText(opts.caps)) == []
    ensures Created(opts, ownerId).Some? ==>
      var s := Created(opts, ownerId).value;
      WellFormed(s) && |s.caps| >= 1 && CapsNonNegative(s) && NoDuplicates(s)
  {
    var caps := ParseCaps(CapsText(opts.caps));
    if caps != [] {
      DefaultsEffect(OrEmpty(opts.defaults), caps);
    }
  }

  /** The defaults line `g: <@u>`. */
  function DefaultEntry(g: nat, u: UserId): string
  {
    NatToString(g) + ": " + MentionsText([u])
  }

  lemma EntryShape(g: nat, u: UserId)
    requires IsSnowflake(u)
    ensures var e := DefaultEntry(g, u);
      && |e| > 0 && IsDigit(e[0]) && e[|e| - 1] == '>' && '\n' !in e
  {
    var e := DefaultEntry(g, u);
    var num := NatToString(g);
    assert e == num + (": <@" + u + ">");
    assert e[0] == num[0];
    forall k | 0 <= k < |e| ensures e[k] != '\n' {
      if k >= |num| + 4 && k < |e| - 1 {
        assert e[k] == u[k - |num| - 4];
      }
    }
  }

  lemma MentionClean(u: UserId)
    requires IsSnowflake(u)
    ensures var rest := MentionsText([u]);
      |rest| > 0 && !IsJsSpace(rest[0]) && !IsJsSpace(rest[|rest| - 1]) && !HasLineTerminator(rest)
  {
    var rest := MentionsText([u]);
    assert rest == "<@" + u + ">";
    assert rest[0] == '<' && rest[|rest| - 1] == '>';
    forall k | 0 <= k < |rest| ensures !IsLineTerminator(rest[k]) {
      if 2 <= k < |rest| - 1 {
        assert rest[k] == u[k - 2];
      }
    }
  }

  lemma EntryLine(g: nat, u: UserId)
    requires IsSnowflake(u)
    ensures DefaultLine(DefaultEntry(g, u)) == Some((g, MentionsText([u])))
  {
    MentionClean(u);
    DefaultLineRoundTrip(g, MentionsText([u]));
  }

  /** The line `g: <@u>` puts u into group g. */
  lemma EntryAdds(g: nat, u: UserId, e: string)
    requires IsSnowflake(u) && e == DefaultEntry(g, u)
    ensures LineAdds(e, g, u)
  {
    var rest := MentionsText([u]);
    EntryLine(g, u);
    SingleMention(u, rest);
  }

  lemma SingleMention(u: UserId, rest: string)
    requires IsSnowflake(u) && rest == MentionsText([u])
    ensures MentionIds(rest) == [u]
  {
    MentionIdsRoundTrip([u]);
  }

  /** The text `g: <@u>` newline `h: <@u>` reads as those two lines. */
  lemma EntriesLines(g: nat, h: nat, u: UserId)
    requires IsSnowflake(u)
    ensures DefaultLines(DefaultEntry(g, u) + "\n" + DefaultEntry(h, u)) == [DefaultEntry(g, u), DefaultEntry(h, u)]
  {
    var e1, e2 := DefaultEntry(g, u), DefaultEntry(h, u);
    var text := e1 + "\n" + e2;
    EntryShape(g, u);
    EntryShape(h, u);
    assert Trim(text) == text by {
      assert text[0] == e1[0] && text[|text| - 1] == e2[|e2| - 1];
      TrimClean(text);
    }
    assert Split(text, '\n') == [e1, e2] by {
      assert text == JoinWith([e1, e2], '\n');
      SplitJoin([e1, e2], '\n');
    }
  }

  /** Two lines naming different groups and mentioning the same id put it in both. */
  lemma SameIdTwoGroups(text: string, caps0: seq<int>, g: int, h: int, u: UserId)
    requires forall i :: 0 <= i < |caps0| ==> caps0[i] >= 0
    requires 1 <= g <= |caps0| && 1 <= h <= |caps0|
    requires |DefaultLines(text)| >= 2
    requires LineAdds(DefaultLines(text)[0], g, u) && LineAdds(DefaultLines(text)[1], h, u)
    ensures u in Defaults(text, caps0).members[g] && u in Defaults(text, caps0).members[h]
  {
    DefaultsEffect(text, caps0);
    assert SomeLineAdds(DefaultLines(text), g, u);
    assert SomeLineAdds(DefaultLines(text), h, u);
  }

  lemma NumeralsText(caps: seq<nat>)
    requires |caps| >= 1
    ensures JoinWith(Numerals(caps), ',') != ""
  {
    if |caps| > 1 {
      assert JoinWith(Numerals(caps), ',')[|Numerals(caps)[0]|] == ',';
    }
  }

  /**
   * The defaults option does not look at the "multiple groups" switch: with
   * it off, the lines `g: <@u>` and `h: <@u>` put the same user in two
   * groups.
   */
  lemma DefaultsIgnoreMulti(caps: seq<nat>, g: nat, h: nat, u: UserId)
    requires 1 <= g <= |caps| && 1 <= h <= |caps| && g != h && IsSnowflake(u)
    ensures var opts := CommandOptions(Some(JoinWith(Numerals(caps), ',')), false, None,
                                       Some(DefaultEntry(g, u) + "\n" + DefaultEntry(h, u)));
      && Created(opts, "").Some?
      && InGroup(Created(opts, "").value, g, u) && InGroup(Created(opts, "").value, h, u)
      && !SingleMembership(Created(opts, "").value)
  {
    var text := DefaultEntry(g, u) + "\n" + DefaultEntry(h, u);
    var opts := CommandOptions(Some(JoinWith(Numerals(caps), ',')), false, None, Some(text));
    assert ParseCaps(CapsText(opts.caps)) == caps by {
      NumeralsText(caps);
      CapsRoundTrip(caps);
    }
    assert u in Defaults(text, caps).members[g] && u in Defaults(text, caps).members[h] by {
      EntriesLines(g, h, u);
      EntryAdds(g, u, DefaultEntry(g, u));
      EntryAdds(h, u, DefaultEntry(h, u));
      SameIdTwoGroups(text, caps, g, h, u);
    }
  }
}
