/**
 * The message the roster is shown in (api/discord.js:96-98, 115-127): an
 * optional title line, a heading, one entry per group with its remaining
 * seats and its members as mentions, and the hidden state comment last.
 */
module Display {
  import opened Wrappers
  import opened JsText
  import opened RosterModel
  import opened StateCodec

  const Han: seq<string> := ["零", "一", "二", "三", "四", "五", "六", "七", "八", "九",
                             "十", "十一", "十二", "十三", "十四", "十五"]

  /** `hn`: the Chinese numeral for 0 to 15, the decimal numeral otherwise. */
  function Hn(n: int): (r: string)
    ensures NoAngles(r) && |r| >= 1
  {
    if 0 <= n < |Han| then Han[n] else IntToString(n)
  }

  /** `<@id>`: Discord shows the member's nickname in its place. */
  function Mention(u: UserId): string
  {
    "<@" + u + ">"
  }

  /** The members of one group, `、`-separated, or `（無）` for none. */
  function MentionLine(ids: seq<UserId>): string
  {
    if |ids| > 0 then JoinWith(seq(|ids|, k requires 0 <= k < |ids| => Mention(ids[k])), '、')
    else "（無）"
  }

  /** The entry of group i: label, remaining seats, members. */
  function GroupLine(s: State, i: int): string
    requires WellFormed(s) && IsGroup(s, i)
  {
    "第" + Hn(i) + "團（-" + IntToString(s.caps[i - 1]) + "）\n" + MentionLine(s.members[i])
  }

  /** Every line of the message but the state comment. */
  function DisplayLines(s: State): (r: seq<string>)
    requires WellFormed(s)
    ensures |r| >= 1
  {
    (if s.title != "" then [s.title] else []) + ["目前名單："]
    + seq(|s.caps|, k requires 0 <= k < |s.caps| => GroupLine(s, k + 1))
  }

  /** `buildContent`, as written. */
  function BuildContent(s: State): string
    requires WellFormed(s)
  {
    JoinWith(DisplayLines(s) + [EncodeState(s)], '\n')
  }

  /** The shown part of the message: every line but the state comment, and the line break before it. */
  function Visible(s: State): string
    requires WellFormed(s)
  {
    JoinWith(DisplayLines(s), '\n') + "\n"
  }

  /**
   * When the message reads back as written: the shown text opens no state
   * comment of its own, and the roster's JSON closes none early.
   */
  ghost predicate Frames(s: State)
    requires WellFormed(s)
  {
    Absent(Visible(s), Opening) && Absent(StateJson(s), "}-->")
  }

  /** `buildContent` with the corrected state comment. */
  function BuildContentFixed(s: State): string
    requires WellFormed(s)
  {
    JoinWith(DisplayLines(s) + [EncodeStateFixed(s)], '\n')
  }

  lemma MentionsOnlyJoin(parts: seq<string>, sep: char)
    requires sep != '<' && forall k :: 0 <= k < |parts| ==> MentionsOnly(parts[k])
    ensures MentionsOnly(JoinWith(parts, sep))
  {
    if |parts| > 1 {
      MentionsOnlyJoin(parts[1..], sep);
      MentionsOnlyConcat(parts[0], [sep]);
      MentionsOnlyConcat(parts[0] + [sep], JoinWith(parts[1..], sep));
    }
  }

  /** No title or member id holds a `<`. */
  predicate NoLt(s: State) {
    '<' !in s.title && forall g, u :: g in s.members && u in s.members[g] ==> '<' !in u
  }

  lemma GroupLineMentionsOnly(s: State, i: int)
    requires WellFormed(s) && IsGroup(s, i) && NoLt(s)
    ensures MentionsOnly(GroupLine(s, i))
  {
    var ids := s.members[i];
    if |ids| > 0 {
      var ms := seq(|ids|, j requires 0 <= j < |ids| => Mention(ids[j]));
      forall j | 0 <= j < |ms| ensures MentionsOnly(ms[j]) {
        assert '<' !in ids[j];
        assert ms[j] == "<@" + ids[j] + ">";
      }
      MentionsOnlyJoin(ms, '、');
    }
    var head := "第" + Hn(i) + "團（-" + IntToString(s.caps[i - 1]) + "）\n";
    assert '<' !in head;
    MentionsOnlyConcat(head, MentionLine(ids));
  }

  /** Text without `<` trivially has only mentions. */
  lemma NoLtMentionsOnly(t: string)
    requires '<' !in t
    ensures MentionsOnly(t)
  {
    forall i | 0 <= i < |t| ensures t[i] != '<' {
      assert t[i] in t;
    }
  }

  /** Each shown line: the title, the heading, or a group's entry. */
  /** The line at `k`: the title when there is one, the heading, then one line per group. */
  lemma DisplayLineAt(s: State, k: int)
    requires WellFormed(s) && 0 <= k < |DisplayLines(s)|
    ensures var n := if s.title != "" then 1 else 0;
      DisplayLines(s)[k] == (if k < n then s.title else if k == n then "目前名單：" else GroupLine(s, k - n))
  {
    var head := (if s.title != "" then [s.title] else []) + ["目前名單："];
    var groups := seq(|s.caps|, i requires 0 <= i < |s.caps| => GroupLine(s, i + 1));
    assert DisplayLines(s) == head + groups;
    if k >= |head| {
      assert DisplayLines(s)[k] == groups[k - |head|];
    }
  }

  lemma DisplayLineMentionsOnly(s: State, k: int)
    requires WellFormed(s) && NoLt(s) && 0 <= k < |DisplayLines(s)|
    ensures MentionsOnly(DisplayLines(s)[k])
  {
    DisplayLineAt(s, k);
    var n := if s.title != "" then 1 else 0;
    if k < n {
      NoLtMentionsOnly(s.title);
    } else if k == n {
      NoLtMentionsOnly("目前名單：");
    } else {
      GroupLineMentionsOnly(s, k - n);
    }
  }

  /** With no `<` in the roster's text, every `<` of the shown lines opens a mention. */
  lemma DisplayMentionsOnly(s: State)
    requires WellFormed(s) && NoLt(s)
    ensures MentionsOnly(Visible(s))
  {
    var lines := DisplayLines(s);
    forall k | 0 <= k < |lines| ensures MentionsOnly(lines[k]) {
      DisplayLineMentionsOnly(s, k);
    }
    MentionsOnlyJoin(lines, '\n');
    NoLtMentionsOnly("\n");
    MentionsOnlyConcat(JoinWith(lines, '\n'), "\n");
  }

  lemma NoLtOfClean(s: State)
    requires Clean(s)
    ensures NoLt(s)
  {
    forall g, u | g in s.members && u in s.members[g] ensures '<' !in u {
      assert NoAngles(u);
    }
  }

  /** The message is the shown lines, a line break, and the state comment. */
  lemma ContentShape(s: State)
    requires WellFormed(s)
    ensures BuildContent(s) == Visible(s) + Marker + StateJson(s) + "-->"
    ensures BuildContentFixed(s) == Visible(s) + EncodeStateFixed(s)
  {
    JoinWithSnoc(DisplayLines(s), EncodeState(s), '\n');
    JoinWithSnoc(DisplayLines(s), EncodeStateFixed(s), '\n');
    Regroup(Visible(s), Marker, StateJson(s), "-->");
  }

  lemma Regroup(p: string, a: string, b: string, c: string)
    ensures p + (a + b + c) == p + a + b + c
  {
  }

  /**
   * As written, the message round-trips exactly when it frames: the decoder
   * finds the JSON `encodeState` wrote when the shown text opens no state
   * comment and the JSON holds no `}-->`.
   */
  lemma ContentRoundTrip(s: State)
    requires WellFormed(s) && Frames(s)
    ensures MatchState(BuildContent(s)) == Some(StateJson(s))
  {
    ContentShape(s);
    FrameRoundTrip(Visible(s), StateJson(s));
  }

  /** A JSON holding `}-->` is cut short: the decoder does not get the roster's JSON back. */
  lemma ContentCutShort(s: State, k: nat)
    requires WellFormed(s) && Absent(Visible(s), Opening) && OccursAt(StateJson(s), "}-->", k)
    ensures MatchState(BuildContent(s)) != Some(StateJson(s))
  {
    ContentShape(s);
    FrameCutShort(Visible(s), StateJson(s), k);
  }

  /** A roster whose text holds no `<` shows nothing that opens a state comment. */
  lemma NoLtOpensNothing(s: State)
    requires WellFormed(s) && NoLt(s)
    ensures Absent(Visible(s), Opening)
  {
    DisplayMentionsOnly(s);
    MentionsOnlyNoOpening(Visible(s));
  }

  /** A roster whose title, owner and ids hold no angle bracket always frames. */
  lemma CleanFrames(s: State)
    requires WellFormed(s) && Clean(s)
    ensures Frames(s)
  {
    NoLtOfClean(s);
    NoLtOpensNothing(s);
    NoGtNoClose(StateJson(s));
  }

  /** A character JSON.stringify writes as itself. */
  predicate Plain(c: char) {
    c != '"' && c != '\\' && c as int >= 0x20
  }

  lemma {:induction false} QuotePlain(t: string)
    requires forall i :: 0 <= i < |t| ==> Plain(t[i])
    ensures QuoteChars(t) == t
  {
    if t != [] {
      QuotePlain(t[1..]);
    }
  }

  lemma QuoteCloser()
    ensures Quote("}-->") == "\"}-->\""
  {
    QuotePlain("}-->");
  }

  /** The JSON of a roster titled `}-->` opens with that title. */
  lemma TitleJsonPrefix(s: State)
    requires WellFormed(s) && s.title == "}-->"
    ensures StartsWith(StateJson(s), "{\"title\":\"}-->\"")
  {
    QuoteCloser();
    TitleCloser();
    StateJsonTitle(s);
  }

  lemma TitleCloser()
    ensures TitleOpen + "\"}-->\"" == "{\"title\":\"}-->\""
  {
  }

  /** What a JSON opening with a `}-->` title holds in its first fifteen characters. */
  lemma ClosingTitleHead(j: string)
    requires StartsWith(j, "{\"title\":\"}-->\"")
    ensures j[0] == '{' && j[10..14] == "}-->" && j[..11] == "{\"title\":\"}"
    ensures forall m :: 1 <= m < 10 ==> j[m] != '}'
  {
    assert j[..15] == "{\"title\":\"}-->\"";
    assert j[10..14] == j[..15][10..14];
    assert j[..11] == j[..15][..11];
    forall m | 1 <= m < 10 ensures j[m] != '}' {
      assert j[m] == j[..15][m];
    }
  }

  /** The first `}-->` after the opening brace is the one inside the title. */
  lemma CloseInTitle(a: string, j: string)
    requires StartsWith(j, "{\"title\":\"}-->\"")
    ensures Find(a + j + "-->", "}-->", |a| + 1) == Some(|a| + 10)
  {
    ClosingTitleHead(j);
    var c := a + j + "-->";
    var k := |a|;
    MiddleSlice(a, j, "-->", 10, 14);
    forall i | k + 1 <= i < k + 10 ensures !OccursAt(c, "}-->", i) {
      MiddleSlice(a, j, "-->", i - k, i - k + 1);
      assert c[i] == c[i..i + 1][0];
      assert c[i..i + 4][0] == c[i];
    }
    FindAt(c, "}-->", k + 1, k + 10);
  }

  /** After the title's `}-->`, the lazy pattern stops: it captures `{"title":"}`. */
  lemma EarlyClose(pre: string, j: string)
    requires Absent(pre, Opening) && StartsWith(j, "{\"title\":\"}-->\"")
    ensures MatchState(pre + Marker + j + "-->") == Some("{\"title\":\"}")
  {
    ClosingTitleHead(j);
    var a := pre + Marker;
    MarkerOpens(j, "-->");
    FirstMarkerAt(pre, Marker + j + "-->");
    assert a + j + "-->" == pre + (Marker + j + "-->");
    CloseInTitle(a, j);
    MiddleSlice(a, j, "-->", 0, 11);
  }

  /**
   * A title holding `}-->` ends the captured text early: the decoder hands
   * `{"title":"}` to `JSON.parse` instead of the roster's JSON, whatever
   * the rest of the roster is.
   */
  lemma TitleBreaksDecode(s: State)
    requires WellFormed(s) && Absent(Visible(s), Opening) && s.title == "}-->"
    ensures MatchState(BuildContent(s)) == Some("{\"title\":\"}")
    ensures MatchState(BuildContent(s)) != Some(StateJson(s))
  {
    var j := StateJson(s);
    TitleJsonPrefix(s);
    ContentShape(s);
    EarlyClose(Visible(s), j);
    assert |"{\"title\":\"}"| == 11 < 15 <= |j|;
  }

  /** The corrected message round-trips for every roster. */
  lemma ContentFixedRoundTrip(s: State)
    requires WellFormed(s)
    ensures MatchStateFixed(BuildContentFixed(s)) == Some(StateJson(s))
  {
    JoinWithSnoc(DisplayLines(s), EncodeStateFixed(s), '\n');
    FixedStateRoundTrip(Visible(s), s);
  }

  /** As written, a roster whose message frames is read back from it. */
  lemma DecodeRoundTrip(s: State, parse: string -> Option<State>)
    requires WellFormed(s) && Frames(s) && ParsesBack(parse)
    ensures DecodeStateFrom(BuildContent(s), parse) == Some(s)
  {
    ContentRoundTrip(s);
  }

  /** With the corrected comment, every roster is read back from its message. */
  lemma DecodeFixedRoundTrip(s: State, parse: string -> Option<State>)
    requires WellFormed(s) && ParsesBack(parse)
    ensures DecodeStateFixed(BuildContentFixed(s), parse) == Some(s)
  {
    ContentFixedRoundTrip(s);
  }
}
