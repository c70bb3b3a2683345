/**
 * The roster is saved inside the message it is shown in, as a hidden HTML
 * comment `<!--state:{json}-->` at the end of the content
 * (api/discord.js:103-112).  This module writes that comment, finds it again,
 * and holds the corrected framing the rest of the model uses.
 */
module StateCodec {
  import opened Wrappers
  import opened JsText
  import opened RosterModel

  /** `pat` occurs in t at position i. */
  predicate OccursAt(t: string, pat: string, i: int) {
    0 <= i && i + |pat| <= |t| && t[i..i + |pat|] == pat
  }

  /** pat occurs nowhere in t. */
  ghost predicate Absent(t: string, pat: string) {
    forall i :: !OccursAt(t, pat, i)
  }

  /** The first position at or after `from` where pat occurs. */
  function Find(t: string, pat: string, from: nat): (r: Option<nat>)
    ensures r.Some? ==> from <= r.value && OccursAt(t, pat, r.value)
    ensures r.Some? ==> forall i :: from <= i < r.value ==> !OccursAt(t, pat, i)
    ensures r.None? ==> forall i :: from <= i ==> !OccursAt(t, pat, i)
    decreases |t| - from
  {
    if from + |pat| > |t| then None
    else if OccursAt(t, pat, from) then Some(from)
    else Find(t, pat, from + 1)
  }

  /** The last position below `hi` where pat occurs (`lastIndexOf`). */
  function FindLast(t: string, pat: string, hi: nat): (r: Option<nat>)
    ensures r.Some? ==> r.value < hi && OccursAt(t, pat, r.value)
    ensures r.Some? ==> forall i :: r.value < i < hi ==> !OccursAt(t, pat, i)
    ensures r.None? ==> forall i :: 0 <= i < hi ==> !OccursAt(t, pat, i)
  {
    if hi == 0 then None
    else if OccursAt(t, pat, hi - 1) then Some(hi - 1)
    else FindLast(t, pat, hi - 1)
  }

  /** Neither angle bracket occurs in t. */
  predicate NoAngles(t: string) { '<' !in t && '>' !in t }

  lemma Glue(a: string, b: string)
    ensures NoAngles(a + b) <==> NoAngles(a) && NoAngles(b)
  {
    assert forall c :: c in a + b <==> c in a || c in b;
  }

  function HexDigit(d: nat): (c: char)
    requires d < 16
    ensures c != '<' && c != '>'
  {
    "0123456789abcdef"[d]
  }

  /** One character as `JSON.stringify` writes it inside a string literal. */
  function QuoteChar(c: char): (r: string)
    ensures '<' in r <==> c == '<'
    ensures '>' in r <==> c == '>'
  {
    if c == '"' then "\\\""
    else if c == '\\' then "\\\\"
    else if c == '\U{0008}' then "\\b"
    else if c == '\U{000C}' then "\\f"
    else if c == '\n' then "\\n"
    else if c == '\r' then "\\r"
    else if c == '\t' then "\\t"
    else if (c as int) < 0x20 then "\\u00" + [HexDigit(c as int / 16), HexDigit(c as int % 16)]
    else [c]
  }

  function QuoteChars(t: string): (r: string)
    ensures '<' in r <==> '<' in t
    ensures '>' in r <==> '>' in t
  {
    if t == [] then "" else QuoteChar(t[0]) + QuoteChars(t[1..])
  }

  /** A JSON string literal; it holds an angle bracket only if the text does. */
  function Quote(t: string): (r: string)
    ensures NoAngles(r) <==> NoAngles(t)
  {
    "\"" + QuoteChars(t) + "\""
  }

  /** A JSON array of integers. */
  function IntsJson(xs: seq<int>): (r: string)
    ensures NoAngles(r)
  {
    if xs == [] then ""
    else if |xs| == 1 then IntToString(xs[0])
    else IntToString(xs[0]) + "," + IntsJson(xs[1..])
  }

  /** A JSON array of user ids. */
  function IdsJson(ids: seq<UserId>): (r: string)
    ensures (forall k :: 0 <= k < |ids| ==> NoAngles(ids[k])) ==> NoAngles(r)
  {
    if ids == [] then ""
    else if |ids| == 1 then Quote(ids[0])
    else Quote(ids[0]) + "," + IdsJson(ids[1..])
  }

  /** No title, owner or member id holds an angle bracket. */
  predicate Clean(s: State) {
    && NoAngles(s.title) && NoAngles(s.ownerId)
    && forall g, u :: g in s.members && u in s.members[g] ==> NoAngles(u)
  }

  /** The members object from key i on: `"i":[...]`, keys in increasing order. */
  function MembersJson(s: State, i: nat): (r: string)
    requires WellFormed(s) && i >= 1
    ensures Clean(s) ==> NoAngles(r)
    decreases |s.caps| - i
  {
    if i > |s.caps| then ""
    else
      var entry := Quote(NatToString(i)) + ":[" + IdsJson(s.members[i]) + "]";
      assert Clean(s) ==> forall k :: 0 <= k < |s.members[i]| ==> NoAngles(s.members[i][k]);
      if i == |s.caps| then entry else entry + "," + MembersJson(s, i + 1)
  }

  function CapsField(s: State): (r: string)
    ensures NoAngles(r)
  {
    Glue(",\"caps\":[", IntsJson(s.caps));
    Glue(",\"caps\":[" + IntsJson(s.caps), "]");
    ",\"caps\":[" + IntsJson(s.caps) + "]"
  }

  function MembersField(s: State): (r: string)
    requires WellFormed(s)
    ensures Clean(s) ==> NoAngles(r)
  {
    Glue(",\"members\":{", MembersJson(s, 1));
    Glue(",\"members\":{" + MembersJson(s, 1), "}");
    ",\"members\":{" + MembersJson(s, 1) + "}"
  }

  function MultiField(s: State): (r: string)
    ensures NoAngles(r)
  {
    if s.multi then ",\"multi\":true" else ",\"multi\":false"
  }

  function OwnerField(s: State): (r: string)
    ensures NoAngles(r) <==> NoAngles(s.ownerId)
  {
    Glue(",\"ownerId\":", Quote(s.ownerId));
    ",\"ownerId\":" + Quote(s.ownerId)
  }

  /** The object after its first key: the remaining fields and the closing brace. */
  function TailJson(s: State): (r: string)
    requires WellFormed(s)
    ensures |r| >= 1 && r[|r| - 1] == '}'
    ensures Clean(s) ==> NoAngles(r)
  {
    var caps, members, multi, owner := CapsField(s), MembersField(s), MultiField(s), OwnerField(s);
    Glue(owner, "}");
    Glue(multi, owner + "}");
    Glue(members, multi + (owner + "}"));
    Glue(caps, members + (multi + (owner + "}")));
    caps + (members + (multi + (owner + "}")))
  }

  /** The opening of the object: its brace and the first key, `title`. */
  const TitleOpen: string := "{\"title\":"

  /**
   * `JSON.stringify` of the roster object (`messageId` is set to
   * `undefined`, so it is not written).  It is an object literal, and it
   * holds an angle bracket only if the roster's text does.
   */
  function StateJson(s: State): (r: string)
    requires WellFormed(s)
    ensures |r| >= 2 && r[0] == '{' && r[|r| - 1] == '}'
    ensures Clean(s) ==> NoAngles(r)
  {
    var tail := TailJson(s);
    Glue(TitleOpen, Quote(s.title));
    Glue(TitleOpen + Quote(s.title), tail);
    TitleOpen + Quote(s.title) + tail
  }

  /** The JSON opens with the title, as the first key. */
  lemma StateJsonTitle(s: State)
    requires WellFormed(s)
    ensures StartsWith(StateJson(s), TitleOpen + Quote(s.title))
  {
    var head := TitleOpen + Quote(s.title);
    assert StateJson(s)[..|head|] == head;
  }

  const Marker: string := "<!--state:"
  /** What the decoder looks for first: the marker and the JSON object's opening brace. */
  const Opening: string := "<!--state:{"

  /** `encodeState`: the hidden comment carrying the roster. */
  function EncodeState(s: State): (r: string)
    requires WellFormed(s)
    ensures StartsWith(r, Marker)
  {
    Marker + StateJson(s) + "-->"
  }

  /**
   * The text the pattern `<!--state:({[\s\S]*?})-->` captures: the first
   * `<!--state:{`, then the first `}-->` after that opening brace.
   */
  function MatchState(content: string): (r: Option<string>)
  {
    match Find(content, Opening, 0)
    case None => None
    case Some(p) =>
      match Find(content, "}-->", p + 11)
      case None => None
      case Some(q) => Some(content[p + 10..q + 1])
  }

  /** `decodeStateFrom`, with `JSON.parse` given as `parse` (None where it throws). */
  function DecodeStateFrom(content: string, parse: string -> Option<State>): Option<State>
  {
    match MatchState(content)
    case None => None
    case Some(j) => parse(j)
  }

  /** `JSON.parse` undoes `JSON.stringify` on every roster the program writes. */
  ghost predicate ParsesBack(parse: string -> Option<State>) {
    forall t :: WellFormed(t) ==> parse(StateJson(t)) == Some(t)
  }

  /** Content with no state comment decodes to null. */
  lemma NoMarkerNoState(content: string, parse: string -> Option<State>)
    requires Absent(content, Opening)
    ensures DecodeStateFrom(content, parse) == None
  {
  }

  /** Every `<` in t is followed by `@`, as in a mention `<@id>`. */
  predicate MentionsOnly(t: string) {
    forall i :: 0 <= i < |t| && t[i] == '<' ==> i + 1 < |t| && t[i + 1] == '@'
  }

  lemma MentionsOnlyConcat(a: string, b: string)
    requires MentionsOnly(a) && MentionsOnly(b)
    ensures MentionsOnly(a + b)
  {
    forall i | 0 <= i < |a + b| && (a + b)[i] == '<' ensures i + 1 < |a + b| && (a + b)[i + 1] == '@' {
      if i < |a| {
        assert a[i] == '<';
      } else {
        assert b[i - |a|] == '<';
      }
    }
  }

  /** The piece of a + j + b that lies inside j. */
  lemma MiddleSlice(a: string, j: string, b: string, lo: nat, hi: nat)
    requires lo <= hi <= |j|
    ensures (a + j + b)[|a| + lo..|a| + hi] == j[lo..hi]
  {
  }

  /** The marker followed by an object opens with `<!--state:{`. */
  lemma MarkerOpens(j: string, b: string)
    requires |j| >= 1 && j[0] == '{'
    ensures StartsWith(Marker + j + b, Opening)
  {
    assert (Marker + j + b)[..11] == Marker + [j[0]];
  }

  /** Text whose only `<` open mentions holds no `<!--state:{`. */
  lemma MentionsOnlyNoOpening(pre: string)
    requires MentionsOnly(pre)
    ensures Absent(pre, Opening)
  {
    forall i ensures !OccursAt(pre, Opening, i) {
      if 0 <= i && i + 11 <= |pre| {
        if pre[i] == '<' {
          assert pre[i..i + 11][1] == pre[i + 1];
        } else {
          assert pre[i..i + 11][0] == pre[i];
        }
      }
    }
  }

  /** After text that opens no state comment, the decoder's marker is found where the comment starts. */
  lemma FirstMarkerAt(pre: string, rest: string)
    requires Absent(pre, Opening) && StartsWith(rest, Opening)
    ensures Find(pre + rest, Opening, 0) == Some(|pre|)
  {
    var c := pre + rest;
    assert c[|pre|..|pre| + 11] == rest[..11];
    assert OccursAt(c, Opening, |pre|);
    forall i | 0 <= i < |pre| ensures !OccursAt(c, Opening, i) {
      if i + 11 <= |pre| {
        assert c[i..i + 11] == pre[i..i + 11];
        assert !OccursAt(pre, Opening, i);
      } else if i + 11 <= |c| {
        assert c[i..i + 11][|pre| - i] == rest[0] == '<';
      }
    }
  }

  /** Find stops at the first occurrence. */
  lemma FindAt(t: string, pat: string, from: nat, q: nat)
    requires from <= q && OccursAt(t, pat, q)
    requires forall i :: from <= i < q ==> !OccursAt(t, pat, i)
    ensures Find(t, pat, from) == Some(q)
  {
  }

  /** A text with no `>` holds no `}-->`. */
  lemma NoGtNoClose(j: string)
    requires '>' !in j
    ensures Absent(j, "}-->")
  {
    forall i ensures !OccursAt(j, "}-->", i) {
      if 0 <= i && i + 4 <= |j| {
        assert j[i..i + 4][3] == j[i + 3];
      }
    }
  }

  /**
   * The as-written decoder recovers exactly the JSON that was written,
   * provided the text before the comment opens no other state comment and
   * the JSON itself holds no `}-->`.
   */
  lemma FrameRoundTrip(pre: string, j: string)
    requires Absent(pre, Opening) && |j| >= 2 && j[0] == '{' && j[|j| - 1] == '}'
    requires Absent(j, "}-->")
    ensures MatchState(pre + Marker + j + "-->") == Some(j)
  {
    var a := pre + Marker;
    assert a + j + "-->" == pre + (Marker + j + "-->");
    MarkerOpens(j, "-->");
    FirstMarkerAt(pre, Marker + j + "-->");
    CloseAtEnd(a, j);
    MiddleSlice(a, j, "-->", 0, |j|);
  }

  /** The first `}-->` after the opening brace of a JSON holding none is the one that ends the comment. */
  lemma CloseAtEnd(a: string, j: string)
    requires |j| >= 2 && j[|j| - 1] == '}' && Absent(j, "}-->")
    ensures Find(a + j + "-->", "}-->", |a| + 1) == Some(|a| + |j| - 1)
  {
    var c := a + j + "-->";
    var q := |a| + |j| - 1;
    assert c[q..q + 4] == "}-->";
    forall i | |a| + 1 <= i < q ensures !OccursAt(c, "}-->", i) {
      NoCloseInside(a, j, i);
    }
    FindAt(c, "}-->", |a| + 1, q);
  }

  /** Before the JSON's last brace, the framed text shows no `}-->`. */
  lemma NoCloseInside(a: string, j: string, i: int)
    requires |j| >= 2 && j[|j| - 1] == '}' && Absent(j, "}-->")
    requires |a| + 1 <= i < |a| + |j| - 1
    ensures !OccursAt(a + j + "-->", "}-->", i)
  {
    var c := a + j + "-->";
    if i + 4 <= |a| + |j| {
      MiddleSlice(a, j, "-->", i - |a|, i - |a| + 4);
      assert !OccursAt(j, "}-->", i - |a|);
    } else {
      var q := |a| + |j| - 1;
      assert c[i..i + 4][q - i] == c[q];
    }
  }

  /** Conversely, a JSON that holds `}-->` is cut short: the decoder captures less than was written. */
  lemma FrameCutShort(pre: string, j: string, k: nat)
    requires Absent(pre, Opening) && |j| >= 2 && j[0] == '{' && OccursAt(j, "}-->", k)
    ensures MatchState(pre + Marker + j + "-->").Some?
    ensures |MatchState(pre + Marker + j + "-->").value| <= k + 1 < |j|
  {
    var a := pre + Marker;
    var c := a + j + "-->";
    var p := |pre|;
    assert c == pre + (Marker + j + "-->");
    MarkerOpens(j, "-->");
    FirstMarkerAt(pre, Marker + j + "-->");
    assert j[k..k + 4][0] == j[k];
    MiddleSlice(a, j, "-->", k, k + 4);
    assert OccursAt(c, "}-->", p + 10 + k);
  }

  /* ---- Corrected framing ---- */

  /** The payload escape: `%`, `<` and `>` become `%25`, `%3C` and `%3E`. */
  function EscapeChar(c: char): (r: string)
    ensures NoAngles(r)
  {
    if c == '%' then "%25" else if c == '<' then "%3C" else if c == '>' then "%3E" else [c]
  }

  function Escape(t: string): (r: string)
    ensures NoAngles(r)
  {
    if t == [] then "" else EscapeChar(t[0]) + Escape(t[1..])
  }

  function Unescape(t: string): string
  {
    if t == [] then ""
    else if StartsWith(t, "%25") then "%" + Unescape(t[3..])
    else if StartsWith(t, "%3C") then "<" + Unescape(t[3..])
    else if StartsWith(t, "%3E") then ">" + Unescape(t[3..])
    else [t[0]] + Unescape(t[1..])
  }

  /** Unescaping reads one escaped character back off the front. */
  lemma UnescapeStep(c: char, tail: string)
    ensures Unescape(EscapeChar(c) + tail) == [c] + Unescape(tail)
  {
    if c == '%' || c == '<' || c == '>' {
      UnescapeCoded(c, tail);
    } else {
      UnescapePlain(c, tail);
    }
  }

  lemma UnescapeCoded(c: char, tail: string)
    requires c == '%' || c == '<' || c == '>'
    ensures Unescape(EscapeChar(c) + tail) == [c] + Unescape(tail)
  {
    var e := EscapeChar(c) + tail;
    assert e[..3] == EscapeChar(c);
    assert e[3..] == tail;
  }

  lemma UnescapePlain(c: char, tail: string)
    requires c != '%' && c != '<' && c != '>'
    ensures Unescape(EscapeChar(c) + tail) == [c] + Unescape(tail)
  {
    var e := [c] + tail;
    assert e[0] == c && e[1..] == tail;
  }

  /** Unescaping undoes escaping, for every text. */
  lemma {:induction false} UnescapeEscape(t: string)
    ensures Unescape(Escape(t)) == t
  {
    if t != [] {
      UnescapeStep(t[0], Escape(t[1..]));
      UnescapeEscape(t[1..]);
      assert t == [t[0]] + t[1..];
    }
  }

  /** The corrected comment: the payload cannot hold `<` or `>`, so it cannot close or open a comment. */
  function EncodeStateFixed(s: State): (r: string)
    requires WellFormed(s)
    ensures StartsWith(r, Marker)
  {
    Marker + Escape(StateJson(s)) + "-->"
  }

  /** The corrected decoder: the last `<!--state:`, up to the `-->` that ends the content. */
  function MatchStateFixed(content: string): Option<string>
  {
    match FindLast(content, Marker, |content|)
    case None => None
    case Some(p) =>
      if |content| >= p + 13 && content[|content| - 3..] == "-->" then
        Some(Unescape(content[p + 10..|content| - 3]))
      else None
  }

  function DecodeStateFixed(content: string, parse: string -> Option<State>): Option<State>
  {
    match MatchStateFixed(content)
    case None => None
    case Some(j) => parse(j)
  }

  /** FindLast stops at an occurrence after which no `<` follows. */
  lemma LastMarkerAt(c: string, p: nat)
    requires OccursAt(c, Marker, p)
    requires forall k :: p < k < |c| ==> c[k] != '<'
    ensures FindLast(c, Marker, |c|) == Some(p)
  {
    forall i | p < i < |c| ensures !OccursAt(c, Marker, i) {
      if i + 10 <= |c| {
        assert c[i..i + 10][0] == c[i];
      }
    }
  }

  /** After its first character, the corrected comment holds no `<`. */
  lemma FrameTailNoLt(e: string)
    requires NoAngles(e)
    ensures '<' !in (Marker + e + "-->")[1..]
  {
    assert (Marker + e + "-->")[1..] == Marker[1..] + e + "-->";
    assert '<' !in Marker[1..];
  }

  /** The corrected comment, appended to anything, is the last marker and ends the content. */
  lemma FramePieces(pre: string, e: string)
    requires NoAngles(e)
    ensures var c := pre + (Marker + e + "-->");
            && FindLast(c, Marker, |c|) == Some(|pre|)
            && |c| >= |pre| + 13 && c[|c| - 3..] == "-->" && c[|pre| + 10..|c| - 3] == e
  {
    var t := Marker + e + "-->";
    var c := pre + t;
    var p := |pre|;
    assert c[p..p + 10] == t[..10] == Marker;
    FrameTailNoLt(e);
    forall k | p < k < |c| ensures c[k] != '<' {
      assert c[k] == t[1..][k - p - 1];
    }
    LastMarkerAt(c, p);
    assert c[|c| - 3..] == t[|t| - 3..] == "-->";
    assert c[p + 10..|c| - 3] == t[10..|t| - 3] == e;
  }

  /** Whatever precedes the corrected comment, and whatever text it carries, the text comes back intact. */
  lemma FixedFrame(pre: string, j: string)
    ensures MatchStateFixed(pre + (Marker + Escape(j) + "-->")) == Some(j)
  {
    FramePieces(pre, Escape(j));
    UnescapeEscape(j);
  }

  /** The corrected codec round trip: every roster's JSON comes back, whatever its title or ids hold. */
  lemma FixedStateRoundTrip(pre: string, s: State)
    requires WellFormed(s)
    ensures MatchStateFixed(pre + EncodeStateFixed(s)) == Some(StateJson(s))
  {
    FixedFrame(pre, StateJson(s));
  }
}
