/**
 * One button or select interaction, end to end (api/discord.js:360-628):
 * load the roster from the message, run the mutation block under the
 * lock, and answer with the new message content.  Network calls, the
 * webhook messages and the timing of the two answer paths are outside the
 * model; what the handler computes and sends is here.
 */
module Handler {
  import opened Wrappers
  import opened RosterModel
  import opened ComponentIds
  import opened Component
  import opened LiveRoster
  import opened StateCodec
  import opened Display
  import opened Latch
  import opened Variants

  /** `LOCK_TTL_SEC`. */
  const LockTtlSec: nat := 2

  /** The roster used when neither the message nor the boot entry has one: three groups of one seat. */
  function DefaultState(): (s: State)
    ensures Inv(s) && |s.caps| == 3
    ensures forall g :: IsGroup(s, g) ==> s.caps[g - 1] == 1 && s.members[g] == []
  {
    State("", [1, 1, 1], map[1 := [], 2 := [], 3 := []], false, "")
  }

  /** The fast path's load: the message's comment, else the boot entry, else the default roster. */
  function LoadFast(decoded: Option<State>, boot: Option<State>): State
  {
    if decoded.Some? then decoded.value
    else if boot.Some? then boot.value
    else DefaultState()
  }

  /** The deferred path's load: the same sources, but no default (None means the path stops). */
  function LoadDeferred(decoded: Option<State>, boot: Option<State>): Option<State>
  {
    if decoded.Some? then decoded else boot
  }

  /**
   * The two paths agree on the roster whenever the deferred one goes on, and
   * it stops exactly when the fast one would fall back to the default.
   */
  lemma LoadPathsAgree(decoded: Option<State>, boot: Option<State>)
    ensures LoadDeferred(decoded, boot).None? <==> decoded.None? && boot.None?
    ensures LoadDeferred(decoded, boot).Some? ==> LoadFast(decoded, boot) == LoadDeferred(decoded, boot).value
    ensures LoadDeferred(decoded, boot).None? ==> LoadFast(decoded, boot) == DefaultState()
  {
  }

  /** How each program reads the roster from a message's content. */
  function Decode(v: Variant, content: string, parse: string -> Option<State>): Option<State>
  {
    match v
    case AsWritten => DecodeStateFrom(content, parse)
    case Corrected => DecodeStateFixed(content, parse)
  }

  /** How each program writes a roster into the message's content. */
  function Content(v: Variant, s: State): string
    requires WellFormed(s)
  {
    match v
    case AsWritten => BuildContent(s)
    case Corrected => BuildContentFixed(s)
  }

  /**
   * Once a message carries a roster, that roster is what is loaded and the
   * boot entry no longer matters: as written when the message frames, and
   * with the corrected comment always.
   */
  lemma SavedRosterWins(v: Variant, s: State, boot: Option<State>, parse: string -> Option<State>)
    requires WellFormed(s) && ParsesBack(parse)
    requires v == AsWritten ==> Frames(s)
    ensures LoadFast(Decode(v, Content(v, s), parse), boot) == s
    ensures LoadDeferred(Decode(v, Content(v, s), parse), boot) == Some(s)
  {
    match v
    case AsWritten => DecodeRoundTrip(s, parse);
    case Corrected => DecodeFixedRoundTrip(s, parse);
  }

  /**
   * As written, a roster titled `}-->` is lost from its own message: the
   * captured text is `{"title":"}`, so the load falls back to the boot entry
   * or the default roster, as `JSON.parse` reads no roster out of that text.
   */
  lemma ClosingTitleLost(s: State, boot: Option<State>, parse: string -> Option<State>)
    requires WellFormed(s) && Absent(Visible(s), Opening) && s.title == "}-->"
    requires parse("{\"title\":\"}") == None
    ensures LoadFast(Decode(AsWritten, Content(AsWritten, s), parse), boot) == LoadFast(None, boot)
    ensures LoadDeferred(Decode(AsWritten, Content(AsWritten, s), parse), boot) == boot
  {
    TitleBreaksDecode(s);
  }

  /** What the handler sends. */
  datatype Reply =
    | UpdateMessage(content: string, said: seq<Notice>)       // type 7 with the new content
    | DeferredUpdate(said: seq<Notice>)                        // type 6, nothing to change
    | AdminPanel(kick: seq<string>, pick: seq<string>)         // the management selects, then type 6
    | Deferred(patch: Option<string>, said: seq<Notice>)       // type 6, then maybe a PATCH of the message
    | Rejected                                                 // the handler's promise rejects; nothing is sent

  /**
   * The end of the fast path as written: a refused lock throws inside the
   * promise given to `Promise.race`, so the race rejects and so does the
   * handler, and nothing answers the interaction.
   */
  function FastEndAsWritten(res: LockResult, content: string, said: seq<Notice>): Reply
  {
    match res
    case Busy => Rejected
    case Threw => Rejected
    case Ran => UpdateMessage(content, said)
  }

  /** The end of the fast path as intended: a refused lock hands over to the deferred path (None). */
  function FastEnd(res: LockResult, content: string, said: seq<Notice>): Option<Reply>
  {
    match res
    case Busy => None
    case Threw => Some(Rejected)
    case Ran => Some(UpdateMessage(content, said))
  }

  /** Where the lock is refused, the written code answers nothing although a fallback was meant. */
  lemma LockFailedRejects(content: string, said: seq<Notice>)
    ensures FastEndAsWritten(Busy, content, said) == Rejected
    ensures FastEnd(Busy, content, said) == None
    ensures forall res :: res != Busy ==> FastEnd(res, content, said) == Some(FastEndAsWritten(res, content, said))
  {
  }

  /** What a roster's mutation produces as the answer's content and notices. */
  function Answer(v: Variant, s: State, customId: string, values: seq<string>, c: Caller): Option<(string, seq<Notice>)>
    requires WellFormed(s)
  {
    match ApplyComponent(v, s, customId, values, c)
    case Fault => None
    case Outcome(t, said) =>
      Some((Content(v, t), said))
  }

  /**
   * The deferred path's answer for a loaded roster: nothing without a roster
   * or when the lock is held, "system busy" when the mutation throws, and
   * otherwise a PATCH with the new content and the notices.
   */
  function DeferredReply(v: Variant, loaded: Option<State>, busy: bool,
                         customId: string, values: seq<string>, c: Caller): Reply
    requires loaded.Some? ==> WellFormed(loaded.value)
  {
    if loaded.None? || busy then Deferred(None, [])
    else match Answer(v, loaded.value, customId, values, c)
         case None => Deferred(None, [SystemBusy])
         case Some((text, said)) => Deferred(Some(text), said)
  }

  /** The latch after a press that tried the lock: its key is gone if the press took it, and nothing else changes. */
  function LatchAfter(before: map<string, nat>, k: string, taken: bool): map<string, nat>
  {
    if taken then before - {k} else before
  }

  /**
   * `withLock(`msg:${messageId}`, LOCK_TTL_SEC, fn)` on a loaded roster, and
   * the content the new roster is written back as: nothing when the lock is
   * refused, the answer of the mutation otherwise.
   */
  method RunLocked(v: Variant, latch: LocalLatch, now: nat, s: State, messageId: string,
                   customId: string, values: seq<string>, c: Caller)
    returns (res: LockResult, answer: Option<(string, seq<Notice>)>)
    requires WellFormed(s)
    modifies latch
    ensures res == Busy <==> old(latch.Held(LockKey("msg:" + messageId), now))
    ensures latch.expireAt == LatchAfter(old(latch.expireAt), LockKey("msg:" + messageId), res != Busy)
    ensures res != Busy ==> answer == Answer(v, s, customId, values, c)
    ensures res == Ran <==> answer.Some?
  {
    var r := new Roster(s);
    var said;
    res, said := WithLock(v, latch, "msg:" + messageId, LockTtlSec, now, r, customId, values, c);
    answer := if res == Ran then Some((Content(v, r.Value()), said)) else None;
  }

  /** The deferred path (api/discord.js:519-625), run at time `now`. */
  method HandleDeferred(v: Variant, latch: LocalLatch, now: nat, content: string, boot: Option<State>,
                        parse: string -> Option<State>, messageId: string,
                        customId: string, values: seq<string>, c: Caller)
    returns (reply: Reply)
    requires forall t :: parse(t).Some? ==> WellFormed(parse(t).value)
    requires boot.Some? ==> WellFormed(boot.value)
    modifies latch
    ensures var loaded := LoadDeferred(Decode(v, content, parse), boot);
      reply == DeferredReply(v, loaded, old(latch.Held(LockKey("msg:" + messageId), now)), customId, values, c)
    ensures var loaded := LoadDeferred(Decode(v, content, parse), boot);
      latch.expireAt == LatchAfter(old(latch.expireAt), LockKey("msg:" + messageId),
                                   loaded.Some? && !old(latch.Held(LockKey("msg:" + messageId), now)))
  {
    var loaded := LoadDeferred(Decode(v, content, parse), boot);
    if loaded.None? {
      return Deferred(None, []);
    }
    var res, answer := RunLocked(v, latch, now, loaded.value, messageId, customId, values, c);
    match res {
      case Busy => reply := Deferred(None, []);
      case Threw => reply := Deferred(None, [SystemBusy]);
      case Ran => reply := Deferred(Some(answer.value.0), answer.value.1);
    }
  }

  /**
   * The fast path (api/discord.js:366-517) at time `now`.  When the lock is
   * refused, the press as written rejects; corrected, it hands over to the
   * deferred path, which runs at time `retryAt`.
   */
  method HandleFast(v: Variant, latch: LocalLatch, now: nat, retryAt: nat, content: string, boot: Option<State>,
                    parse: string -> Option<State>, messageId: string,
                    customId: string, values: seq<string>, c: Caller)
    returns (reply: Reply)
    requires forall t :: parse(t).Some? ==> WellFormed(parse(t).value)
    requires boot.Some? ==> WellFormed(boot.value)
    modifies latch
    ensures var s := LoadFast(Decode(v, content, parse), boot);
      customId == "admin_open" ==>
        && reply == (if HasAdmin(c, s.ownerId) then AdminPanel(PanelOptions(s, "kick:"), PanelOptions(s, "pick:"))
                     else DeferredUpdate([AdminOnly]))
        && latch.expireAt == old(latch.expireAt)
    ensures var s := LoadFast(Decode(v, content, parse), boot);
      customId != "admin_open" && !old(latch.Held(LockKey("msg:" + messageId), now)) ==>
        && reply == (match Answer(v, s, customId, values, c)
                     case None => Rejected
                     case Some((text, said)) => UpdateMessage(text, said))
        && latch.expireAt == old(latch.expireAt) - {LockKey("msg:" + messageId)}
    ensures customId != "admin_open" && old(latch.Held(LockKey("msg:" + messageId), now)) && v == AsWritten ==>
      reply == Rejected && latch.expireAt == old(latch.expireAt)
    ensures var loaded := LoadDeferred(Decode(v, content, parse), boot);
      var busy := old(latch.Held(LockKey("msg:" + messageId), retryAt));
      customId != "admin_open" && old(latch.Held(LockKey("msg:" + messageId), now)) && v == Corrected ==>
        && reply == DeferredReply(v, loaded, busy, customId, values, c)
        && latch.expireAt == LatchAfter(old(latch.expireAt), LockKey("msg:" + messageId), loaded.Some? && !busy)
    ensures reply.Rejected? ==>
      && customId != "admin_open"
      && ((v == AsWritten && old(latch.Held(LockKey("msg:" + messageId), now)))
          || ApplyComponent(v, LoadFast(Decode(v, content, parse), boot), customId, values, c).Fault?)
  {
    var s := LoadFast(Decode(v, content, parse), boot);
    if customId == "admin_open" {
      if !HasAdmin(c, s.ownerId) {
        return DeferredUpdate([AdminOnly]);
      }
      return AdminPanel(PanelOptions(s, "kick:"), PanelOptions(s, "pick:"));
    }
    var res, answer := RunLocked(v, latch, now, s, messageId, customId, values, c);
    var text, said := if answer.Some? then answer.value.0 else "", if answer.Some? then answer.value.1 else [];
    if v == AsWritten {
      reply := FastEndAsWritten(res, text, said);
    } else {
      var end := FastEnd(res, text, said);
      if end.Some? {
        reply := end.value;
      } else {
        reply := HandleDeferred(v, latch, retryAt, content, boot, parse, messageId, customId, values, c);
      }
    }
  }
}
