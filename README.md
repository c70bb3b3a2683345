# Group sign-up roster for a Discord message — a Dafny model

The bot behind `api/discord.js` keeps a sign-up roster in a single Discord
message. The roster has numbered groups (第一團, 第二團, …). Each group has a
count of free seats and an ordered list of members. Users press `join_k` and
`leave_k` buttons. The roster's owner, or anyone with the Administrator
permission, can kick members and move them between groups through select
menus. The roster itself travels inside the message: the visible text is
followed by an HTML comment `<!--state:{…}-->` holding the roster as JSON.
Each interaction reads the roster back from that comment, falling back to a
`boot:` entry saved when the roster was created. It then changes the roster
under a short lock and rewrites the message.

The model has these modules, one per file:

- `Wrappers`: `Option`.
- `JsText`: the pieces of JavaScript string behaviour the handler relies on:
  - `trim` and the white-space set shared by `trim` and `\s`;
  - `split` and `join`;
  - `parseInt` and `String(n)`.
- `RosterModel`: the roster as a value, and the join / leave / kick / move
  rules as functions. It also holds the invariants the rules keep:
  - well-formed keys;
  - no negative seat count;
  - no duplicate member;
  - single membership when "multiple groups" is off;
  - seat conservation.
- `ComponentIds`: the grammars of the button and select ids and values, each
  with its round trip. It also builds the option lists of the admin selects.
- `Variants`: which program runs, the source as written or the source with
  the three corrections listed under Findings.
- `Component`: the mutation block that both response paths share, as one
  dispatch on `custom_id`, with the admin gate in front of it. As written,
  the kick applies only the first selected value; the corrected block
  applies every value.
- `LiveRoster`: a `Roster` class whose fields the methods update in place, as
  the handler does with `push`, `splice` and `caps[i] ±= 1`. Each method is
  proved equal to the matching `RosterModel`/`Component` function.
- `StateCodec`: `JSON.stringify` for the roster's shape, the
  `<!--state:…-->` framing and the lazy first-match decode. It also holds a
  corrected framing (see Findings).
- `Display`: `hn` and `buildContent`, and the round trip of a rendered
  message back to its roster.
- `Latch`: the in-process expiry map (`tryLocalLatch` / `releaseLocalLatch`)
  as a class, and `withLock` around a roster mutation.
- `Handler`: the load fallback, the `admin_open` panel, and the fast and
  deferred response paths. As written they decode with the first-match
  pattern, write the JSON unescaped and reject a press whose lock is
  refused. The corrected handler decodes from the last marker, escapes the
  JSON and hands a refused press over to the deferred path.
- `Command`: the `/cteam` command:
  - the seat-count option;
  - the pre-filled member list, parsed by nested loops that update the
    seat counts and member lists in place;
  - creation of the first roster.

The clock, `JSON.parse`, the `boot:` entry and the moment the fast path
hands over to the deferred one are parameters. Ephemeral follow-up messages
are modelled as a list of `Notice` values.

## Model

| member | source | states |
|---|---|---|
| JsText.Trim | api/discord.js:303 | `trim` leaves no white space at either end of its result |
| JsText.TrimClean | api/discord.js:319 | a string that neither starts nor ends with white space is its own `trim` |
| JsText.SplitJoin | api/discord.js:303 | `split` on a separator that occurs in no part undoes `join` with it |
| JsText.ParseInt | api/discord.js:303 | `parseInt(s, 10)` is NaN exactly when no digit follows the leading white space and sign |
| JsText.ParseIntOfIntToString | api/discord.js:187 | `parseInt` reads `String(i)` back as i when no digit follows it |
| JsText.DigitsValueOfNatToString | api/discord.js:120 | the digits of `String(n)` denote n |
| JsText.NatToStringInjective | api/discord.js:120 | distinct group numbers give distinct member-map keys `String(i)` |
| RosterModel.RemoveFirst | api/discord.js:416-420 | `splice(indexOf(x), 1)` removes exactly one occurrence of x (multiset difference), and leaves a list without x unchanged |
| RosterModel.RemoveFirstDistinct | api/discord.js:438-440 | on a duplicate-free list, removal shortens it by one, leaves x absent and keeps every other member |
| RosterModel.Join | api/discord.js:400-413 | join keeps the member map keyed 1..\|caps\| |
| RosterModel.JoinEffect | api/discord.js:392-413 | join throws exactly on a missing group when the user is not refused first. It changes the roster exactly when the group exists, has a free seat, does not list the user, and the user is allowed in. Then the user is appended, one seat is taken, and nothing else changes |
| RosterModel.JoinKeepsInv | api/discord.js:401-409 | join preserves the invariant (keys, caps ≥ 0, no duplicates, single membership) and conserves seats in every group |
| RosterModel.Leave | api/discord.js:415-422 | leave keeps the member map keyed 1..\|caps\| |
| RosterModel.LeaveEffect | api/discord.js:415-422 | leave throws exactly on a missing group. It changes the roster exactly when the user is in the group: the user is removed and one seat is freed. Otherwise only "not in group" is reported |
| RosterModel.LeaveKeepsInv | api/discord.js:420-421 | leave preserves the invariant and conserves seats |
| RosterModel.JoinThenLeave | api/discord.js:406-421 | a successful join followed by a leave of the same group restores the roster exactly, with no notice |
| RosterModel.RemoveFirstAppended | api/discord.js:406-420 | removing the first occurrence of a user just pushed onto a list without them gives the list back |
| RosterModel.Kick | api/discord.js:437-445 | kick never throws, and keeps the group keys |
| RosterModel.KickIsLeave | api/discord.js:437-445 | kicking u from g does to the roster what u leaving g does. For a g that is not a group, it only reports "not in that group" |
| RosterModel.KickMembership | api/discord.js:437-441 | on an invariant roster, a kick removes exactly the pair (g, u) from the memberships |
| RosterModel.KickKeepsInv | api/discord.js:440-441 | kick preserves the invariant and conserves seats |
| RosterModel.ConservesTrans | api/discord.js:408-409 | seat conservation composes along successive mutations |
| RosterModel.Move | api/discord.js:456-481 | move never throws and keeps the map well formed |
| RosterModel.MoveAtomic | api/discord.js:461-469 | the roster is unchanged when there is no destination, the destination is the source, the destination is full, or the user has left the source |
| RosterModel.MoveIsLeaveThenJoin | api/discord.js:470-476 | an in-range move of a listed user is that user leaving the source and then joining the destination |
| RosterModel.MoveKeepsInv | api/discord.js:461-476 | move preserves the invariant and conserves seats, including single membership |
| RosterModel.MoveFoundKeepsInv | api/discord.js:470-476 | the move that goes ahead (user in the source, destination not full) preserves the invariant and conserves seats |
| RosterModel.MoveOutOfRangeDropsMember | api/discord.js:472-478 | a destination that is not a group still reports the move, but the user ends up in no group |
| RosterModel.NowInNoGroup | api/discord.js:470 | under single membership, removing a user from their one group leaves them in none |
| RosterModel.LastSeatGoesToOne | api/discord.js:403-409 | two users joining a group with one free seat, one after the other: exactly one gets in, and the other is told the group is full |
| RosterModel.JoinLeaveScenario | api/discord.js:400-422 | a concrete run of join, refused join, leave and join, with the seat counts after each step |
| ComponentIds.ButtonRoundTrip | api/discord.js:136-137 | `join_{i}` / `leave_{i}` as built parse back to the same press under `^(join\|leave)_(\d+)$` (line 392) |
| ComponentIds.GroupAndUserRoundTrip | api/discord.js:433 | `{g}:{uid}` with a numeric uid parses back to (g, uid) |
| ComponentIds.PanelValueRoundTrip | api/discord.js:158-159 | the `kick:` and `pick:` values the panel builds parse back under their own pattern (lines 433, 449), and a kick value is not a pick value |
| ComponentIds.PanelEntries | api/discord.js:155-160 | every panel entry names a listed member of an existing group |
| ComponentIds.PanelOptions | api/discord.js:169 | a select carries at most 25 options |
| ComponentIds.KickOptionsSound | api/discord.js:152-169 | every kick option offered parses, and names a member of that group |
| ComponentIds.MoveSelectRoundTrip | api/discord.js:193 | `admin_manage:to:{uid}:{from}` reads back as action "to" with uid and from (lines 457-459) |
| ComponentIds.OtherGroups | api/discord.js:185-187 | the destination list is exactly the groups other than the source |
| ComponentIds.Destinations | api/discord.js:183-197 | at most 25 destinations, each an existing group other than the source. With at most 26 groups, every other group is offered |
| ComponentIds.DestinationValueRoundTrip | api/discord.js:187 | each destination value `String(i)` reads back as i under `parseInt` (line 460) |
| Component.KickValue | api/discord.js:432-446 | one kick value never throws, and keeps the roster well formed |
| Component.KickAsWritten | api/discord.js:431-446 | the kick as written reads only `values[0]` and does nothing without a value; it never throws and keeps the group keys |
| Component.KickEach | api/discord.js:431-446 | the corrected kick, which applies every selected value in order, never throws and keeps the group keys |
| Component.KickEachEffect | api/discord.js:437-441 | the corrected kick preserves the invariant and conserves seats. Afterwards a user is in a group exactly when they were before and that pair was not selected |
| Component.KickAsWrittenIgnoresRest | api/discord.js:432 | the kick as written depends only on the first selected value |
| Component.KickAsWrittenLeavesSecond | api/discord.js:166-168 | for any two distinct listed members picked in the multi-select, the kick as written leaves the second in its group, while the corrected kick removes it |
| Component.KickSelect | api/discord.js:431-446 | the kick each variant runs never throws and keeps the group keys |
| Component.KickSelectKeepsInv | api/discord.js:437-441 | either kick preserves the invariant and conserves seats |
| Component.AdminAction | api/discord.js:430-482 | the admin actions (kick, pick, move) never throw and keep the roster well formed. As written the kick applies `values[0]` only (line 432); corrected it applies every selected value |
| Component.ApplyComponent | api/discord.js:390-484 | the whole mutation block, as written or corrected, keeps the roster well formed when it does not throw |
| Component.ApplyKeepsInv | api/discord.js:390-484 | the mutation block, as written or corrected, preserves the invariant and conserves seats |
| Component.NonAdminTouchesOnlySelf | api/discord.js:392-428 | in either variant, a press without admin rights changes no other user's memberships |
| Component.AdminGate | api/discord.js:202-211 | in either variant, an `admin_manage:` id from a caller who is neither the non-empty owner nor has bit 0x8 leaves the roster unchanged with only the "admin only" notice (lines 426-428) |
| LiveRoster.IndexOf | api/discord.js:416 | `indexOf`: -1 exactly when absent, otherwise the first position holding x |
| LiveRoster.SpliceFirst | api/discord.js:420 | splicing out the first occurrence is `RemoveFirst` |
| LiveRoster.LeaveAt | api/discord.js:415-421 | leaving a group where the user first sits at position pos is `splice(pos, 1)` on that group plus one freed seat, with no notice |
| LiveRoster.Roster.constructor | api/discord.js:101 | the object holds the given roster |
| LiveRoster.Roster.Join | api/discord.js:396-413 | the in-place join (computing `myGroups`, `push`, `caps[idx-1] -= 1`) yields exactly `RosterModel.Join`, and changes nothing when it throws |
| LiveRoster.Roster.Leave | api/discord.js:415-422 | the in-place leave (`indexOf`, `splice`, `caps[idx-1] += 1`) yields exactly `RosterModel.Leave` |
| LiveRoster.Roster.KickOne | api/discord.js:432-446 | the in-place kick of one value yields exactly `Component.KickValue` |
| LiveRoster.Roster.KickAll | api/discord.js:431-446 | the loop over all selected values yields exactly `Component.KickEach` |
| LiveRoster.Roster.Move | api/discord.js:461-481 | the in-place move yields exactly `RosterModel.Move` |
| LiveRoster.Roster.MoveFound | api/discord.js:470-478 | once the user is found at pos in the source, the in-place splice, free seat and conditional push yield exactly `RosterModel.Move` |
| LiveRoster.Roster.Vacate | api/discord.js:470-471 | `fromArr.splice(pos, 1)` and `caps[fromIdx-1] += 1` leave exactly the roster `RosterModel.Leave` computes |
| LiveRoster.Roster.Land | api/discord.js:472-476 | the push onto the destination happens only when it lists no such user, and then takes one seat there |
| LiveRoster.Roster.Apply | api/discord.js:390-484 | the in-place mutation block yields exactly `Component.ApplyComponent` for the same variant. As written the kick is `KickOne` on `values[0]` and nothing without a value; corrected it is `KickAll`. It changes nothing when it throws |
| StateCodec.Find | api/discord.js:109 | the first occurrence at or after a position, or none |
| StateCodec.FindLast | api/discord.js:109 | the last occurrence before a position, or none |
| StateCodec.Quote | api/discord.js:105 | a JSON string literal contains `<` or `>` exactly when the string does |
| StateCodec.StateJson | api/discord.js:105 | the roster's JSON is an object `{…}`, and contains no angle bracket when no title, owner or id does |
| StateCodec.TailJson | api/discord.js:105 | the fields after the title (`caps`, `members`, `multi`, `ownerId`) end with the closing brace and hold no angle bracket when no id does |
| StateCodec.StateJsonTitle | api/discord.js:105 | the JSON starts with the title field, `{"title":` followed by the quoted title, as `JSON.stringify` writes the first key first |
| StateCodec.EncodeState | api/discord.js:104-107 | the encoded block starts with `<!--state:` |
| StateCodec.NoMarkerNoState | api/discord.js:109-110 | content without `<!--state:{` decodes to null |
| StateCodec.FrameRoundTrip | api/discord.js:108-112 | after text that holds no `<!--state:{`, the lazy match captures exactly the framed JSON `{…}`, provided the JSON holds no `}-->` |
| StateCodec.FrameCutShort | api/discord.js:108-112 | conversely, a JSON holding `}-->` at position k is cut short: the capture is at most k+1 characters, shorter than the JSON |
| StateCodec.MentionsOnlyNoOpening | api/discord.js:109 | text whose every `<` starts a mention holds no `<!--state:{` |
| StateCodec.NoGtNoClose | api/discord.js:105-109 | a JSON text without `>` holds no `}-->` |
| StateCodec.FirstMarkerAt | api/discord.js:109 | when the text before it holds no `<!--state:{`, the first marker is the appended one |
| StateCodec.Escape | api/discord.js:104-107 | the corrected encoder escapes `%`, `<`, `>`, so its payload holds no angle bracket |
| StateCodec.UnescapeEscape | api/discord.js:104-112 | unescaping undoes escaping, for every string |
| StateCodec.FixedFrame | api/discord.js:108-112 | the corrected decoder (last marker, content ending in `-->`) returns exactly the framed payload, whatever precedes it |
| StateCodec.FramePieces | api/discord.js:108-112 | in the corrected framing, the last marker is the appended one, the content ends in `-->`, and the text between them is the escaped payload |
| StateCodec.LastMarkerAt | api/discord.js:109 | when no `<` follows a position that holds the marker, that position is the last marker |
| StateCodec.FixedStateRoundTrip | api/discord.js:104-112 | the corrected framing of any well-formed roster reads back as its JSON, after any text |
| Display.Hn | api/discord.js:97-98 | `hn(n)` is never empty and holds no angle bracket |
| Display.DisplayLines | api/discord.js:115-123 | the visible part always has at least the "目前名單：" line |
| Display.ContentShape | api/discord.js:115-127 | the content is the visible lines, a newline, then the encoded block, last |
| Display.DisplayMentionsOnly | api/discord.js:117-122 | when no title or member id holds `<`, every `<` in the visible text starts a mention |
| Display.ContentRoundTrip | api/discord.js:104-127 | when the visible text holds no `<!--state:{` and the roster's JSON holds no `}-->`, the decoder's match on the built content is the roster's JSON |
| Display.ContentCutShort | api/discord.js:104-127 | conversely, when the roster's JSON holds `}-->`, the match on the built content is not its JSON |
| Display.NoLtOpensNothing | api/discord.js:115-123 | when no title or member id holds `<`, the visible text holds no `<!--state:{` |
| Display.CleanFrames | api/discord.js:104-123 | a roster whose title, owner and ids hold no angle bracket meets both conditions of the round trip |
| Display.DecodeRoundTrip | api/discord.js:104-127 | under the same two conditions, with an inverse `JSON.parse`, decoding the built content gives back the roster |
| Display.TitleBreaksDecode | api/discord.js:104-117 | with no `<!--state:{` in the visible text, a title `}-->` makes the lazy match stop inside the title: the captured text is `{"title":"}`, not the roster |
| Display.EarlyClose | api/discord.js:109 | after text holding no `<!--state:{` and the marker, a JSON text that begins `{"title":"}-->` is cut at that first `}-->` |
| Display.QuotePlain | api/discord.js:105 | `JSON.stringify` quotes a string free of `"`, backslash and control characters by leaving its characters unchanged |
| Display.ContentFixedRoundTrip | api/discord.js:104-127 | with the corrected framing, every well-formed roster's content matches back to its JSON, whatever its title |
| Display.DecodeFixedRoundTrip | api/discord.js:104-127 | with the corrected framing and an inverse `JSON.parse`, every roster decodes back to itself |
| Latch.AcquireExcludes | api/discord.js:54-61 | once acquired, the key is refused until now+ttl and granted again from then on |
| Latch.ReleaseFrees | api/discord.js:62-64 | after release, the key can be acquired at once |
| Latch.LateReleaseFreesNextHolder | api/discord.js:54-64 | once the first holder's entry has lapsed, a second press acquires the key; while that press still holds it, the first press's release lets a third press acquire it too (lines 84-86) |
| Latch.LocalLatch.constructor | api/discord.js:53 | the latch starts empty |
| Latch.LocalLatch.TryAcquire | api/discord.js:54-61 | it succeeds exactly when the key holds no unexpired, non-zero expiry. It then stores now+ttl, and the key is held for the whole interval [now, now+ttl) |
| Latch.LocalLatch.Release | api/discord.js:62-64 | the key is deleted and is no longer held at any time |
| Latch.LocalLatch.Sweep | api/discord.js:59 | the timer callback deletes only an expired entry, and changes no key's held status |
| Latch.WithLock | api/discord.js:67-87 | for either variant: returns false (Busy) exactly when the key is held, and then neither the latch nor the roster changes. Otherwise the mutation runs and the key is released on every exit. A throw is exactly a faulting mutation, and a normal end leaves the roster `ApplyComponent` computes |
| Handler.DefaultState | api/discord.js:372 | three empty groups of one seat, satisfying the invariant |
| Handler.LoadPathsAgree | api/discord.js:370-372 | the deferred path's load agrees with the fast path's whenever it goes on, and stops exactly when the fast path would use the default |
| Handler.SavedRosterWins | api/discord.js:370-372 | a message built from a roster loads that roster on both paths, whatever the boot entry holds: as written when the visible text holds no `<!--state:{` and the JSON no `}-->`, corrected always |
| Handler.ClosingTitleLost | api/discord.js:104-117 | as written, a roster titled `}-->` is lost on reload: when `JSON.parse` refuses the cut text, the fast path falls back to the boot entry or the default (lines 370-372) and the deferred path to the boot entry alone (lines 521-523) |
| Handler.LockFailedRejects | api/discord.js:495-498 | as written, a refused lock rejects the fast path. The corrected end hands over to the deferred path and agrees with the written code otherwise |
| Handler.RunLocked | api/discord.js:387-492 | `withLock` on the loaded roster is refused exactly when the key is held; the key is released exactly when the press took it, and no other key changes; otherwise the answer is the content and notices of `ApplyComponent`, and nothing exactly when the mutation throws |
| Handler.HandleDeferred | api/discord.js:519-628 | the deferred reply at the time it runs: nothing without a roster or when the lock is held, "system busy" when the mutation throws, otherwise a PATCH with the new content and the notices. Afterwards `lock:msg:{id}` is gone exactly when this call acquired it, and no other key changes |
| Handler.HandleFast | api/discord.js:366-517 | `admin_open` answers with the panel for an admin and "admin only" otherwise, leaving the latch alone. With the lock free, it answers with the new content or rejects exactly when the mutation throws, and releases the key. With the lock held, as written it rejects and leaves the latch unchanged (lines 495-498); corrected it returns exactly the deferred reply at the hand-over time, with the latch that path leaves. Only a held lock as written or a throwing mutation rejects |
| Command.ParseCaps | api/discord.js:303 | every seat count kept is ≥ 0 |
| Command.KeepCaps | api/discord.js:303 | the `.filter` step: no more seat counts than parsed parts, each an integer ≥ 0 |
| Command.ParseEach | api/discord.js:303 | the `.map` step: one parsed value per comma-separated part |
| Command.KeepAll | api/discord.js:303 | when every part parses to a non-negative count, the filter keeps all of them, in order |
| Command.NumeralReads | api/discord.js:303 | `parseInt(String(n).trim(), 10)` is n for every natural n |
| Command.CapsRoundTrip | api/discord.js:302-303 | seat counts written as `12,8,5` parse back exactly |
| Command.MentionIds | api/discord.js:324 | every id taken from `<@!?(\d+)>` is a non-empty digit string |
| Command.MentionIdsRoundTrip | api/discord.js:324 | space-separated mentions of numeric ids give back exactly those ids, in order |
| Command.DefaultLineRoundTrip | api/discord.js:319-321 | a line `g: rest` matches `^(\d+)\s*:\s*(.*)$` with group g and text rest |
| Command.EntryLine | api/discord.js:319-324 | a line `g: <@u>` reads as group g whose text is that one mention |
| Command.AddAllMember | api/discord.js:325-330 | one line's ids are added to its group, and no other membership changes |
| Command.AddLineMember | api/discord.js:319-330 | after one line, u is in group h exactly when it was before or the line names h and mentions u |
| Command.AddLinesMember | api/discord.js:318-331 | after all lines, a user is in group h exactly when some line naming h mentions them |
| Command.DefaultsEffect | api/discord.js:314-331 | after the pre-fill, no group lists an id twice, and each group holds exactly the ids its lines mention. Each seat count is max(start − members, 0), so it never goes negative although a group can be overfilled |
| Command.AddIds | api/discord.js:325-330 | the inner loop (push if absent, take a seat while one is left) computes `AddAll` |
| Command.AddOneLine | api/discord.js:319-323 | one line is skipped unless it matches and names an existing group |
| Command.AddLineByLine | api/discord.js:318-331 | the outer loop computes `AddLines` |
| Command.ApplyDefaults | api/discord.js:314-331 | the in-place pre-fill computes `Defaults` |
| Command.CreateRoster | api/discord.js:301-336 | the command builds exactly the roster `Created` describes, or refuses |
| Command.CreatedValid | api/discord.js:302-336 | the command refuses exactly when no seat count parses. Otherwise the roster is well formed, has a group, has no negative seat count and has no duplicate in a group |
| Command.DefaultsIgnoreMulti | api/discord.js:316-331 | with "multiple groups" off, the lines `g: <@u>` and `h: <@u>` still put u in two groups, breaking single membership |
| Command.SameIdTwoGroups | api/discord.js:316-331 | when the first two lines name groups g and h and both mention u, the pre-fill puts u in both |

## Left out

- Upstash REST calls (`lockRedis`, `unlockRedis`, `kvSetBoot`, `kvGetBoot`, `kvDelBoot`) are network I/O. Only the in-process latch branch of `withLock` is modelled. The `boot:` entry is a parameter of the load.
- Webhook calls (`followupEphemeral`, `postEphemeral`, `patchOriginal`) are HTTP I/O. Their messages are the `Notice` log, and the PATCH is the `Deferred` reply's content.
- The `Promise.race` against `sleep(FAST_TIMEOUT_MS)` is timing. The model only has the hand-over to the deferred path, at a time given as a parameter. A fast path that overruns its timeout is not modelled.
- Signature verification (`verifyKey`), the HTTP method check and the body parsing are a foreign call and transport plumbing. `api/register.js` and the cron endpoints are not part of this model.
- `JSON.parse` is a parameter. It is assumed to return rosters of the stored shape; where a round trip needs it, it is assumed to invert `JSON.stringify` on rosters. Malformed JSON is the parameter returning `None`.
- Permissions are a natural number tested for bit 0x8, instead of `BigInt`.
- RosterModel.Move: a destination outside the groups sets `caps[to-1]` to `NaN` or grows the array in the source. The model leaves the seat counts of a missing group alone and records only that the user lands in no group.
- `parseInt` and `String` work on unbounded integers. Number precision limits on long digit runs (ids and indices) are not modelled.
- `buildMainButtons`, option labels and the message layout beyond the content text are UI payload. Only the custom ids and select values they carry are modelled.
- Discord's limits on message length and select sizes beyond the 25-option slice are not modelled.
- The `/cteam` reply payload and the `boot:` write of the new roster are I/O. The owner id of the interaction is a parameter.
- Latch.WithLock: the mutation runs at the single instant `now`, so the lock cannot lapse while it runs. In the source the 2-second `LOCK_TTL_SEC` (api/discord.js:18) can pass during the block's webhook awaits, and the first press's release then deletes a later holder's key; `Latch.LateReleaseFreesNextHolder` shows this on the expiry map.
- The `setTimeout` that schedules the latch's sweep is timing. The sweep is a method called at a time given as a parameter.

## Findings

| source | as written | input that shows it | evidently intended | confidence | as-written member | corrected member |
|---|---|---|---|---|---|---|
| api/discord.js:431-433 | the kick select allows several values (`max_values` is the number of options, placeholder "可多選"), but only `values[0]` is applied | roster with "111" in group 1 and "222" in group 2; values `kick:1:111`, `kick:2:222` | every selected member is kicked | not executed | Component.KickAsWrittenLeavesSecond | Component.KickEachEffect |
| api/discord.js:104-117 | the state block is closed by the first `}-->` after the marker, and the title is written unescaped | title `}-->` | the stored roster reads back whatever its title | not executed | Display.TitleBreaksDecode | Display.DecodeFixedRoundTrip |
| api/discord.js:495-498 | a refused lock throws inside the promise given to `Promise.race`, so the race rejects and nothing answers the interaction | a second press while the first holds `lock:msg:{id}` | the comment says the press falls back to the deferred path | not executed | Handler.LockFailedRejects | Handler.HandleFast |
