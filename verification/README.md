# Native XMPP account of the Matrix bridge, in Dafny

This project models `XmppJsAccount`, the account class of the bridge's native
XMPP backend (`src/xmppjs/XJSAccount.ts`). The account does three things:

- It builds the stanzas it writes to the shared XMPP component connection:
  - a one-to-one `chat` message;
  - a `groupchat` message with XEP-0066 out-of-band attachments or an
    XEP-0071 XHTML-IM body;
  - an XEP-0045 multi-user-chat join presence that asks for no history;
  - an `unavailable` presence;
  - an XEP-0054 vCard request.
- It keeps a small join state machine:
  - the rooms it waits to join (`waitingToJoin`);
  - the handle recorded for each confirmed room (`roomHandles`);
  - the `chat-joined` listeners it registers;
  - the promise handed out by each join.
- It answers queries from the presence cache: is the account in a room, and
  what is a user's nickname and avatar.

Modules, one per file:

- `Wrappers` (`wrappers.dfy`): `Option` and `Result`.
- `Text` (`text.dfy`): JavaScript `split` on one character, `endsWith`, and
  `Number.prototype.toString()`, with their round trips.
- `JsString` (`js_string.dfy`): `indexOf`, and `replace` with a string pattern.
  It replaces the first occurrence only, and reads the replacement through
  ECMA-262's GetSubstitution, so `$$`, `$&`, `` $` `` and `$'` are special.
- `Encoding` (`encoding.dfy`): the HTML anchor. This is the UTF-8 bytes of the
  HTML, then base64 per section 4 of RFC 4648, then `/\W/g` replaced by `a`.
- `Xml` (`xml.dfy`): elements and text nodes and their serialisation.
- `Stanzas` (`stanzas.dfy`): the stanza builders and the whole groupchat text.
- `JoinState` (`join_state.dfy`): listeners and promises as values, with the
  invariant that ties them together.
- `XmppJsAccount` (`account.dfy`): two classes.
  - `XmppInstance` is the shared connection. It has one ordered log of
    sent-message ids and stream writes, and the read-only presence cache.
  - `XmppJsAccount` is the account. Its state is `waitingToJoin`,
    `roomHandles`, `listeners` and `settlements`.

XEP-0071 puts the XHTML body inside the `html` element. This code leaves
that element empty and patches the HTML body into the serialised text, in
place of an anchor text node that follows the element. The model reproduces
these quirks of the code:

- With several attachments, the body is the last attachment's URI.
- An empty attachments array still suppresses the HTML branch.
- With both attachments and HTML, the text `undefined` is the pattern that
  `replace` looks for.
- `$` sequences in the HTML are interpreted by `replace`.
- Nothing removes an entry from `waitingToJoin`.
- A timeout does not unregister its listener.

## Model

| member | source | states |
|---|---|---|
| `XmppJsAccount.XmppInstance.XmppAddSentMessage` | src/xmppjs/XJSAccount.ts:65 | The id is appended to the instance's log. The presence cache is unchanged. |
| `XmppJsAccount.XmppInstance.XmppWriteToStream` | src/xmppjs/XJSAccount.ts:66 | The stanza or text is appended to the instance's log. The presence cache is unchanged. |
| `XmppJsAccount.XmppJsAccount.constructor` | src/xmppjs/XJSAccount.ts:35-39 | A new account waits for no room and knows no handle. It has no listener and no promise, and the invariant holds. |
| `XmppJsAccount.XmppJsAccount.CreateNew` | src/xmppjs/XJSAccount.ts:45-47 | Always fails, with "Xmpp.js doesn't support registering accounts". |
| `XmppJsAccount.XmppJsAccount.SetEnabled` | src/xmppjs/XJSAccount.ts:49-51 | Always fails, with "Xmpp.js doesn't allow you to enable or disable accounts". |
| `XmppJsAccount.XmppJsAccount.GetConversation` | src/xmppjs/XJSAccount.ts:209-211 | Always fails, with "getConversation not implemented". |
| `XmppJsAccount.XmppJsAccount.SendIM` | src/xmppjs/XJSAccount.ts:53-68 | Logs exactly two effects, in order. First the id `pbridge` + time is recorded as sent. Then one `chat` message to the recipient, from `remoteId/resource`, with that id and a single body child. |
| `XmppJsAccount.CollectAttachments` | src/xmppjs/XJSAccount.ts:75-83 | The attachment loop gives one out-of-band element per attachment, in order. The body ends as the last URI, or stays as it was when there is no attachment. |
| `XmppJsAccount.XmppJsAccount.SendChat` | src/xmppjs/XJSAccount.ts:70-107 | Logs exactly two effects, in order. First the id is recorded as sent: `msg.id` when non-empty, else `pbridge` + time. Then the groupchat text is written. The caller's message comes back with its body overwritten by the attachment loop. |
| `XmppJsAccount.XmppJsAccount.JoinChat` | src/xmppjs/XJSAccount.ts:137-181 | Writes exactly one join presence to `room@server/handle` from `remoteId/resource`. Adds `room@server` to `waitingToJoin` exactly when `setWaiting`. With an instance, it registers one listener for that room and handle and returns a fresh pending promise. Without one, there is no listener and no promise. Handles are unchanged, settled promises stay settled, and the invariant is kept. |
| `XmppJsAccount.XmppJsAccount.OnChatJoined` | src/xmppjs/XJSAccount.ts:163-176 | The event reaches every registered listener. Each matching listener records its handle, resolves its promise and unregisters. Nothing else changes, and the invariant is kept. |
| `XmppJsAccount.XmppJsAccount.OnJoinTimeout` | src/xmppjs/XJSAccount.ts:164-165 | The timer rejects its promise if the promise is still pending. Listeners, handles and waiting rooms are unchanged, and the invariant is kept. |
| `XmppJsAccount.XmppJsAccount.XmppRetryJoin` | src/xmppjs/XJSAccount.ts:183-194 | If the resource ends in `[m]`, the retry fails with the conflict message and writes and changes nothing. Otherwise it joins `local@domain` as `resource[m]` and waits for the room. It registers no listener and returns no promise. |
| `XmppJsAccount.XmppJsAccount.RejectChat` | src/xmppjs/XJSAccount.ts:196-207 | Writes exactly one `unavailable` presence to `room@server/handle` from `remoteId/resource`. |
| `XmppJsAccount.XmppJsAccount.GetAvatarBuffer` | src/xmppjs/XJSAccount.ts:251-264 | Writes exactly one vCard `get` request, addressed to the sender's bare JID, with the given id. |
| `XmppJsAccount.XmppJsAccount.IsInRoom` | src/xmppjs/XJSAccount.ts:123-135 | True if and only if a non-empty handle is recorded for the room and the presence cache has an online entry for `room/handle`. |
| `XmppJsAccount.XmppJsAccount.GetUserInfo` | src/xmppjs/XJSAccount.ts:233-249 | Without `/`, the nickname is the whole string. With `/`, it is the text between the first `/` and the next one, and it holds no `/`. The avatar is set if and only if the cached photo id is present and non-empty, and then it equals that id. The other fields are fixed. |
| `XmppJsAccount.XmppJsAccount.GetChatParamsForProtocol` | src/xmppjs/XJSAccount.ts:213-231 | Exactly `server`, `room` and `handle`, in that order. Each label equals its identifier, and only `handle` is optional. |
| `Stanzas.TimeIdInjective` | src/xmppjs/XJSAccount.ts:54 | Time-based ids taken at different times differ. |
| `Stanzas.FindHtml` | src/xmppjs/XJSAccount.ts:73 | The first formatted body of type `html`, or none exactly when there is none. |
| `Stanzas.RetryHandleMarked` | src/xmppjs/XJSAccount.ts:185-192 | A retried handle ends in `[m]`, so a retry is never retried again. |
| `Stanzas.GroupchatWithAttachments` | src/xmppjs/XJSAccount.ts:75-103 | With attachments, even an empty array, the children are one out-of-band element per attachment, in order, then the body. The body holds the last URI, or the original body when there is none. No child is `html`. Any HTML is patched over the first `undefined` in the text. |
| `Stanzas.GroupchatAttachmentsDropHtml` | src/xmppjs/XJSAccount.ts:101-103 | With attachments, when the text `undefined` does not occur, the written text is the serialised stanza and the HTML is dropped. |
| `Stanzas.GroupchatHtmlOnly` | src/xmppjs/XJSAccount.ts:84-103 | With HTML and no attachments, the children are the empty `html` element, the anchor as a sibling text node, then the body. The anchor has word characters only. The text is the serialised stanza with the first occurrence of the anchor replaced by the HTML. |
| `Stanzas.GroupchatHtmlLayout` | src/xmppjs/XJSAccount.ts:84-100 | The serialised HTML-only stanza is the start tag and empty `html` element, then the anchor, unescaped, then the body and end tag. |
| `Stanzas.GroupchatHtmlVerbatim` | src/xmppjs/XJSAccount.ts:101-103 | The HTML lands verbatim exactly where the anchor was. This holds when the HTML holds no `$` and the anchor does not already occur earlier in the text. |
| `Encoding.Utf8Char` | src/xmppjs/XJSAccount.ts:85 | One to four bytes per character, and one byte exactly for characters below U+0080. |
| `Encoding.Utf8Length` | src/xmppjs/XJSAccount.ts:85 | The UTF-8 encoding is between one and four times as long as the text. |
| `Encoding.Utf8Ascii` | src/xmppjs/XJSAccount.ts:85 | An ASCII text is encoded as its own character codes. |
| `Encoding.Sextet` | src/xmppjs/XJSAccount.ts:85 | Every six-bit value maps into the base64 alphabet. |
| `Encoding.Group` | src/xmppjs/XJSAccount.ts:85 | Three bytes give four alphabet characters. |
| `Encoding.Base64Length` | src/xmppjs/XJSAccount.ts:85 | Base64 has four characters per started group of three bytes. |
| `Encoding.Base64Alphabet` | src/xmppjs/XJSAccount.ts:85 | Base64 uses only the alphabet and `=`. |
| `Encoding.Anchor` | src/xmppjs/XJSAccount.ts:85 | `/\W/g` to `a` keeps the length, keeps word characters, and turns every other character into `a`. |
| `Encoding.HtmlAnchorShape` | src/xmppjs/XJSAccount.ts:85 | The anchor has word characters only and the length of the base64 text. It is empty exactly when the HTML is. |
| `JsString.IndexFrom` | src/xmppjs/XJSAccount.ts:102 | The first occurrence at or after a position, or none when there is none. |
| `JsString.IndexOf` | src/xmppjs/XJSAccount.ts:102 | The first occurrence of the pattern, and none exactly when the pattern is absent. |
| `JsString.SubstitutionVerbatim` | src/xmppjs/XJSAccount.ts:102 | A replacement without `$` is inserted as it is. |
| `JsString.DollarPairCollapses` | src/xmppjs/XJSAccount.ts:102 | `$$` anywhere in a replacement is inserted as a single `$`, and the rest of the replacement is read on from there. |
| `JsString.ReplaceAbsent` | src/xmppjs/XJSAccount.ts:102 | When the pattern does not occur, `replace` returns the text unchanged. |
| `JsString.ReplaceAtFirstOccurrence` | src/xmppjs/XJSAccount.ts:102 | For a replacement without `$`, when the first occurrence is the one after the prefix, only that occurrence is swapped, for the replacement verbatim. |
| `JsString.ReplacePlaceholder` | src/xmppjs/XJSAccount.ts:102 | For a replacement without `$`, a placeholder that cannot occur in the prefix or straddle its end is replaced exactly in place by the replacement verbatim. |
| `Text.SplitPiecesFree` | src/xmppjs/XJSAccount.ts:234 | No piece of a split contains the separator. |
| `Text.SplitJoin` | src/xmppjs/XJSAccount.ts:234 | Joining the pieces with the separator gives the original string back. |
| `Text.SplitWithoutSeparator` | src/xmppjs/XJSAccount.ts:234-237 | A string without the separator splits into itself alone. |
| `Text.SplitSecondPiece` | src/xmppjs/XJSAccount.ts:234-237 | With a separator, the string is the first piece, the separator, the second piece, and a tail that is empty or starts with the separator. |
| `Text.SplitNickname` | src/xmppjs/XJSAccount.ts:234-237 | With a separator there is a second piece, and it is the text between the first separator and the next one. |
| `Text.Decimal` | src/xmppjs/XJSAccount.ts:54 | `toString()` of a time gives decimal digits with no leading zero. |
| `Text.DecimalRoundTrip` | src/xmppjs/XJSAccount.ts:54 | Reading the decimal text back gives the number. |
| `Text.DecimalInjective` | src/xmppjs/XJSAccount.ts:54 | Different numbers print differently. |
| `Xml.EscapedTextHasNoMarkup` | src/xmppjs/XJSAccount.ts:91-100 | Escaped character data holds no `<`, so it can neither open nor close an element. |
| `Xml.EscapedAttrHasNoMarkup` | src/xmppjs/XJSAccount.ts:91-100 | An escaped attribute value holds no `<` and no `"`, so it cannot end the value early. |
| `Xml.EscapeTextPlain` | src/xmppjs/XJSAccount.ts:85-100 | Text without `&`, `<` or `>`, such as the anchor, is written unescaped. |
| `Xml.ElementEndsWithGt` | src/xmppjs/XJSAccount.ts:91-100 | Every serialised element ends with `>`. |
| `Xml.SerialiseElementOfThree` | src/xmppjs/XJSAccount.ts:91-100 | An element with three children serialises as its start tag, the three children in order, and its end tag. |
| `JoinState.SurvivorsSpec` | src/xmppjs/XJSAccount.ts:166-175 | After an event, exactly the listeners that do not match stay registered. If none matches, all stay. |
| `JoinState.RecordHandlesSpec` | src/xmppjs/XJSAccount.ts:167-169 | An event changes only its own room's handle. That handle becomes the one of the last matching listener, and is unchanged when none matches. |
| `JoinState.IgnoredEvent` | src/xmppjs/XJSAccount.ts:167-173 | An event that matches no listener changes neither the listeners, nor the handles, nor the promises. |
| `JoinState.RepeatedEvent` | src/xmppjs/XJSAccount.ts:171 | After an event, the same event again changes nothing, because the matched listeners removed themselves. |
| `JoinState.RegisterWellFormed` | src/xmppjs/XJSAccount.ts:163-176 | A new listener with a fresh pending promise keeps the invariant. That invariant is: every listener's promise exists and is not resolved, no two listeners share a promise, and every pending promise has its listener. |
| `JoinState.EventWellFormed` | src/xmppjs/XJSAccount.ts:166-175 | An event keeps the invariant and never changes a settled promise. |
| `JoinState.EventKeepsUnresolved` | src/xmppjs/XJSAccount.ts:166-175 | After an event, no remaining listener's promise is resolved. |
| `JoinState.EventKeepsListened` | src/xmppjs/XJSAccount.ts:166-175 | After an event, every promise still pending keeps its listener. |
| `JoinState.SurvivorsTicketsDistinct` | src/xmppjs/XJSAccount.ts:171 | Unregistering keeps the remaining listeners' promises distinct. |
| `JoinState.TimeOutWellFormed` | src/xmppjs/XJSAccount.ts:165 | A timeout keeps the invariant and touches only its own pending promise. |
| `JoinState.LateConfirmation` | src/xmppjs/XJSAccount.ts:164-172 | A confirmation after the timeout still records the handle and unregisters the listener, but the promise stays timed out. |
| `JoinState.TimelyConfirmation` | src/xmppjs/XJSAccount.ts:166-172 | A matching confirmation before the timeout resolves the promise with the event. |

## Left out

- The node-purple backend is not part of this model. Its account calls straight into a native library, and the event and instance files only declare types.
- Timers, promises and the event emitter are explicit method calls, not concurrency. A join's promise is a ticket into `settlements`. `OnChatJoined` delivers an event, and `OnJoinTimeout` fires a timer. The timeout duration (5000 ms by default) is not modelled.
- `XmppJsAccount.XmppJsAccount.JoinChat`: the listener captures the handle when it is registered. The source's callback reads `components.handle` when the event fires, from the caller's object held by reference. A caller that changes that object after the join would have a different handle recorded; the model does not alias the caller's join properties.
- Listeners are kept per account. The source registers them on the instance that all accounts share, and each listener only reacts to events for its own account. Listeners of other accounts are not modelled.
- Only the request of `getAvatarBuffer` is modelled. The reply (lines 265-278) is not: the timer race, the base64 decoding of `binval`, and the `photo` lookup. The `iconPath` argument is only logged.
- `Metrics.remoteCall` and all logging are left out.
- `Date.now()` is the parameter `now` in milliseconds. `uuid()` is the request id parameter of `GetAvatarBuffer`. JID parsing is left out: `Jid` values arrive parsed. `XMPP_PROTOCOL.id` is the constant `protocolId`.
- XML escaping is simplified. Text escapes `&`, `<` and `>`. Attribute values also escape both quote characters. `@xmpp/xml` may drop empty or `undefined` text children, which the model keeps.
- The stub methods `findAccount`, `getBuddy`, `getJoinPropertyForRoom` and `setJoinPropertiesForRoom` do nothing and are not modelled. Neither are the constant getters `name`, `protocol`, `isEnabled`, `connected` and `_waitingJoinRoomProps`.
- `XmppJsAccount.XmppJsAccount.XmppRetryJoin`: the exception thrown inside the async function is a `Failure` result, not a rejected promise.
- Strings are sequences of Unicode scalar values. Lone UTF-16 surrogates, which `Buffer.from` would encode as U+FFFD, cannot be expressed.
- `msg.formatted` and `msg.opts.attachments` being `undefined` are the `None` of an `Option`. Other falsy values of those fields are not modelled.
