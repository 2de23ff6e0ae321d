/**
 * The stanzas the native XMPP account writes: a one-to-one `chat` message, a
 * `groupchat` message with out-of-band attachments (XEP-0066) or an XHTML-IM
 * body (XEP-0071), a multi-user-chat join presence (XEP-0045), an
 * `unavailable` presence, and a vCard request (XEP-0054).
 */
module Stanzas {
  import opened Wrappers
  import opened Xml
  import opened Text
  import opened Encoding
  import opened JsString

  const IdPrefix: string := "pbridge"
  const ConflictSuffix: string := "[m]"
  const MucNs: string := "http://jabber.org/protocol/muc"
  const OobNs: string := "jabber:x:oob"
  const XhtmlImNs: string := "http://jabber.org/protocol/xhtml-im"
  const VCardNs: string := "vcard-temp"

  /** One alternative rendering of a message: `{type, body}`. */
  datatype Formatted = Formatted(kind: string, body: string)
  datatype Attachment = Attachment(uri: string)

  /**
   * The fields of a bridged message that the sender reads. `attachments` is
   * `None` when `msg.opts` or `msg.opts.attachments` is missing; an empty
   * array is `Some([])`.
   */
  datatype Message = Message(
    body: string,
    id: Option<string>,
    formatted: Option<seq<Formatted>>,
    attachments: Option<seq<Attachment>>)

  /** A parsed JID `local@domain/resource`. */
  datatype Jid = Jid(local: string, domain: string, resource: string)

  /** Room join properties: a dictionary of strings (`room`, `server`, `handle`). */
  type JoinProps = map<string, string>

  /** `${components[key]}`: a missing key is rendered as the text `undefined`. */
  function Field(props: JoinProps, key: string): (r: string)
    ensures key in props ==> r == props[key]
    ensures key !in props ==> r == "undefined"
  {
    if key in props then props[key] else "undefined"
  }

  /** `components[key]`: `None` when the key is missing. */
  function Lookup(props: JoinProps, key: string): (r: Option<string>)
    ensures r.Some? <==> key in props
    ensures r.Some? ==> r.value == Field(props, key)
  {
    if key in props then Some(props[key]) else None
  }

  /** `room@server`, the key under which a room is waited for and its handle recorded. */
  function RoomJid(props: JoinProps): string {
    Field(props, "room") + "@" + Field(props, "server")
  }

  /** `room@server/handle`, the occupant address a presence is sent to. */
  function OccupantJid(props: JoinProps): string {
    RoomJid(props) + "/" + Field(props, "handle")
  }

  /** The id of a message sent at time `now` (milliseconds): `"pbridge" + now`. */
  function TimeId(now: nat): string {
    IdPrefix + Decimal(now)
  }

  /** Messages sent at different times get different ids. */
  lemma TimeIdInjective(a: nat, b: nat)
    requires TimeId(a) == TimeId(b)
    ensures a == b
  {
    assert Decimal(a) == TimeId(a)[|IdPrefix|..];
    assert Decimal(b) == TimeId(b)[|IdPrefix|..];
    DecimalInjective(a, b);
  }

  /** `msg.id || "pbridge" + now`: an empty id counts as missing. */
  function ChatId(msg: Message, now: nat): (r: string)
    ensures msg.id.Some? && msg.id.value != "" ==> r == msg.id.value
    ensures msg.id.None? || msg.id.value == "" ==> r == TimeId(now)
  {
    if msg.id.Some? && msg.id.value != "" then msg.id.value else TimeId(now)
  }

  function BodyElement(body: string): Node {
    Element("body", [], [Text(body)])
  }

  /** A one-to-one message. */
  function ImStanza(to: string, id: string, from: string, body: string): Node
  {
    Element("message", [("to", to), ("id", id), ("from", from), ("type", "chat")], [BodyElement(body)])
  }

  /** `<x xmlns="jabber:x:oob"><url>uri</url></x>`. */
  function OobElement(uri: string): Node {
    Element("x", [("xmlns", OobNs)], [Element("url", [], [Text(uri)])])
  }

  /** `<html xmlns="http://jabber.org/protocol/xhtml-im"/>`, always empty. */
  function HtmlElement(): Node {
    Element("html", [("xmlns", XhtmlImNs)], [])
  }

  /** `formatted.find((f) => f.type === "html")`. */
  function FindHtml(fs: seq<Formatted>): (r: Option<Formatted>)
    ensures r.Some? ==> r.value.kind == "html" && exists k :: 0 <= k < |fs| && fs[k] == r.value && forall j :: 0 <= j < k ==> fs[j].kind != "html"
    ensures r.None? ==> forall k :: 0 <= k < |fs| ==> fs[k].kind != "html"
    decreases |fs|
  {
    if fs == [] then None
    else if fs[0].kind == "html" then Some(fs[0])
    else
      var r := FindHtml(fs[1..]);
      if r.Some? then
        ghost var k :| 0 <= k < |fs[1..]| && fs[1..][k] == r.value && forall j :: 0 <= j < k ==> fs[1..][j].kind != "html";
        assert fs[k + 1] == r.value;
        r
      else r
  }

  /** The HTML alternative of a message, if any. */
  function HtmlOf(msg: Message): Option<Formatted> {
    FindHtml(msg.formatted.GetOr([]))
  }

  /** One out-of-band element per attachment, in order. */
  function AttachmentNodes(atts: seq<Attachment>): (r: seq<Node>)
    ensures |r| == |atts|
    ensures forall k :: 0 <= k < |atts| ==> r[k] == OobElement(atts[k].uri)
  {
    seq(|atts|, k requires 0 <= k < |atts| => OobElement(atts[k].uri))
  }

  /** The body after the attachment loop has overwritten it once per attachment. */
  function BodyAfterAttachments(atts: seq<Attachment>, body: string): string {
    if atts == [] then body else atts[|atts| - 1].uri
  }

  /** What `msg.body` holds after sending: the attachment loop writes into the caller's message. */
  function BodyAfterSend(msg: Message): string {
    if msg.attachments.Some? then BodyAfterAttachments(msg.attachments.value, msg.body) else msg.body
  }

  /** The children of a groupchat message: attachments win over HTML even when the array is empty. */
  function GroupchatChildren(msg: Message): seq<Node> {
    if msg.attachments.Some? then
      AttachmentNodes(msg.attachments.value) + [BodyElement(BodyAfterSend(msg))]
    else if HtmlOf(msg).Some? then
      [HtmlElement(), Text(HtmlAnchor(HtmlOf(msg).value.body)), BodyElement(msg.body)]
    else
      [BodyElement(msg.body)]
  }

  function GroupchatAttrs(to: string, id: string, from: string): seq<(string, string)> {
    [("to", to), ("id", id), ("from", from), ("type", "groupchat")]
  }

  /** The groupchat message element before it is written out. */
  function GroupchatStanza(to: string, id: string, from: string, msg: Message): Node {
    Element("message", GroupchatAttrs(to, id, from), GroupchatChildren(msg))
  }

  /**
   * The pattern handed to `replace`: the anchor, or, when the attachment branch
   * ran and left the anchor `undefined`, the text `undefined`.
   */
  function PatchPattern(msg: Message): string
    requires HtmlOf(msg).Some?
  {
    if msg.attachments.Some? then "undefined" else HtmlAnchor(HtmlOf(msg).value.body)
  }

  /** The text written for a groupchat message: serialise, then patch the HTML in. */
  function GroupchatText(to: string, id: string, from: string, msg: Message): string {
    var text := Serialise(GroupchatStanza(to, id, from, msg));
    match HtmlOf(msg)
    case None => text
    case Some(h) => ReplaceFirst(text, PatchPattern(msg), h.body)
  }

  /** `<x xmlns="http://jabber.org/protocol/muc"><history maxchars="0"/></x>`: join, and send no history. */
  function MucExtension(): Node {
    Element("x", [("xmlns", MucNs)], [Element("history", [("maxchars", "0")], [])])
  }

  /** The multi-user-chat join presence. */
  function JoinPresence(to: string, from: string): Node {
    Element("presence", [("to", to), ("from", from)], [MucExtension()])
  }

  /** Leaving a room: an `unavailable` presence with no children. */
  function LeavePresence(to: string, from: string): Node
  {
    Element("presence", [("to", to), ("from", from), ("type", "unavailable")], [])
  }

  /** A vCard `get` addressed to the bare JID of the sender. */
  function VCardRequest(from: string, sender: Jid, id: string): Node
  {
    Element("iq", [("from", from), ("to", sender.local + "@" + sender.domain), ("type", "get"), ("id", id)],
      [Element("vCard", [("xmlns", VCardNs)], [])])
  }

  /** The handle a conflict retry asks for. */
  function RetryHandle(from: Jid): string {
    from.resource + ConflictSuffix
  }

  /** A retried handle carries the conflict marker, so a retry of a retry is refused. */
  lemma RetryHandleMarked(from: Jid)
    ensures EndsWith(RetryHandle(from), ConflictSuffix)
  {
    var h := RetryHandle(from);
    assert h[|h| - |ConflictSuffix|..] == ConflictSuffix;
  }

  /**
   * With attachments (even an empty array): one out-of-band element per
   * attachment, in order, then the body, which holds the last attachment's URI
   * (the original body when there is none); no html element. An HTML
   * alternative is then patched in place of the first `undefined` in the text.
   */
  lemma GroupchatWithAttachments(to: string, id: string, from: string, msg: Message)
    requires msg.attachments.Some?
    ensures var atts := msg.attachments.value; var cs := GroupchatChildren(msg);
      && |cs| == |atts| + 1
      && (forall k :: 0 <= k < |atts| ==> cs[k] == OobElement(atts[k].uri))
      && cs[|atts|] == BodyElement(if atts == [] then msg.body else atts[|atts| - 1].uri)
      && (forall k :: 0 <= k < |cs| ==> cs[k].Element? && cs[k].name != "html")
    ensures var text := Serialise(GroupchatStanza(to, id, from, msg));
      GroupchatText(to, id, from, msg) ==
        if HtmlOf(msg).Some? then ReplaceFirst(text, "undefined", HtmlOf(msg).value.body) else text
  {
  }

  /** With attachments, an HTML alternative is dropped unless the text `undefined` happens to occur. */
  lemma GroupchatAttachmentsDropHtml(to: string, id: string, from: string, msg: Message)
    requires msg.attachments.Some?
    requires Absent(Serialise(GroupchatStanza(to, id, from, msg)), "undefined")
    ensures GroupchatText(to, id, from, msg) == Serialise(GroupchatStanza(to, id, from, msg))
  {
    var text := Serialise(GroupchatStanza(to, id, from, msg));
    if HtmlOf(msg).Some? {
      ReplaceAbsent(text, "undefined", HtmlOf(msg).value.body);
    }
  }

  /**
   * With an HTML alternative and no attachments: an empty html element, the
   * anchor as a sibling text node, then the body; the anchor has word
   * characters only; the text is the serialised stanza with the first
   * occurrence of the anchor replaced through `replace`.
   */
  lemma GroupchatHtmlOnly(to: string, id: string, from: string, msg: Message)
    requires msg.attachments.None? && HtmlOf(msg).Some?
    ensures var html := HtmlOf(msg).value.body; var anchor := HtmlAnchor(html);
      && GroupchatChildren(msg) == [HtmlElement(), Text(anchor), BodyElement(msg.body)]
      && (forall k :: 0 <= k < |anchor| ==> IsWordChar(anchor[k]))
      && GroupchatText(to, id, from, msg) == ReplaceFirst(Serialise(GroupchatStanza(to, id, from, msg)), anchor, html)
  {
    HtmlAnchorShape(HtmlOf(msg).value.body);
  }

  /** Everything written before the anchor: the message start tag and the empty html element. */
  function GroupchatPrefix(to: string, id: string, from: string): string {
    StartTag("message", GroupchatAttrs(to, id, from)) + Serialise(HtmlElement())
  }

  /** Everything written after the anchor: the body element and the end tag. */
  function GroupchatSuffix(body: string): string {
    Serialise(BodyElement(body)) + EndTag("message")
  }

  /** The serialised HTML-only stanza is the prefix, the anchor verbatim, and the suffix. */
  lemma GroupchatHtmlLayout(to: string, id: string, from: string, msg: Message)
    requires msg.attachments.None? && HtmlOf(msg).Some?
    ensures Serialise(GroupchatStanza(to, id, from, msg)) ==
      GroupchatPrefix(to, id, from) + HtmlAnchor(HtmlOf(msg).value.body) + GroupchatSuffix(msg.body)
  {
    var anchor := HtmlAnchor(HtmlOf(msg).value.body);
    HtmlAnchorShape(HtmlOf(msg).value.body);
    EscapeTextPlain(anchor);
    SerialiseElementOfThree("message", GroupchatAttrs(to, id, from), HtmlElement(), Text(anchor), BodyElement(msg.body));
  }

  /**
   * The patch puts the HTML body verbatim where the anchor was, provided the
   * HTML holds no `$` (which `replace` would interpret) and the anchor does not
   * already occur in the start tag or the html element before it.
   */
  lemma GroupchatHtmlVerbatim(to: string, id: string, from: string, msg: Message)
    requires msg.attachments.None? && HtmlOf(msg).Some?
    requires '$' !in HtmlOf(msg).value.body
    requires var anchor := HtmlAnchor(HtmlOf(msg).value.body); var prefix := GroupchatPrefix(to, id, from);
      anchor != "" ==> forall j :: 0 <= j < |prefix| ==> !OccursAt(prefix, anchor, j)
    ensures GroupchatText(to, id, from, msg) ==
      GroupchatPrefix(to, id, from) + HtmlOf(msg).value.body + GroupchatSuffix(msg.body)
  {
    var html := HtmlOf(msg).value.body;
    var anchor := HtmlAnchor(html);
    var start, element := StartTag("message", GroupchatAttrs(to, id, from)), Serialise(HtmlElement());
    GroupchatHtmlLayout(to, id, from, msg);
    GroupchatHtmlOnly(to, id, from, msg);
    HtmlAnchorShape(html);
    ElementEndsWithGt(HtmlElement());
    assert (start + element)[|start + element| - 1] == element[|element| - 1];
    ReplacePlaceholder(start + element, anchor, GroupchatSuffix(msg.body), html);
  }
}
