/**
 * The native XMPP account and the part of its XMPP instance it uses: the log
 * of sent message ids and stream writes, and the read-only presence cache.
 */
module XmppJsAccount {
  import opened Wrappers
  import opened Text
  import opened JsString
  import opened Encoding
  import opened Xml
  import opened Stanzas
  import opened JoinState

  /** A presence cache entry. */
  datatype Presence = Presence(online: bool, photoId: Option<string>)

  /** What is handed to `xmppWriteToStream`: an element, or already serialised text. */
  datatype Wire = StanzaOut(stanza: Node) | TextOut(text: string)

  /** One call from the account into its instance, in the order made. */
  datatype Effect = SentId(id: string) | Written(wire: Wire)

  datatype UserInfo = UserInfo(
    nickname: string,
    eventName: string,
    who: string,
    protocolId: string,
    username: string,
    avatar: Option<string>)

  /** One field of the join form. */
  datatype ChatJoinOption = ChatJoinOption(identifier: string, labelText: string, required: bool)

  const ConflictMessage: string := "A user with the prefix '[m]' already exists, cannot join to room."

  /** The XMPP component connection that accounts share. */
  class XmppInstance {
    /** The calls made into `xmppAddSentMessage` and `xmppWriteToStream`, oldest first. */
    var effects: seq<Effect>
    /** `presenceCache.getStatus`: the last known presence of each full JID. */
    var presence: map<string, Presence>

    constructor (presence: map<string, Presence>)
      ensures this.presence == presence && effects == []
    {
      this.presence := presence;
      effects := [];
    }

    method XmppAddSentMessage(id: string)
      modifies this
      ensures effects == old(effects) + [SentId(id)]
      ensures presence == old(presence)
    {
      effects := effects + [SentId(id)];
    }

    method XmppWriteToStream(wire: Wire)
      modifies this
      ensures effects == old(effects) + [Written(wire)]
      ensures presence == old(presence)
    {
      effects := effects + [Written(wire)];
    }
  }

  /**
   * The attachment loop of the groupchat sender: one out-of-band element per
   * attachment, in order, while the body is overwritten with each URI in turn.
   */
  method CollectAttachments(atts: seq<Attachment>, body: string) returns (contents: seq<Node>, lastBody: string)
    ensures |contents| == |atts|
    ensures forall k :: 0 <= k < |atts| ==> contents[k] == OobElement(atts[k].uri)
    ensures atts == [] ==> lastBody == body
    ensures atts != [] ==> lastBody == atts[|atts| - 1].uri
  {
    contents, lastBody := [], body;
    for i := 0 to |atts|
      invariant |contents| == i
      invariant forall k :: 0 <= k < i ==> contents[k] == OobElement(atts[k].uri)
      invariant i == 0 ==> lastBody == body
      invariant i > 0 ==> lastBody == atts[i - 1].uri
    {
      contents := contents + [OobElement(atts[i].uri)];
      lastBody := atts[i].uri;
    }
  }

  class XmppJsAccount {
    const remoteId: string
    const resource: string
    /** `XMPP_PROTOCOL.id`. */
    const protocolId: string
    const xmpp: XmppInstance

    /** `room@server` of every join made with `setWaiting`; nothing here removes an entry. */
    var waitingToJoin: set<string>
    /** The handle recorded for each confirmed `room@server`; `None` when the join had no handle. */
    var roomHandles: map<string, Option<string>>
    /** The `chat-joined` callbacks this account has registered on its instance, oldest first. */
    var listeners: seq<Listener>
    /** The promise of each join made with an instance, by ticket. */
    var settlements: seq<Settlement>

    ghost predicate Valid()
      reads this
    {
      WellFormed(listeners, settlements)
    }

    constructor (remoteId: string, resource: string, protocolId: string, xmpp: XmppInstance)
      ensures Valid()
      ensures this.remoteId == remoteId && this.resource == resource
      ensures this.protocolId == protocolId && this.xmpp == xmpp
      ensures waitingToJoin == {} && roomHandles == map[] && listeners == [] && settlements == []
    {
      this.remoteId := remoteId;
      this.resource := resource;
      this.protocolId := protocolId;
      this.xmpp := xmpp;
      waitingToJoin := {};
      roomHandles := map[];
      listeners := [];
      settlements := [];
    }

    /** `${remoteId}/${resource}`, the `from` of every stanza. */
    function FullJid(): string {
      remoteId + "/" + resource
    }

    /** Registering accounts is not supported. */
    function CreateNew(password: Option<string>): (r: Result<(), string>)
      ensures r.Failure? && r.error == "Xmpp.js doesn't support registering accounts"
    {
      Failure("Xmpp.js doesn't support registering accounts")
    }

    /** Accounts are always enabled. */
    function SetEnabled(enable: bool): (r: Result<(), string>)
      ensures r.Failure? && r.error == "Xmpp.js doesn't allow you to enable or disable accounts"
    {
      Failure("Xmpp.js doesn't allow you to enable or disable accounts")
    }

    function GetConversation(name: string): (r: Result<(), string>)
      ensures r.Failure? && r.error == "getConversation not implemented"
    {
      Failure("getConversation not implemented")
    }

    /** A one-to-one message: its id is logged, then the `chat` message is written. */
    method SendIM(recipient: string, msg: Message, now: nat)
      modifies xmpp
      ensures xmpp.effects == old(xmpp.effects) +
        [SentId(TimeId(now)), Written(StanzaOut(ImStanza(recipient, TimeId(now), FullJid(), msg.body)))]
      ensures xmpp.presence == old(xmpp.presence)
    {
      var id := TimeId(now);
      var message := ImStanza(recipient, id, FullJid(), msg.body);
      xmpp.XmppAddSentMessage(id);
      xmpp.XmppWriteToStream(StanzaOut(message));
    }

    /**
     * A groupchat message: its id is logged, then its text is written. Returns
     * the caller's message as the send leaves it (the attachment loop
     * overwrites its body).
     */
    method SendChat(chatName: string, msg: Message, now: nat) returns (msgAfter: Message)
      modifies xmpp
      ensures xmpp.effects == old(xmpp.effects) +
        [SentId(ChatId(msg, now)), Written(TextOut(GroupchatText(chatName, ChatId(msg, now), FullJid(), msg)))]
      ensures xmpp.presence == old(xmpp.presence)
      ensures msgAfter == msg.(body := BodyAfterSend(msg))
    {
      var id := ChatId(msg, now);
      var contents: seq<Node> := [];
      var body := msg.body;
      var htmlMsg := HtmlOf(msg);
      var htmlAnchor: Option<string> := None;
      if msg.attachments.Some? {
        contents, body := CollectAttachments(msg.attachments.value, body);
        assert contents == AttachmentNodes(msg.attachments.value);
      } else if htmlMsg.Some? {
        htmlAnchor := Some(HtmlAnchor(htmlMsg.value.body));
        contents := [HtmlElement(), Text(htmlAnchor.value)];
      }
      contents := contents + [BodyElement(body)];
      assert contents == GroupchatChildren(msg);
      var message := Serialise(Element("message", GroupchatAttrs(chatName, id, FullJid()), contents));
      if htmlMsg.Some? {
        // An undefined anchor is converted to the pattern text "undefined".
        message := ReplaceFirst(message, htmlAnchor.GetOr("undefined"), htmlMsg.value.body);
      }
      xmpp.XmppAddSentMessage(id);
      xmpp.XmppWriteToStream(TextOut(message));
      msgAfter := msg.(body := body);
    }

    /**
     * Joins `room@server` as `handle`: marks the room as waited for when
     * `setWaiting`, registers a listener and hands out a pending promise when
     * an instance is given, then writes the join presence.
     */
    method JoinChat(props: JoinProps, withInstance: bool, setWaiting: bool) returns (joined: Option<nat>)
      requires Valid()
      modifies this, xmpp
      ensures Valid()
      ensures xmpp.effects == old(xmpp.effects) + [Written(StanzaOut(JoinPresence(OccupantJid(props), FullJid())))]
      ensures xmpp.presence == old(xmpp.presence)
      ensures waitingToJoin == if setWaiting then old(waitingToJoin) + {RoomJid(props)} else old(waitingToJoin)
      ensures roomHandles == old(roomHandles)
      ensures SettledKept(old(settlements), settlements)
      ensures withInstance ==>
        && joined == Some(old(|settlements|))
        && listeners == old(listeners) + [Listener(RoomJid(props), Lookup(props, "handle"), old(|settlements|))]
        && settlements == old(settlements) + [Pending]
      ensures !withInstance ==> joined == None && listeners == old(listeners) && settlements == old(settlements)
    {
      var roomName := RoomJid(props);
      var message := JoinPresence(OccupantJid(props), FullJid());
      if setWaiting {
        waitingToJoin := waitingToJoin + {roomName};
      }
      joined := None;
      if withInstance {
        RegisterWellFormed(listeners, settlements, roomName, Lookup(props, "handle"));
        joined := Some(|settlements|);
        listeners := listeners + [Listener(roomName, Lookup(props, "handle"), |settlements|)];
        settlements := settlements + [Pending];
      }
      xmpp.XmppWriteToStream(StanzaOut(message));
    }

    /**
     * A `chat-joined` event reaches every listener registered when it is
     * emitted, in order; each one that fires records its handle, resolves its
     * promise and removes itself.
     */
    method OnChatJoined(ev: ChatJoined)
      requires Valid()
      modifies this
      ensures Valid()
      ensures listeners == Survivors(old(listeners), ev, remoteId)
      ensures roomHandles == RecordHandles(old(roomHandles), old(listeners), ev, remoteId)
      ensures settlements == SettleJoined(old(settlements), old(listeners), ev, remoteId)
      ensures SettledKept(old(settlements), settlements)
      ensures waitingToJoin == old(waitingToJoin)
    {
      EventWellFormed(listeners, settlements, ev, remoteId);
      roomHandles := RecordHandles(roomHandles, listeners, ev, remoteId);
      settlements := SettleJoined(settlements, listeners, ev, remoteId);
      listeners := Survivors(listeners, ev, remoteId);
    }

    /** The timer of a join promise fires: the promise is rejected, the listener stays. */
    method OnJoinTimeout(ticket: nat)
      requires Valid() && ticket < |settlements|
      modifies this
      ensures Valid()
      ensures settlements == TimeOut(old(settlements), ticket)
      ensures SettledKept(old(settlements), settlements)
      ensures listeners == old(listeners) && roomHandles == old(roomHandles) && waitingToJoin == old(waitingToJoin)
    {
      TimeOutWellFormed(listeners, settlements, ticket);
      settlements := TimeOut(settlements, ticket);
    }

    /**
     * Retries a join refused for a nickname conflict: fails when the handle
     * already carries the conflict marker, otherwise joins the same room with
     * the marker appended (waiting, but without an instance, so no listener).
     */
    method XmppRetryJoin(from: Jid) returns (r: Result<Option<nat>, string>)
      requires Valid()
      modifies this, xmpp
      ensures Valid()
      ensures xmpp.presence == old(xmpp.presence)
      ensures roomHandles == old(roomHandles) && listeners == old(listeners) && settlements == old(settlements)
      ensures EndsWith(from.resource, ConflictSuffix) ==>
        r == Failure(ConflictMessage) && xmpp.effects == old(xmpp.effects) && waitingToJoin == old(waitingToJoin)
      ensures !EndsWith(from.resource, ConflictSuffix) ==>
        && r == Success(None)
        && xmpp.effects == old(xmpp.effects) +
          [Written(StanzaOut(JoinPresence(from.local + "@" + from.domain + "/" + RetryHandle(from), FullJid())))]
        && waitingToJoin == old(waitingToJoin) + {from.local + "@" + from.domain}
    {
      if EndsWith(from.resource, ConflictSuffix) {
        return Failure(ConflictMessage);
      }
      var props := map["room" := from.local, "server" := from.domain, "handle" := RetryHandle(from)];
      var joined := JoinChat(props, false, true);
      r := Success(joined);
    }

    /** Leaves a room: writes an `unavailable` presence to `room@server/handle`. */
    method RejectChat(props: JoinProps)
      modifies xmpp
      ensures xmpp.effects == old(xmpp.effects) + [Written(StanzaOut(LeavePresence(OccupantJid(props), FullJid())))]
      ensures xmpp.presence == old(xmpp.presence)
    {
      xmpp.XmppWriteToStream(StanzaOut(LeavePresence(OccupantJid(props), FullJid())));
    }

    /** Requests the vCard of `sender` (already parsed), under request id `id`. */
    method GetAvatarBuffer(sender: Jid, id: string)
      modifies xmpp
      ensures xmpp.effects == old(xmpp.effects) + [Written(StanzaOut(VCardRequest(FullJid(), sender, id)))]
      ensures xmpp.presence == old(xmpp.presence)
    {
      xmpp.XmppWriteToStream(StanzaOut(VCardRequest(FullJid(), sender, id)));
    }

    /**
     * In a room only when a non-empty handle has been recorded for it and the
     * presence cache holds an online entry for `room/handle`.
     */
    function IsInRoom(roomName: string): (r: bool)
      reads this, xmpp
      ensures r <==>
        && roomName in roomHandles && roomHandles[roomName].Some? && roomHandles[roomName].value != ""
        && roomName + "/" + roomHandles[roomName].value in xmpp.presence
        && xmpp.presence[roomName + "/" + roomHandles[roomName].value].online
    {
      var handle := if roomName in roomHandles then roomHandles[roomName] else None;
      if handle.None? || handle.value == "" then false
      else
        var key := roomName + "/" + handle.value;
        key in xmpp.presence && xmpp.presence[key].online
    }

    /**
     * The nickname is the text between the first and the second `/` (the whole
     * string when there is no `/`); the avatar is the cached photo id when it is
     * set and non-empty.
     */
    function GetUserInfo(who: string): (r: UserInfo)
      reads xmpp
      ensures r.who == who && r.eventName == "meh" && r.protocolId == protocolId && r.username == remoteId
      ensures '/' !in who ==> r.nickname == who
      ensures '/' in who ==> SecondPiece(who, '/', r.nickname)
      ensures r.avatar.Some? <==> who in xmpp.presence && xmpp.presence[who].photoId.Some? && xmpp.presence[who].photoId.value != ""
      ensures r.avatar.Some? ==> r.avatar == xmpp.presence[who].photoId
    {
      var split := Split(who, '/');
      assert '/' in who ==> |split| > 1 && SecondPiece(who, '/', split[1]) by {
        if '/' in who { SplitNickname(who, '/'); }
      }
      assert '/' !in who ==> split == [who] by {
        if '/' !in who { SplitWithoutSeparator(who, '/'); }
      }
      var status := if who in xmpp.presence then Some(xmpp.presence[who]) else None;
      var avatar := if status.Some? && status.value.photoId.Some? && status.value.photoId.value != "" then status.value.photoId else None;
      UserInfo(if |split| > 1 then split[1] else split[0], "meh", who, protocolId, remoteId, avatar)
    }

    /** The join form: `server` and `room` required, `handle` optional, in that order. */
    function GetChatParamsForProtocol(): (r: seq<ChatJoinOption>)
      ensures |r| == 3 && r[0].identifier == "server" && r[1].identifier == "room" && r[2].identifier == "handle"
      ensures forall k :: 0 <= k < |r| ==> r[k].labelText == r[k].identifier
      ensures forall k :: 0 <= k < |r| ==> (r[k].required <==> r[k].identifier != "handle")
    {
      [ChatJoinOption("server", "server", true),
       ChatJoinOption("room", "room", true),
       ChatJoinOption("handle", "handle", false)]
    }
  }
}
