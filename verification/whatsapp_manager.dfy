/**
 * The WhatsApp worker's session manager: the connection state it reports,
 * how connection events move that state, and the chat and message store it
 * keeps from incoming notifications and from the messages it sends. The
 * socket library, the QR-image encoder, the clock and the emitted events are
 * not part of this model: their answers arrive as parameters.
 */
module WhatsAppWorker {
  import opened Wrappers
  import opened Text
  import opened Dicts

  /** The states the manager reports. */
  datatype Status = Disconnected | Connecting | QrReady | Connected | Reconnecting | LoggedOut | Failed

  /** The suffix of a personal chat id. */
  const JidSuffix := "@s.whatsapp.net"

  /** The close code of a logged-out session (`DisconnectReason.loggedOut`). */
  const LoggedOutCode := 401

  /** A stored message. */
  datatype ChatMessage = ChatMessage(id: string, jid: string, from: string, pushName: Option<string>,
                                     text: string, timestamp: string, isFromMe: bool)

  /** A chat-list entry. */
  datatype Chat = Chat(jid: string, name: string, lastMessage: string, timestamp: string, unread: nat)

  /** The chat list and the messages per chat id, both in insertion order as JavaScript maps are. */
  datatype Store = Store(chats: Dict<string, Chat>, messages: Dict<string, seq<ChatMessage>>)

  /** The connection part of the state. */
  datatype Session = Session(status: Status, qrCode: Option<string>, user: Option<string>)

  /** What `getStatus` reports. */
  datatype StatusReport = StatusReport(status: Status, user: Option<string>, hasQR: bool, qrCode: Option<string>, chatsCount: nat)

  /** A JavaScript string is truthy when present and not empty. */
  predicate Truthy(s: Option<string>) {
    s.Some? && s.value != ""
  }

  /** `a || b` for text. */
  function Either(a: Option<string>, b: string): (r: string)
    ensures Truthy(a) ==> r == a.value
    ensures !Truthy(a) ==> r == b
  {
    if Truthy(a) then a.value else b
  }

  /** `jid.replace('@s.whatsapp.net', '')`: a chat id without its first personal suffix. */
  function FromOf(jid: string): string {
    ReplaceFirst(jid, JidSuffix, "")
  }

  // ---------------------------------------------------------------- the store

  /** Chat ids are distinct, and every chat id with messages has a chat entry. */
  ghost predicate StoreOk(s: Store) {
    UniqueKeys(s.chats) && UniqueKeys(s.messages)
    && forall k :: HasKey(s.messages, k) ==> HasKey(s.chats, k)
  }

  /** The messages kept for a chat id; none for an unknown one. */
  function MessagesOf(s: Store, jid: string): seq<ChatMessage> {
    Get(s.messages, jid).GetOr([])
  }

  /** `chats.get(jid)?.unread || 0`. */
  function UnreadOf(s: Store, jid: string): nat {
    if Get(s.chats, jid).Some? then Get(s.chats, jid).value.unread else 0
  }

  /** The store with `m` appended to the messages of `jid` and `chat` as that id's chat entry. */
  function Put(s: Store, jid: string, chat: Chat, m: ChatMessage): Store {
    Store(Set(s.chats, jid, chat), Set(s.messages, jid, MessagesOf(s, jid) + [m]))
  }

  /** Putting changes the messages and the chat entry of `jid` only. */
  lemma PutGet(s: Store, jid: string, chat: Chat, m: ChatMessage, k: string)
    ensures MessagesOf(Put(s, jid, chat, m), k) == if k == jid then MessagesOf(s, k) + [m] else MessagesOf(s, k)
    ensures Get(Put(s, jid, chat, m).chats, k) == if k == jid then Some(chat) else Get(s.chats, k)
  {
    GetSet(s.messages, jid, MessagesOf(s, jid) + [m], k);
    GetSet(s.chats, jid, chat, k);
  }

  /** Putting a message and its chat keeps the store well formed. */
  lemma PutOk(s: Store, jid: string, chat: Chat, m: ChatMessage)
    requires StoreOk(s)
    ensures StoreOk(Put(s, jid, chat, m))
  {
    SetKeepsUnique(s.chats, jid, chat);
    SetKeepsUnique(s.messages, jid, MessagesOf(s, jid) + [m]);
  }

  // ---------------------------------------------------------------- incoming messages

  /** The parts of an incoming message body the manager reads. */
  datatype Body = Body(conversation: Option<string>, extendedText: Option<string>)

  /** An incoming message of an upsert notification; `timestamp` is its time as ISO text. */
  datatype IncomingMessage = IncomingMessage(id: string, remoteJid: string, fromMe: bool, body: Option<Body>,
                                             pushName: Option<string>, timestamp: string)

  /** The text shown for a body: the plain text, else the extended text, else `[Media]`. */
  function BodyText(b: Body): (r: string)
    ensures r != []
    ensures Truthy(b.conversation) ==> r == b.conversation.value
    ensures !Truthy(b.conversation) && !Truthy(b.extendedText) ==> r == "[Media]"
  {
    Either(b.conversation, Either(b.extendedText, "[Media]"))
  }

  /** An incoming message is stored only when it has a body and was not sent by this account. */
  predicate Stored(msg: IncomingMessage) {
    msg.body.Some? && !msg.fromMe
  }

  /** The stored form of an incoming message. */
  function Received(msg: IncomingMessage): (m: ChatMessage)
    requires Stored(msg)
    ensures m.jid == msg.remoteJid && m.id == msg.id && !m.isFromMe && m.text != []
  {
    ChatMessage(msg.id, msg.remoteJid, FromOf(msg.remoteJid), Some(Either(msg.pushName, "Unknown")),
                BodyText(msg.body.value), msg.timestamp, false)
  }

  /** The store after one message of a `notify` upsert: appended, and its chat rewritten with one more unread. */
  function Receive(s: Store, msg: IncomingMessage): (r: Store)
  {
    if !Stored(msg) then s
    else
      var m := Received(msg);
      var jid := msg.remoteJid;
      Put(s, jid, Chat(jid, Either(msg.pushName, FromOf(jid)), m.text, m.timestamp, UnreadOf(s, jid) + 1), m)
  }

  /**
   * A stored message lands at the end of its chat's messages and raises that
   * chat's unread count by one; every other chat is left as it was. A message
   * without a body, or sent by this account, changes nothing.
   */
  lemma ReceiveEffect(s: Store, msg: IncomingMessage, k: string)
    ensures !Stored(msg) ==> Receive(s, msg) == s
    ensures Stored(msg) && k == msg.remoteJid ==>
      && MessagesOf(Receive(s, msg), k) == MessagesOf(s, k) + [Received(msg)]
      && UnreadOf(Receive(s, msg), k) == UnreadOf(s, k) + 1
      && Get(Receive(s, msg).chats, k).value.lastMessage == Received(msg).text
    ensures Stored(msg) && k != msg.remoteJid ==>
      && MessagesOf(Receive(s, msg), k) == MessagesOf(s, k)
      && Get(Receive(s, msg).chats, k) == Get(s.chats, k)
  {
    if Stored(msg) {
      if k == msg.remoteJid {
        ReceiveHere(s, msg);
      } else {
        ReceiveElsewhere(s, msg, k);
      }
    }
  }

  /** The chat a stored message arrives in. */
  lemma ReceiveHere(s: Store, msg: IncomingMessage)
    requires Stored(msg)
    ensures var k := msg.remoteJid;
      && MessagesOf(Receive(s, msg), k) == MessagesOf(s, k) + [Received(msg)]
      && UnreadOf(Receive(s, msg), k) == UnreadOf(s, k) + 1
      && Get(Receive(s, msg).chats, k).value.lastMessage == Received(msg).text
  {
    var m := Received(msg);
    var jid := msg.remoteJid;
    var chat := Chat(jid, Either(msg.pushName, FromOf(jid)), m.text, m.timestamp, UnreadOf(s, jid) + 1);
    assert Receive(s, msg) == Put(s, jid, chat, m);
    PutGet(s, jid, chat, m, jid);
  }

  /** Every other chat is untouched by a stored message. */
  lemma ReceiveElsewhere(s: Store, msg: IncomingMessage, k: string)
    requires Stored(msg) && k != msg.remoteJid
    ensures MessagesOf(Receive(s, msg), k) == MessagesOf(s, k)
    ensures Get(Receive(s, msg).chats, k) == Get(s.chats, k)
  {
    var m := Received(msg);
    var jid := msg.remoteJid;
    var chat := Chat(jid, Either(msg.pushName, FromOf(jid)), m.text, m.timestamp, UnreadOf(s, jid) + 1);
    assert Receive(s, msg) == Put(s, jid, chat, m);
    PutGet(s, jid, chat, m, k);
  }

  /** Receiving keeps the store well formed. */
  lemma ReceiveOk(s: Store, msg: IncomingMessage)
    requires StoreOk(s)
    ensures StoreOk(Receive(s, msg))
  {
    if Stored(msg) {
      var m := Received(msg);
      var jid := msg.remoteJid;
      var chat := Chat(jid, Either(msg.pushName, FromOf(jid)), m.text, m.timestamp, UnreadOf(s, jid) + 1);
      assert Receive(s, msg) == Put(s, jid, chat, m);
      PutOk(s, jid, chat, m);
    }
  }

  /** The store after a whole `messages.upsert` event: only `notify` events are read, message by message. */
  function Upsert(s: Store, batch: seq<IncomingMessage>, notify: bool): Store {
    if !notify || batch == [] then s
    else Receive(Upsert(s, batch[..|batch| - 1], notify), batch[|batch| - 1])
  }

  /** A stored message is put under its chat id with that chat's unread count raised by one. */
  lemma ReceiveStored(s: Store, msg: IncomingMessage)
    requires Stored(msg)
    ensures var m, jid := Received(msg), msg.remoteJid;
            Receive(s, msg) == Put(s, jid, Chat(jid, Either(msg.pushName, FromOf(jid)), m.text, m.timestamp, UnreadOf(s, jid) + 1), m)
  {
  }

  /** The two dictionary assignments of the upsert handler make the store `Receive` describes. */
  lemma StoredUpdate(s: Store, msg: IncomingMessage, chats: Dict<string, Chat>, messages: Dict<string, seq<ChatMessage>>)
    requires Stored(msg)
    requires var m, jid := Received(msg), msg.remoteJid;
             && messages == Set(s.messages, jid, Get(s.messages, jid).GetOr([]) + [m])
             && chats == Set(s.chats, jid, Chat(jid, Either(msg.pushName, FromOf(jid)), m.text, m.timestamp,
                                                (if Get(s.chats, jid).Some? then Get(s.chats, jid).value.unread else 0) + 1))
    ensures Store(chats, messages) == Receive(s, msg)
  {
    ReceiveStored(s, msg);
  }

  /** One more message of a `notify` batch is one more `Receive`. */
  lemma UpsertStep(s: Store, batch: seq<IncomingMessage>, i: nat, notify: bool)
    requires notify && i < |batch|
    ensures Upsert(s, batch[..i + 1], notify) == Receive(Upsert(s, batch[..i], notify), batch[i])
  {
    assert batch[..i + 1][..i] == batch[..i];
  }

  /** The number of messages of a batch that are stored for a chat id. */
  function StoredFor(batch: seq<IncomingMessage>, jid: string): (n: nat)
    ensures n <= |batch|
  {
    if batch == [] then 0
    else StoredFor(batch[..|batch| - 1], jid) + if Stored(batch[|batch| - 1]) && batch[|batch| - 1].remoteJid == jid then 1 else 0
  }

  /** A `notify` event raises each chat's unread count by the number of its stored messages; any other event changes nothing. */
  lemma {:induction false} UpsertUnread(s: Store, batch: seq<IncomingMessage>, notify: bool, jid: string)
    ensures !notify ==> Upsert(s, batch, notify) == s
    ensures notify ==> UnreadOf(Upsert(s, batch, notify), jid) == UnreadOf(s, jid) + StoredFor(batch, jid)
    ensures notify ==> |MessagesOf(Upsert(s, batch, notify), jid)| == |MessagesOf(s, jid)| + StoredFor(batch, jid)
  {
    if notify && batch != [] {
      var init := batch[..|batch| - 1];
      UpsertUnread(s, init, notify, jid);
      ReceiveEffect(Upsert(s, init, notify), batch[|batch| - 1], jid);
    }
  }

  /** An upsert keeps the store well formed. */
  lemma {:induction false} UpsertOk(s: Store, batch: seq<IncomingMessage>, notify: bool)
    requires StoreOk(s)
    ensures StoreOk(Upsert(s, batch, notify))
  {
    if notify && batch != [] {
      UpsertOk(s, batch[..|batch| - 1], notify);
      ReceiveOk(Upsert(s, batch[..|batch| - 1], notify), batch[|batch| - 1]);
    }
  }

  // ---------------------------------------------------------------- sending

  /** The chat id of a recipient: kept when it holds `@`, otherwise its digits with the personal suffix. */
  function JidOf(to: string): (jid: string)
    ensures '@' in to ==> jid == to
    ensures '@' !in to ==> jid == DigitsOnly(to) + JidSuffix
  {
    if '@' in to then to else DigitsOnly(to) + JidSuffix
  }

  /** The store after sending `m`: appended, and its chat's last message and time updated with its unread count kept. */
  function SentStore(s: Store, m: ChatMessage): Store {
    var existing := if Get(s.chats, m.jid).Some? then Get(s.chats, m.jid).value else Chat(m.jid, FromOf(m.jid), "", "", 0);
    Put(s, m.jid, existing.(lastMessage := m.text, timestamp := m.timestamp), m)
  }

  /**
   * Sending appends the message to its chat and updates that chat's last
   * message and time, but never its unread count (zero for a new chat); every
   * other chat is left as it was.
   */
  lemma SentEffect(s: Store, m: ChatMessage, k: string)
    ensures k == m.jid ==>
      && MessagesOf(SentStore(s, m), k) == MessagesOf(s, k) + [m]
      && Get(SentStore(s, m).chats, k).Some?
      && UnreadOf(SentStore(s, m), k) == UnreadOf(s, k)
      && Get(SentStore(s, m).chats, k).value.lastMessage == m.text
      && Get(SentStore(s, m).chats, k).value.timestamp == m.timestamp
    ensures k != m.jid ==>
      && MessagesOf(SentStore(s, m), k) == MessagesOf(s, k)
      && Get(SentStore(s, m).chats, k) == Get(s.chats, k)
  {
    var existing := if Get(s.chats, m.jid).Some? then Get(s.chats, m.jid).value else Chat(m.jid, FromOf(m.jid), "", "", 0);
    PutGet(s, m.jid, existing.(lastMessage := m.text, timestamp := m.timestamp), m, k);
  }

  /** Sending keeps the store well formed. */
  lemma SentOk(s: Store, m: ChatMessage)
    requires StoreOk(s)
    ensures StoreOk(SentStore(s, m))
  {
    var existing := if Get(s.chats, m.jid).Some? then Get(s.chats, m.jid).value else Chat(m.jid, FromOf(m.jid), "", "", 0);
    PutOk(s, m.jid, existing.(lastMessage := m.text, timestamp := m.timestamp), m);
  }

  // ---------------------------------------------------------------- reading messages

  /** `msgs.slice(-limit)`: the last `limit` messages for a positive limit, all for zero, all but the first `-limit` for a negative one. */
  function Slice(msgs: seq<ChatMessage>, limit: int): (r: seq<ChatMessage>)
    ensures |r| <= |msgs| && r == msgs[|msgs| - |r|..]
    ensures limit > 0 ==> |r| == if limit < |msgs| then limit else |msgs|
    ensures limit == 0 ==> r == msgs
    ensures limit < 0 ==> |r| == if -limit < |msgs| then |msgs| + limit else 0
  {
    var start := -limit;
    if start < 0 then (if |msgs| + start > 0 then msgs[|msgs| + start..] else msgs)
    else if start < |msgs| then msgs[start..] else []
  }

  // ---------------------------------------------------------------- connection events

  /** The `connection` field of a connection update. */
  datatype Link = LinkConnecting | LinkOpen | LinkClose

  /**
   * A connection update with the answers of the code it waits on: `qrImage` is
   * the encoder's data URL for `qr` (absent when encoding fails), `closeCode`
   * the status code of a Boom error (absent for any other error), `socketUser`
   * the socket's user.
   */
  datatype ConnectionUpdate = ConnectionUpdate(connection: Option<Link>, qr: Option<string>, qrImage: Option<string>,
                                               closeCode: Option<int>, socketUser: Option<string>)

  /** The session after a connection update: the QR step, then an opening, then a closing. */
  function AfterUpdate(s: Session, u: ConnectionUpdate): (r: Session)
    ensures u.connection == Some(LinkOpen) ==> r.status == Connected && r.qrCode.None? && r.user == u.socketUser
    ensures u.connection == Some(LinkClose) && u.closeCode == Some(LoggedOutCode) ==>
      r.status == LoggedOut && r.user.None? && r.qrCode.None?
    ensures u.connection == Some(LinkClose) && u.closeCode != Some(LoggedOutCode) ==> r.status == Reconnecting && r.user == s.user
    ensures (u.connection.None? || u.connection == Some(LinkConnecting)) ==>
      if Truthy(u.qr) then r == s.(status := QrReady, qrCode := if u.qrImage.Some? then u.qrImage else s.qrCode)
      else r == s
  {
    var afterQr := if Truthy(u.qr) then s.(status := QrReady, qrCode := if u.qrImage.Some? then u.qrImage else s.qrCode) else s;
    if u.connection == Some(LinkOpen) then Session(Connected, None, u.socketUser)
    else if u.connection == Some(LinkClose) then
      if u.closeCode.GetOr(500) != LoggedOutCode then afterQr.(status := Reconnecting)
      else Session(LoggedOut, None, None)
    else afterQr
  }

  /** A connected session shows no QR code, and a logged-out one has neither user nor QR code. */
  predicate SessionOk(s: Session) {
    (s.status == Connected ==> s.qrCode.None?)
    && (s.status == LoggedOut ==> s.user.None? && s.qrCode.None?)
  }

  /** Every connection update keeps the session well formed. */
  lemma AfterUpdateOk(s: Session, u: ConnectionUpdate)
    requires SessionOk(s)
    ensures SessionOk(AfterUpdate(s, u))
  {
  }

  /** The manager (`WhatsAppManager`). */
  class Manager {
    var hasSocket: bool
    var status: Status
    var qrCode: Option<string>
    var user: Option<string>
    var chats: Dict<string, Chat>
    var messages: Dict<string, seq<ChatMessage>>

    function SessionOf(): Session
      reads this
    {
      Session(status, qrCode, user)
    }

    function StoreOf(): Store
      reads this
    {
      Store(chats, messages)
    }

    ghost predicate Valid()
      reads this
    {
      SessionOk(SessionOf()) && StoreOk(StoreOf())
    }

    constructor()
      ensures !hasSocket && status == Disconnected && qrCode.None? && user.None?
      ensures chats == [] && messages == [] && Valid()
    {
      hasSocket := false;
      status := Disconnected;
      qrCode := None;
      user := None;
      chats := [];
      messages := [];
    }

    /** `getStatus`: a QR code is reported present exactly when one is held and is not empty. */
    function GetStatus(): (r: StatusReport)
      reads this
      ensures r.status == status && r.user == user && r.qrCode == qrCode
      ensures r.hasQR <==> Truthy(qrCode)
      ensures r.chatsCount == |chats|
    {
      StatusReport(status, user, Truthy(qrCode), qrCode, |chats|)
    }

    /** `connect`: a created socket moves the manager to connecting; a failure to create one to the error state. */
    method Connect(created: bool)
      requires Valid()
      modifies this
      ensures created ==> hasSocket && status == Connecting
      ensures !created ==> hasSocket == old(hasSocket) && status == Failed
      ensures qrCode == old(qrCode) && user == old(user) && StoreOf() == old(StoreOf())
      ensures Valid()
    {
      if created {
        hasSocket := true;
        status := Connecting;
      } else {
        status := Failed;
      }
    }

    /** The `connection.update` handler. */
    method OnConnectionUpdate(u: ConnectionUpdate)
      requires Valid()
      modifies this
      ensures SessionOf() == AfterUpdate(old(SessionOf()), u)
      ensures hasSocket == old(hasSocket) && StoreOf() == old(StoreOf())
      ensures Valid()
    {
      AfterUpdateOk(SessionOf(), u);
      if Truthy(u.qr) {
        status := QrReady;
        if u.qrImage.Some? {
          qrCode := u.qrImage;
        }
      }
      if u.connection == Some(LinkOpen) {
        status := Connected;
        qrCode := None;
        user := u.socketUser;
      }
      if u.connection == Some(LinkClose) {
        var code := u.closeCode.GetOr(500);
        if code != LoggedOutCode {
          status := Reconnecting;
        } else {
          status := LoggedOut;
          user := None;
          qrCode := None;
        }
      }
    }

    /** The `messages.upsert` handler. */
    method OnMessagesUpsert(batch: seq<IncomingMessage>, notify: bool)
      requires Valid()
      modifies this
      ensures StoreOf() == Upsert(old(StoreOf()), batch, notify)
      ensures hasSocket == old(hasSocket) && SessionOf() == old(SessionOf())
      ensures Valid()
    {
      UpsertOk(StoreOf(), batch, notify);
      if !notify {
        return;
      }
      ghost var s0 := StoreOf();
      for i := 0 to |batch|
        invariant StoreOf() == Upsert(s0, batch[..i], notify)
        invariant SessionOf() == old(SessionOf()) && hasSocket == old(hasSocket)
      {
        UpsertStep(s0, batch, i, notify);
        ReceiveOne(batch[i]);
      }
      assert batch[..|batch|] == batch;
    }

    /** The handler's body for one message of a `notify` batch. */
    method ReceiveOne(msg: IncomingMessage)
      modifies this
      ensures StoreOf() == Receive(old(StoreOf()), msg)
      ensures hasSocket == old(hasSocket) && SessionOf() == old(SessionOf())
    {
      if !msg.body.Some? || msg.fromMe {
        return;
      }
      var jid := msg.remoteJid;
      var m := Received(msg);
      var unread := if Get(chats, jid).Some? then Get(chats, jid).value.unread else 0;
      var chat := Chat(jid, Either(msg.pushName, FromOf(jid)), m.text, m.timestamp, unread + 1);
      messages, chats := Set(messages, jid, Get(messages, jid).GetOr([]) + [m]), Set(chats, jid, chat);
      StoredUpdate(old(StoreOf()), msg, chats, messages);
    }

    /**
     * `sendMessage`: refused without a socket or a connected session, and when
     * the socket's send fails (`sentId` absent); otherwise the sent message is
     * stored under the recipient's chat id.
     */
    method SendMessage(to: string, text: string, sentId: Option<string>, now: string) returns (ok: bool)
      requires Valid()
      modifies this
      ensures ok <==> old(hasSocket) && old(status) == Connected && sentId.Some?
      ensures ok ==> StoreOf() == SentStore(old(StoreOf()), ChatMessage(sentId.value, JidOf(to), "me", None, text, now, true))
      ensures !ok ==> StoreOf() == old(StoreOf())
      ensures hasSocket == old(hasSocket) && SessionOf() == old(SessionOf())
      ensures Valid()
    {
      if !hasSocket || status != Connected || sentId.None? {
        return false;
      }
      var jid := if '@' in to then to else DigitsOnly(to) + JidSuffix;
      var m := ChatMessage(sentId.value, jid, "me", None, text, now, true);
      SentOk(StoreOf(), m);
      messages := Set(messages, jid, Get(messages, jid).GetOr([]) + [m]);
      var existing := if Get(chats, jid).Some? then Get(chats, jid).value else Chat(jid, FromOf(jid), "", "", 0);
      chats := Set(chats, jid, existing.(lastMessage := text, timestamp := now));
      ok := true;
    }

    /** `getMessages`: the tail of a chat's messages; none for an unknown chat id. */
    function GetMessages(jid: string, limit: int): (r: seq<ChatMessage>)
      reads this
      ensures Get(messages, jid).None? ==> r == []
      ensures Get(messages, jid).Some? ==> r == Slice(Get(messages, jid).value, limit)
    {
      Slice(MessagesOf(StoreOf(), jid), limit)
    }

    /** `logout`: with a socket, the session ends and the store is emptied; without one nothing changes. */
    method Logout()
      requires Valid()
      modifies this
      ensures old(hasSocket) ==> !hasSocket && SessionOf() == Session(LoggedOut, None, None) && chats == [] && messages == []
      ensures !old(hasSocket) ==> SessionOf() == old(SessionOf()) && StoreOf() == old(StoreOf())
      ensures Valid()
    {
      if hasSocket {
        hasSocket := false;
        status := LoggedOut;
        user := None;
        qrCode := None;
        chats := [];
        messages := [];
      }
    }
  }
}
