/**
 * The synchronisation core: paging a conversation's messages with a moving
 * cursor, discovering the user's conversations, writing both through to the
 * cache, and falling back to the cache when the network fails.
 */
module Repository {
  import opened Models
  import opened Strings
  import opened Collections
  import opened Remote
  import opened Conversations
  import opened MessageDAO
  import opened ChatDAO

  const MESSAGES_FAILED := "Failed to fetch messages from network"
  const CHANNELS_FAILED := "Failed to fetch channels from network: "
  const INBOX_FAILED := "Failed to fetch inbox messages from network: "
  const SEND_FAILED := "Failed to send message: "
  const CORRUPT_ROW := "MessageEntity must have either text or imageLink"
  const CHATS_PAGE_SIZE := 100

  /** What a call of getMessagesForChat sends with every page request besides the cursor. */
  datatype PageQuery = PageQuery(username: string, channel: Chat, token: string, limit: int, rev: bool)

  /** A channel is paged from its own feed, a direct chat from the user's inbox. */
  function FetchPage(api: Api, q: PageQuery, cursor: int): Reply<seq<Message>> {
    if q.channel.isChannel then api.getChannelMessages(q.channel.name, q.token, q.limit, cursor, q.rev)
    else api.getInbox(q.username, q.token, q.limit, cursor, q.rev)
  }

  ghost predicate HonoursCursor(api: Api, q: PageQuery) {
    forall c | IsInt32(c) :: PageBelow(FetchPage(api, q, c), c)
  }

  /** Why a paging loop ended. */
  datatype Stop = Exhausted | Filled | Failed(error: Error, unauthorized: bool)

  /** The outcome of paging: what was collected (and written through), and the cursor reached. */
  datatype Walked = Walked(collected: seq<Message>, cursor: int, stop: Stop)

  /**
   * The network part of getMessagesForChat, from `cursor` on with `acc` already
   * collected: fetch a page, stop on failure or on an empty page, otherwise keep
   * the page's messages of the conversation, move the cursor to the page's
   * smallest id, and stop once `limit` messages are collected.
   */
  function Walk(api: Api, q: PageQuery, cursor: int, acc: seq<Message>): Walked
    requires IsInt32(cursor) && HonoursCursor(api, q)
    decreases cursor - INT_MIN
  {
    var reply := FetchPage(api, q, cursor);
    if !reply.Ok? then Walked(acc, cursor, Failed(Raised(reply, MESSAGES_FAILED, false), Is401(reply)))
    else
      var fetched := BodyOrEmpty(reply);
      if fetched == [] then Walked(acc, cursor, Exhausted)
      else
        var acc' := acc + Concerning(fetched, q.channel.name);
        var next := MinId(fetched);
        assert PageBelow(reply, cursor);
        if |acc'| >= q.limit then Walked(acc', next, Filled)
        else Walk(api, q, next, acc')
  }

  /** One round of the paging loop: a non-empty page moves the cursor strictly down. */
  lemma WalkStep(api: Api, q: PageQuery, cursor: int, acc: seq<Message>)
    requires IsInt32(cursor) && HonoursCursor(api, q)
    requires FetchPage(api, q, cursor).Ok? && BodyOrEmpty(FetchPage(api, q, cursor)) != []
    ensures var fetched := BodyOrEmpty(FetchPage(api, q, cursor));
      var next := MinId(fetched);
      var acc' := acc + Concerning(fetched, q.channel.name);
      && IsInt32(next) && next < cursor
      && Walk(api, q, cursor, acc) == (if |acc'| >= q.limit then Walked(acc', next, Filled) else Walk(api, q, next, acc'))
  {
    assert PageBelow(FetchPage(api, q, cursor), cursor);
  }

  /** The rows written for a list of messages. */
  function Entities(ms: seq<Message>, toEntity: Message -> MessageEntity): (es: seq<MessageEntity>)
    ensures |es| == |ms| && forall i | 0 <= i < |ms| :: es[i] == toEntity(ms[i])
  {
    seq(|ms|, i requires 0 <= i < |ms| => toEntity(ms[i]))
  }

  /** Writing two pages one after the other writes their concatenation. */
  lemma WriteThroughStep(rows: map<int, MessageEntity>, before: seq<Message>, page: seq<Message>,
                         toEntity: Message -> MessageEntity)
    ensures UpsertAll(UpsertAll(rows, Entities(before, toEntity), EntityId), Entities(page, toEntity), EntityId)
            == UpsertAll(rows, Entities(before + page, toEntity), EntityId)
  {
    UpsertAllAppend(rows, Entities(before, toEntity), Entities(page, toEntity), EntityId);
    assert Entities(before, toEntity) + Entities(page, toEntity) == Entities(before + page, toEntity);
  }

  /** `isNullOrEmpty` negated. */
  predicate NonEmpty(s: Option<string>) {
    s.Some? && s.value != ""
  }

  /** Reads a cached row back as a message: a non-empty text wins over a non-empty image link. */
  function DecodeEntity(e: MessageEntity): (r: Result<Message, Error>)
    ensures r.Success? <==> NonEmpty(e.text) || NonEmpty(e.imageLink)
    ensures r.Success? ==> r.value.id == e.id && r.value.from == e.from && r.value.to == Some(e.to)
    ensures r.Success? ==> r.value.time == e.time
    ensures NonEmpty(e.text) ==> r.Success? && r.value.data == Text(e.text.value)
    ensures !NonEmpty(e.text) && NonEmpty(e.imageLink) ==> r.Success? && r.value.data == Image(e.imageLink)
    ensures r.Failure? ==> r.error == Error(Some(CORRUPT_ROW))
  {
    var data :=
      if NonEmpty(e.text) then Some(Text(e.text.value))
      else if NonEmpty(e.imageLink) then Some(Image(e.imageLink))
      else None;
    match data
    case Some(d) => Success(Message(e.id, e.from, Some(e.to), d, e.time))
    case None => Failure(Error(Some(CORRUPT_ROW)))
  }

  /** Reads cached rows back in order; the first row that has neither payload aborts. */
  function DecodeAll(es: seq<MessageEntity>): (r: Result<seq<Message>, Error>)
    ensures r.Success? <==> forall i | 0 <= i < |es| :: DecodeEntity(es[i]).Success?
    ensures r.Success? ==> |r.value| == |es| && forall i | 0 <= i < |es| :: r.value[i] == DecodeEntity(es[i]).value
    ensures r.Failure? ==> r.error == Error(Some(CORRUPT_ROW))
  {
    if es == [] then Success([])
    else
      match DecodeEntity(es[0])
      case Failure(e) => Failure(e)
      case Success(m) =>
        match DecodeAll(es[1..])
        case Failure(e) => Failure(e)
        case Success(ms) => Success([m] + ms)
  }

  const INBOX_REVERSE := true

  /** getChats' inbox request at a cursor: pages of 100, newest first. */
  function InboxPage(api: Api, username: string, token: string, cursor: int): Reply<seq<Message>> {
    api.getInbox(username, token, CHATS_PAGE_SIZE, cursor, INBOX_REVERSE)
  }

  ghost predicate InboxHonoursCursor(api: Api, username: string, token: string) {
    forall c | IsInt32(c) :: PageBelow(InboxPage(api, username, token, c), c)
  }

  /** The raw inbox stream read from `cursor` on, and why reading ended. */
  datatype Pass = Pass(messages: seq<Message>, stop: Stop)

  /** The whole inbox from `cursor` down, page after page, until an empty page or a failure. */
  function InboxPass(api: Api, username: string, token: string, cursor: int): Pass
    requires IsInt32(cursor) && InboxHonoursCursor(api, username, token)
    decreases cursor - INT_MIN
  {
    var reply := InboxPage(api, username, token, cursor);
    if !reply.Ok? then Pass([], Failed(Raised(reply, INBOX_FAILED, true), Is401(reply)))
    else
      var fetched := BodyOrEmpty(reply);
      if fetched == [] then Pass([], Exhausted)
      else
        assert PageBelow(reply, cursor);
        var rest := InboxPass(api, username, token, MinId(fetched));
        Pass(fetched + rest.messages, rest.stop)
  }

  /** One round of getChats' inbox loop: a non-empty page is kept whole and the cursor moves down. */
  lemma InboxStep(api: Api, username: string, token: string, cursor: int)
    requires IsInt32(cursor) && InboxHonoursCursor(api, username, token)
    requires InboxPage(api, username, token, cursor).Ok? && BodyOrEmpty(InboxPage(api, username, token, cursor)) != []
    ensures var fetched := BodyOrEmpty(InboxPage(api, username, token, cursor));
      var next := MinId(fetched);
      && IsInt32(next) && next < cursor
      && InboxPass(api, username, token, cursor)
         == Pass(fetched + InboxPass(api, username, token, next).messages, InboxPass(api, username, token, next).stop)
  {
    assert PageBelow(InboxPage(api, username, token, cursor), cursor);
  }

  /** How getChats' inbox loop ends: on a failed request, or on an empty page. */
  lemma InboxEnd(api: Api, username: string, token: string, cursor: int)
    requires IsInt32(cursor) && InboxHonoursCursor(api, username, token)
    ensures var reply := InboxPage(api, username, token, cursor);
      && (!reply.Ok? ==> InboxPass(api, username, token, cursor)
                         == Pass([], Failed(Raised(reply, INBOX_FAILED, true), Is401(reply))))
      && (reply.Ok? && BodyOrEmpty(reply) == [] ==> InboxPass(api, username, token, cursor) == Pass([], Exhausted))
  {
  }

  /** One round of getChats' inbox loop, for a pass of which `seen` has been read up to `cursor`. */
  lemma ScanStep(api: Api, username: string, token: string, cursor: int, seen: seq<Message>, pass: Pass)
    requires IsInt32(cursor) && InboxHonoursCursor(api, username, token)
    requires InboxPage(api, username, token, cursor).Ok? && BodyOrEmpty(InboxPage(api, username, token, cursor)) != []
    requires pass.messages == seen + InboxPass(api, username, token, cursor).messages
    requires pass.stop == InboxPass(api, username, token, cursor).stop
    ensures var fetched := BodyOrEmpty(InboxPage(api, username, token, cursor));
      var next := MinId(fetched);
      && IsInt32(next) && next < cursor
      && pass.messages == (seen + fetched) + InboxPass(api, username, token, next).messages
      && pass.stop == InboxPass(api, username, token, next).stop
      && Partners(seen + fetched, username) == Partners(seen, username) + Partners(fetched, username)
  {
    var fetched := BodyOrEmpty(InboxPage(api, username, token, cursor));
    InboxStep(api, username, token, cursor);
    var rest := InboxPass(api, username, token, MinId(fetched)).messages;
    assert seen + (fetched + rest) == (seen + fetched) + rest;
    PartnersAppend(seen, fetched, username);
  }

  function DirectChats(names: seq<string>): (r: seq<Chat>)
    ensures |r| == |names| && forall i | 0 <= i < |names| :: r[i] == Chat(names[i], false, INT_MAX)
  {
    seq(|names|, i requires 0 <= i < |names| => Chat(names[i], false, INT_MAX))
  }

  /** One more name lists one more direct chat. */
  lemma DirectChatsStep(names: seq<string>, name: string)
    ensures DirectChats(names + [name]) == DirectChats(names) + [Chat(name, false, INT_MAX)]
  {
    assert DirectChats(names + [name])[|names|] == Chat(name, false, INT_MAX);
  }

  function ChannelChats(names: seq<string>): (r: seq<Chat>)
    ensures |r| == |names| && forall i | 0 <= i < |names| :: r[i] == Chat(names[i], true, INT_MAX)
  {
    seq(|names|, i requires 0 <= i < |names| => Chat(names[i], true, INT_MAX))
  }

  /** The network part of getChats: the conversation list, or the exception that aborted it. */
  datatype Plan = Listed(items: seq<Chat>) | Aborted(error: Error, unauthorized: bool)

  function ChatsPlan(api: Api, username: string, token: string): Plan
    requires InboxHonoursCursor(api, username, token)
  {
    var channelsReply := api.getChannels(token);
    if !channelsReply.Ok? then Aborted(Raised(channelsReply, CHANNELS_FAILED, true), Is401(channelsReply))
    else
      var pass := InboxPass(api, username, token, INT_MAX);
      if pass.stop.Failed? then Aborted(pass.stop.error, pass.stop.unauthorized)
      else Listed(DirectChats(DirectChatNames(pass.messages, username)) + ChannelChats(BodyOrEmpty(channelsReply)))
  }

  /** An exception message that is present and mentions "Unauthorized". */
  predicate MentionsUnauthorized(e: Error) {
    e.message.Some? && Contains(e.message.value, "Unauthorized")
  }

  /** The cached fallback of getChats: every owned row, tagged as a channel. */
  function AsChannels(es: seq<ChatEntity>): (r: seq<Chat>)
    ensures |r| == |es| && forall i | 0 <= i < |es| :: r[i] == Chat(es[i].name, true, INT_MAX)
  {
    seq(|es|, i requires 0 <= i < |es| => Chat(es[i].name, true, INT_MAX))
  }

  /** The rows updateLocalChats writes: each conversation owned by `username`. */
  function OwnedBy(items: seq<Chat>, username: string): (es: seq<ChatEntity>)
    ensures |es| == |items|
    ensures forall i | 0 <= i < |items| :: es[i] == ChatEntity(items[i].name, username, items[i].isChannel)
  {
    seq(|items|, i requires 0 <= i < |items| => ChatEntity(items[i].name, username, items[i].isChannel))
  }

  /** One message of getChats' inner loop, in terms of the partners seen so far. */
  lemma MergeStep(earlier: seq<string>, ms: seq<Message>, j: nat, username: string)
    requires j < |ms| && IsDirect(ms[j])
    ensures var x := earlier + Partners(ms[..j], username);
      var p := OtherParty(ms[j], username);
      && earlier + Partners(ms[..j + 1], username) == x + [p]
      && Distinct(x + [p]) == if p in Distinct(x) then Distinct(x) else Distinct(x) + [p]
  {
    var x := earlier + Partners(ms[..j], username);
    var p := OtherParty(ms[j], username);
    PartnersStep(ms, j, username);
    assert earlier + (Partners(ms[..j], username) + [p]) == x + [p];
    DistinctStep(x, p);
  }

  /**
   * getChats' inner loop over one page: each direct message's other party is
   * appended to the chat list unless it is already there.
   */
  method MergePartners(page: seq<Message>, username: string, ghost earlier: seq<string>,
                       chats: seq<Chat>, uniqueChats: set<string>)
    returns (chats': seq<Chat>, uniqueChats': set<string>)
    requires chats == DirectChats(Distinct(earlier))
    requires forall n :: n in uniqueChats <==> n in Distinct(earlier)
    ensures chats' == DirectChats(Distinct(earlier + Partners(page, username)))
    ensures forall n :: n in uniqueChats' <==> n in Distinct(earlier + Partners(page, username))
  {
    var filteredMessages := DirectOnly(page);
    chats', uniqueChats' := chats, uniqueChats;
    var j := 0;
    assert earlier + Partners(filteredMessages[..0], username) == earlier;
    while j < |filteredMessages|
      invariant 0 <= j <= |filteredMessages|
      invariant chats' == DirectChats(Distinct(earlier + Partners(filteredMessages[..j], username)))
      invariant forall n :: n in uniqueChats' <==> n in Distinct(earlier + Partners(filteredMessages[..j], username))
    {
      var message := filteredMessages[j];
      assert message in filteredMessages;
      var otherParty := if message.from == username then message.to.value else message.from;
      ghost var x := earlier + Partners(filteredMessages[..j], username);
      MergeStep(earlier, filteredMessages, j, username);
      if otherParty !in uniqueChats' {
        DirectChatsStep(Distinct(x), otherParty);
        uniqueChats' := uniqueChats' + {otherParty};
        chats' := chats' + [Chat(otherParty, false, INT_MAX)];
      }
      j := j + 1;
    }
    assert filteredMessages[..j] == filteredMessages;
    PartnersOfDirectOnly(page, username);
  }

  class ChatRepository {
    const chatDao: ChatDao
    const messageDao: MessageDao
    const api: Api
    /** The message-to-row conversion, defined outside this model. */
    const toEntity: Message -> MessageEntity

    constructor (chatDao: ChatDao, messageDao: MessageDao, api: Api, toEntity: Message -> MessageEntity)
      ensures this.chatDao == chatDao && this.messageDao == messageDao
      ensures this.api == api && this.toEntity == toEntity
    {
      this.chatDao := chatDao;
      this.messageDao := messageDao;
      this.api := api;
      this.toEntity := toEntity;
    }

    /**
     * Pages backwards through the conversation's feed, writing each page's
     * matching messages through to the cache. On any failure (a 401 first
     * notifies `onUnauthorized`, counted in `unauthorizedCalls`) the collected
     * list is dropped and the cache is read instead, at the cursor reached.
     */
    method GetMessagesForChat(username: string, channel: Chat, token: string, lastKnownId: int, limit: int, rev: bool)
      returns (r: Result<seq<Message>, Error>, unauthorizedCalls: nat)
      requires messageDao.Valid()
      requires IsInt32(lastKnownId)
      requires HonoursCursor(api, PageQuery(username, channel, token, limit, rev))
      modifies messageDao
      ensures messageDao.Valid()
      ensures var w := Walk(api, PageQuery(username, channel, token, limit, rev), lastKnownId, []);
        && messageDao.rows == UpsertAll(old(messageDao.rows), Entities(w.collected, toEntity), EntityId)
        && unauthorizedCalls == (if w.stop.Failed? && w.stop.unauthorized then 1 else 0)
        && r == (if w.stop.Failed?
                 then DecodeAll(messageDao.GetMessagesByNameWithLimit(channel.name, w.cursor, limit))
                 else Success(w.collected))
    {
      var q := PageQuery(username, channel, token, limit, rev);
      var allMessages: seq<Message> := [];
      var currentLastKnownId := lastKnownId;
      var failed := false;
      unauthorizedCalls := 0;
      assert Entities([], toEntity) == [];
      while true
        invariant messageDao.Valid()
        invariant IsInt32(currentLastKnownId)
        invariant Walk(api, q, lastKnownId, []) == Walk(api, q, currentLastKnownId, allMessages)
        invariant messageDao.rows == UpsertAll(old(messageDao.rows), Entities(allMessages, toEntity), EntityId)
        invariant unauthorizedCalls == 0 && !failed
        decreases currentLastKnownId - INT_MIN
      {
        var messagesResponse := FetchPage(api, q, currentLastKnownId);
        if !messagesResponse.Ok? {
          if Is401(messagesResponse) {
            unauthorizedCalls := unauthorizedCalls + 1;
          }
          failed := true;
          break;
        }
        var fetchedMessages := BodyOrEmpty(messagesResponse);
        if fetchedMessages == [] {
          break;
        }
        WalkStep(api, q, currentLastKnownId, allMessages);
        var filteredMessages := Concerning(fetchedMessages, channel.name);
        WriteThroughStep(old(messageDao.rows), allMessages, filteredMessages, toEntity);
        allMessages := allMessages + filteredMessages;
        currentLastKnownId := MinId(fetchedMessages);
        UpdateLocalDatabase(filteredMessages);
        if |allMessages| >= limit {
          break;
        }
      }
      if failed {
        var cached := messageDao.GetMessagesByNameWithLimit(channel.name, currentLastKnownId, limit);
        r := DecodeAll(cached);
      } else {
        r := Success(allMessages);
      }
    }

    /** Writes a page's messages through to the messages table. */
    method UpdateLocalDatabase(messages: seq<Message>)
      requires messageDao.Valid()
      modifies messageDao
      ensures messageDao.Valid()
      ensures messageDao.rows == UpsertAll(old(messageDao.rows), Entities(messages, toEntity), EntityId)
    {
      messageDao.InsertMessages(Entities(messages, toEntity));
    }

    /**
     * The inbox loop of getChats: pages of 100 newest first from the largest
     * 32-bit id down, collecting the direct chats in first-seen order.
     */
    method ScanInbox(username: string, token: string)
      returns (chats: seq<Chat>, failure: Option<Error>, unauthorizedCalls: nat)
      requires InboxHonoursCursor(api, username, token)
      ensures var pass := InboxPass(api, username, token, INT_MAX);
        && (failure.None? <==> !pass.stop.Failed?)
        && (failure.None? ==> chats == DirectChats(DirectChatNames(pass.messages, username)) && unauthorizedCalls == 0)
        && (failure.Some? ==> failure.value == pass.stop.error
                              && unauthorizedCalls == (if pass.stop.unauthorized then 1 else 0))
    {
      unauthorizedCalls := 0;
      failure := None;
      var uniqueChats: set<string> := {};
      chats := [];
      var lastKnownId := INT_MAX;
      ghost var seen: seq<Message> := [];
      ghost var pass := InboxPass(api, username, token, INT_MAX);
      while true
        invariant IsInt32(lastKnownId)
        invariant pass.messages == seen + InboxPass(api, username, token, lastKnownId).messages
        invariant pass.stop == InboxPass(api, username, token, lastKnownId).stop
        invariant chats == DirectChats(Distinct(Partners(seen, username)))
        invariant forall n :: n in uniqueChats <==> n in Distinct(Partners(seen, username))
        invariant unauthorizedCalls == 0 && failure == None
        decreases lastKnownId - INT_MIN
      {
        var messagesResponse := InboxPage(api, username, token, lastKnownId);
        InboxEnd(api, username, token, lastKnownId);
        if !messagesResponse.Ok? {
          if Is401(messagesResponse) {
            unauthorizedCalls := 1;
          }
          failure := Some(Raised(messagesResponse, INBOX_FAILED, true));
          break;
        }
        var fetchedMessages := BodyOrEmpty(messagesResponse);
        if fetchedMessages == [] {
          break;
        }
        ScanStep(api, username, token, lastKnownId, seen, pass);
        chats, uniqueChats := MergePartners(fetchedMessages, username, Partners(seen, username), chats, uniqueChats);
        seen := seen + fetchedMessages;
        lastKnownId := MinId(fetchedMessages);
      }
      assert seen + [] == seen;
    }

    /**
     * Lists the user's conversations: the distinct partners of the whole inbox
     * in first-seen order, then the channels, written through with the user as
     * owner. A failure whose message mentions "Unauthorized" is rethrown; any
     * other yields the cached conversations the user owns, all as channels.
     */
    method GetChats(username: string, token: string) returns (r: Result<seq<Chat>, Error>, unauthorizedCalls: nat)
      requires chatDao.Valid()
      requires InboxHonoursCursor(api, username, token)
      modifies chatDao
      ensures chatDao.Valid()
      ensures match ChatsPlan(api, username, token)
        case Listed(items) =>
          && r == Success(items)
          && unauthorizedCalls == 0
          && chatDao.rows == UpsertAll(old(chatDao.rows), OwnedBy(items, username), ChatName)
          && chatDao.order == OrderAfter(old(chatDao.order), OwnedBy(items, username))
        case Aborted(error, unauthorized) =>
          && chatDao.rows == old(chatDao.rows) && chatDao.order == old(chatDao.order)
          && unauthorizedCalls == (if unauthorized then 1 else 0)
          && r == (if MentionsUnauthorized(error) then Failure(error)
                   else Success(AsChannels(chatDao.GetMyChats(username))))
    {
      unauthorizedCalls := 0;
      var failure: Option<Error> := None;
      var allItems: seq<Chat> := [];
      var channelsResponse := api.getChannels(token);
      if !channelsResponse.Ok? {
        if Is401(channelsResponse) {
          unauthorizedCalls := 1;
        }
        failure := Some(Raised(channelsResponse, CHANNELS_FAILED, true));
      } else {
        var channels := BodyOrEmpty(channelsResponse);
        var chats;
        chats, failure, unauthorizedCalls := ScanInbox(username, token);
        if failure.None? {
          allItems := chats + ChannelChats(channels);
          UpdateLocalChats(allItems, username);
        }
      }
      if failure.Some? {
        if MentionsUnauthorized(failure.value) {
          r := Failure(failure.value);
        } else {
          r := Success(AsChannels(chatDao.GetMyChats(username)));
        }
      } else {
        r := Success(allItems);
      }
    }

    /** Writes the conversation list through to the chats table, owned by `username`. */
    method UpdateLocalChats(channels: seq<Chat>, username: string)
      requires chatDao.Valid()
      modifies chatDao
      ensures chatDao.Valid()
      ensures chatDao.rows == UpsertAll(old(chatDao.rows), OwnedBy(channels, username), ChatName)
      ensures chatDao.order == OrderAfter(old(chatDao.order), OwnedBy(channels, username))
    {
      chatDao.InsertChatsOrChannels(OwnedBy(channels, username));
    }

    /**
     * Sends a message and reports the outcome as a value; it never throws.
     * A 401 notifies `onUnauthorized` once before failing.
     */
    method SendMessage(from: string, to: string, data: MessageData, token: string)
      returns (r: Result<(), Error>, unauthorizedCalls: nat)
      ensures var reply := api.sendMessage(token, MessageRequest(from, to, data));
        && (r.Success? <==> reply.Ok?)
        && unauthorizedCalls == (if Is401(reply) then 1 else 0)
        && (!reply.Ok? ==> r == Failure(Raised(reply, SEND_FAILED, true)))
    {
      unauthorizedCalls := 0;
      var response := api.sendMessage(token, MessageRequest(from, to, data));
      if response.Ok? {
        r := Success(());
      } else {
        if Is401(response) {
          unauthorizedCalls := unauthorizedCalls + 1;
        }
        r := Failure(Raised(response, SEND_FAILED, true));
      }
    }
  }

  /** Paging ends at a 32-bit cursor no higher than where it started. */
  lemma {:induction false} WalkLowersCursor(api: Api, q: PageQuery, cursor: int, acc: seq<Message>)
    requires IsInt32(cursor) && HonoursCursor(api, q)
    ensures IsInt32(Walk(api, q, cursor, acc).cursor) && Walk(api, q, cursor, acc).cursor <= cursor
    decreases cursor - INT_MIN
  {
    var reply := FetchPage(api, q, cursor);
    if reply.Ok? && BodyOrEmpty(reply) != [] {
      WalkStep(api, q, cursor, acc);
      var fetched := BodyOrEmpty(reply);
      var acc' := acc + Concerning(fetched, q.channel.name);
      if |acc'| < q.limit {
        WalkLowersCursor(api, q, MinId(fetched), acc');
      }
    }
  }

  lemma PrefixOfAppend(a: seq<Message>, b: seq<Message>)
    ensures |a| <= |a + b| && (a + b)[..|a|] == a
  {
  }

  lemma PrefixTransitive(a: seq<Message>, b: seq<Message>, c: seq<Message>)
    requires |a| <= |b| && b[..|a|] == a
    requires |b| <= |c| && c[..|b|] == b
    ensures c[..|a|] == a
  {
    assert c[..|a|] == c[..|b|][..|a|];
  }

  lemma SuffixFrom(acc: seq<Message>, page: seq<Message>, c: seq<Message>)
    requires |acc + page| <= |c| && c[..|acc + page|] == acc + page
    ensures forall i | |acc| <= i < |acc + page| :: c[i] in page
  {
    forall i | |acc| <= i < |acc + page|
      ensures c[i] in page
    {
      assert c[i] == c[..|acc + page|][i] == page[i - |acc|];
    }
  }

  /** Paging keeps what was already collected. */
  lemma {:induction false} WalkExtends(api: Api, q: PageQuery, cursor: int, acc: seq<Message>)
    requires IsInt32(cursor) && HonoursCursor(api, q)
    ensures |acc| <= |Walk(api, q, cursor, acc).collected|
    ensures Walk(api, q, cursor, acc).collected[..|acc|] == acc
    decreases cursor - INT_MIN
  {
    var reply := FetchPage(api, q, cursor);
    if reply.Ok? && BodyOrEmpty(reply) != [] {
      WalkStep(api, q, cursor, acc);
      var fetched := BodyOrEmpty(reply);
      var acc' := acc + Concerning(fetched, q.channel.name);
      PrefixOfAppend(acc, Concerning(fetched, q.channel.name));
      if |acc'| < q.limit {
        WalkExtends(api, q, MinId(fetched), acc');
        PrefixTransitive(acc, acc', Walk(api, q, MinId(fetched), acc').collected);
      }
    }
  }

  /**
   * Paging appends only messages of the conversation, each with an id at or
   * above the cursor the walk ends at and below the one it started from.
   */
  lemma {:induction false} WalkCollectsConversation(api: Api, q: PageQuery, cursor: int, acc: seq<Message>)
    requires IsInt32(cursor) && HonoursCursor(api, q)
    ensures var w := Walk(api, q, cursor, acc);
      && |acc| <= |w.collected|
      && forall i | |acc| <= i < |w.collected| ::
           && (w.collected[i].from == q.channel.name || w.collected[i].to == Some(q.channel.name))
           && w.cursor <= w.collected[i].id < cursor
    decreases cursor - INT_MIN
  {
    WalkExtends(api, q, cursor, acc);
    var reply := FetchPage(api, q, cursor);
    if reply.Ok? && BodyOrEmpty(reply) != [] {
      WalkStep(api, q, cursor, acc);
      var fetched := BodyOrEmpty(reply);
      var page := Concerning(fetched, q.channel.name);
      var acc' := acc + page;
      var next := MinId(fetched);
      assert forall m | m in page :: m in fetched;
      if |acc'| < q.limit {
        WalkCollectsConversation(api, q, next, acc');
        WalkExtends(api, q, next, acc');
        WalkLowersCursor(api, q, next, acc');
        SuffixFrom(acc, page, Walk(api, q, next, acc').collected);
      } else {
        SuffixFrom(acc, page, acc');
      }
    }
  }

  /**
   * Why paging stops: a page that could not be fetched (the exception it
   * raised and whether it was a 401), an empty page at the cursor reached, or
   * `limit` messages collected; a walk that starts short of `limit` ends short
   * of it unless it stops because it filled up.
   */
  lemma {:induction false} WalkStops(api: Api, q: PageQuery, cursor: int, acc: seq<Message>)
    requires IsInt32(cursor) && HonoursCursor(api, q)
    ensures var w := Walk(api, q, cursor, acc);
      var last := FetchPage(api, q, w.cursor);
      && IsInt32(w.cursor)
      && (w.stop.Failed? ==> !last.Ok? && w.stop == Failed(Raised(last, MESSAGES_FAILED, false), Is401(last)))
      && (w.stop.Exhausted? ==> last.Ok? && BodyOrEmpty(last) == [])
      && (w.stop.Filled? ==> |w.collected| >= q.limit)
      && (!w.stop.Filled? && |acc| < q.limit ==> |w.collected| < q.limit)
    decreases cursor - INT_MIN
  {
    var reply := FetchPage(api, q, cursor);
    if reply.Ok? && BodyOrEmpty(reply) != [] {
      WalkStep(api, q, cursor, acc);
      var fetched := BodyOrEmpty(reply);
      var acc' := acc + Concerning(fetched, q.channel.name);
      if |acc'| < q.limit {
        WalkStops(api, q, MinId(fetched), acc');
      }
    }
  }

  /** getChats' inbox pass never stops for a limit: it reads until an empty page or a failure. */
  lemma {:induction false} InboxPassStops(api: Api, username: string, token: string, cursor: int)
    requires IsInt32(cursor) && InboxHonoursCursor(api, username, token)
    ensures var p := InboxPass(api, username, token, cursor);
      && !p.stop.Filled?
      && (p.stop.Failed? ==> p.stop.unauthorized ==> p.stop.error == Error(Some(UNAUTHORIZED)))
    decreases cursor - INT_MIN
  {
    var reply := InboxPage(api, username, token, cursor);
    if reply.Ok? && BodyOrEmpty(reply) != [] {
      InboxStep(api, username, token, cursor);
      InboxPassStops(api, username, token, MinId(BodyOrEmpty(reply)));
    }
  }

  lemma UnauthorizedMentionsItself()
    ensures MentionsUnauthorized(Error(Some(UNAUTHORIZED)))
  {
    assert OccursAt(UNAUTHORIZED, "Unauthorized", 0) by {
      assert UNAUTHORIZED[0..12] == "Unauthorized";
    }
  }

  /**
   * A 401 while listing conversations is always rethrown, never hidden
   * behind the cached list: its message mentions "Unauthorized".
   */
  lemma UnauthorizedIsRethrown(api: Api, username: string, token: string)
    requires InboxHonoursCursor(api, username, token)
    ensures var plan := ChatsPlan(api, username, token);
      plan.Aborted? && plan.unauthorized ==> MentionsUnauthorized(plan.error)
  {
    UnauthorizedMentionsItself();
    if api.getChannels(token).Ok? {
      InboxPassStops(api, username, token, INT_MAX);
    }
  }

  /**
   * The layout of a conversation list built from an inbox stream and the
   * channel names: first the direct chats, each named once, each the other
   * party of some direct message, every such party present, in the order their
   * first messages arrived; then every channel, in the server's order.
   */
  ghost predicate ChatListShape(items: seq<Chat>, inbox: seq<Message>, channels: seq<string>, username: string) {
    var k := |items| - |channels|;
    && 0 <= k
    && items[k..] == ChannelChats(channels)
    && (forall i, j | 0 <= i < j < k :: items[i].name != items[j].name)
    && (forall i | 0 <= i < k ::
          && !items[i].isChannel && items[i].lastKnownId == INT_MAX
          && exists m :: m in inbox && IsDirect(m) && OtherParty(m, username) == items[i].name)
    && (forall m | m in inbox && IsDirect(m) :: Chat(OtherParty(m, username), false, INT_MAX) in items[..k])
    && (forall i, j | 0 <= i < j < k ::
          && items[i].name in Partners(inbox, username) && items[j].name in Partners(inbox, username)
          && FirstIndex(Partners(inbox, username), items[i].name)
             < FirstIndex(Partners(inbox, username), items[j].name))
  }

  /** The direct chats of an inbox followed by the channels are laid out as above. */
  lemma ChatListLayout(inbox: seq<Message>, channels: seq<string>, username: string)
    ensures ChatListShape(DirectChats(DirectChatNames(inbox, username)) + ChannelChats(channels), inbox, channels, username)
  {
    var names := DirectChatNames(inbox, username);
    var items := DirectChats(names) + ChannelChats(channels);
    var k := |names|;
    assert items[..k] == DirectChats(names) && items[k..] == ChannelChats(channels);
    DirectChatNamesLayout(inbox, username);
    assert k == |items| - |channels|;
    forall i | 0 <= i < k
      ensures items[i] == Chat(names[i], false, INT_MAX)
      ensures !items[i].isChannel && items[i].lastKnownId == INT_MAX
      ensures exists m :: m in inbox && IsDirect(m) && OtherParty(m, username) == items[i].name
    {
      assert items[i] == items[..k][i];
      assert names[i] in names;
    }
    forall i, j | 0 <= i < j < k
      ensures items[i].name != items[j].name
      ensures items[i].name in Partners(inbox, username) && items[j].name in Partners(inbox, username)
      ensures FirstIndex(Partners(inbox, username), items[i].name) < FirstIndex(Partners(inbox, username), items[j].name)
    {
      assert items[i].name == names[i] && items[j].name == names[j];
    }
    forall m | m in inbox && IsDirect(m)
      ensures Chat(OtherParty(m, username), false, INT_MAX) in items[..k]
    {
      var i :| 0 <= i < k && names[i] == OtherParty(m, username);
      assert items[..k][i] == Chat(names[i], false, INT_MAX);
    }
  }

  /**
   * When getChats lists, both the channels request and the whole inbox pass
   * succeeded, and the list is laid out over everything the pass read.
   */
  lemma ListedChats(api: Api, username: string, token: string)
    requires InboxHonoursCursor(api, username, token)
    ensures var plan := ChatsPlan(api, username, token);
      plan.Listed? ==>
        && api.getChannels(token).Ok?
        && !InboxPass(api, username, token, INT_MAX).stop.Failed?
        && ChatListShape(plan.items, InboxPass(api, username, token, INT_MAX).messages,
                         BodyOrEmpty(api.getChannels(token)), username)
  {
    if ChatsPlan(api, username, token).Listed? {
      ChatListLayout(InboxPass(api, username, token, INT_MAX).messages, BodyOrEmpty(api.getChannels(token)), username);
    }
  }


  /**
   * The cache fallback of getMessagesForChat, when it decodes, answers with
   * messages of the conversation below the cursor, newest first, at most
   * `limit` of them when `limit` is not negative.
   */
  lemma CachedFallback(dao: MessageDao, name: string, cursor: int, limit: int)
    requires dao.Valid()
    ensures var r := DecodeAll(dao.GetMessagesByNameWithLimit(name, cursor, limit));
      r.Success? ==>
        && (0 <= limit ==> |r.value| <= limit)
        && (forall i | 0 <= i < |r.value| ::
              (r.value[i].from == name || r.value[i].to == Some(name)) && r.value[i].id < cursor)
        && (forall i, j | 0 <= i < j < |r.value| :: r.value[i].id > r.value[j].id)
  {
    var rows := dao.GetMessagesByNameWithLimit(name, cursor, limit);
    var r := DecodeAll(rows);
    if r.Success? {
      forall i, j | 0 <= i < j < |r.value|
        ensures r.value[i].id > r.value[j].id
      {
        assert r.value[i].id == rows[i].id && r.value[j].id == rows[j].id;
      }
    }
  }
}
