/**
 * The main screen's view model: it lists conversations and shows the messages
 * of the selected one, reading straight from the server. A reply that is not
 * 2xx has a null body and reads as an empty list; only a thrown exception
 * changes what is shown into an error.
 */
module MainScreen {
  import Models
  import Remote
  import opened Conversations

  const UNKNOWN_ERROR := "Unknown error"

  /** The endpoints the screen calls: channels by token, the inbox and a channel's feed by (name, token). */
  datatype ViewApi = ViewApi(
    getChannels: string -> Remote.Reply<seq<string>>,
    getInbox: (string, string) -> Remote.Reply<seq<Models.Message>>,
    getChannelMessages: (string, string) -> Remote.Reply<seq<Models.Message>>)

  datatype ChatOrChannel = ChatOrChannel(name: string, isChannel: bool)

  datatype MainScreenState = Loading | Success(chatsAndChannels: seq<ChatOrChannel>) | Error(message: string)

  /** The text shown for an exception: its message, or a fixed fallback. */
  function ThrownText(message: Models.Option<string>): string {
    message.GetOr(UNKNOWN_ERROR)
  }

  function DirectItems(names: seq<string>): (r: seq<ChatOrChannel>)
    ensures |r| == |names| && forall i | 0 <= i < |names| :: r[i] == ChatOrChannel(names[i], false)
  {
    seq(|names|, i requires 0 <= i < |names| => ChatOrChannel(names[i], false))
  }

  function ChannelItems(names: seq<string>): (r: seq<ChatOrChannel>)
    ensures |r| == |names| && forall i | 0 <= i < |names| :: r[i] == ChatOrChannel(names[i], true)
  {
    seq(|names|, i requires 0 <= i < |names| => ChatOrChannel(names[i], true))
  }

  /** The screen's list: the direct chats of the inbox, one per partner in first-seen order, then the channels. */
  function ChatItems(channels: seq<string>, inbox: seq<Models.Message>, username: string): seq<ChatOrChannel> {
    DirectItems(DirectChatNames(inbox, username)) + ChannelItems(channels)
  }

  /** What loadChatsAndChannels shows: the list, or the message of the first request that threw. */
  function LoadedScreen(api: ViewApi, token: string, username: string): MainScreenState {
    var channelsResponse := api.getChannels(token);
    if channelsResponse.Thrown? then Error(ThrownText(channelsResponse.message))
    else
      var messagesResponse := api.getInbox(username, token);
      if messagesResponse.Thrown? then Error(ThrownText(messagesResponse.message))
      else Success(ChatItems(Remote.BodyOrEmpty(channelsResponse), Remote.BodyOrEmpty(messagesResponse), username))
  }

  /** The request loadMessagesForChatOrChannel sends for an item. */
  function MessagesRequest(api: ViewApi, token: string, username: string, item: ChatOrChannel): Remote.Reply<seq<Models.Message>> {
    if item.isChannel then api.getChannelMessages(item.name, token) else api.getInbox(username, token)
  }

  /** What loadMessagesForChatOrChannel shows: a channel's feed whole, a direct chat's messages out of the inbox. */
  function LoadedMessages(api: ViewApi, token: string, username: string, item: ChatOrChannel): seq<Models.Message> {
    var response := MessagesRequest(api, token, username, item);
    if response.Thrown? then []
    else
      var allMessages := Remote.BodyOrEmpty(response);
      if !item.isChannel then Concerning(allMessages, item.name) else allMessages
  }

  /**
   * The list's layout: the direct chats come first, named once each, each the
   * other party of a direct message of the inbox, every such party listed, in
   * the order their first messages arrived; the channels follow, as returned.
   */
  ghost predicate ItemsShape(items: seq<ChatOrChannel>, inbox: seq<Models.Message>, channels: seq<string>, username: string) {
    var k := |items| - |channels|;
    && 0 <= k
    && items[k..] == ChannelItems(channels)
    && (forall i, j | 0 <= i < j < k :: items[i].name != items[j].name)
    && (forall i | 0 <= i < k ::
          !items[i].isChannel && exists m :: m in inbox && IsDirect(m) && OtherParty(m, username) == items[i].name)
    && (forall m | m in inbox && IsDirect(m) :: ChatOrChannel(OtherParty(m, username), false) in items[..k])
    && (forall i, j | 0 <= i < j < k ::
          && items[i].name in Partners(inbox, username) && items[j].name in Partners(inbox, username)
          && FirstIndex(Partners(inbox, username), items[i].name) < FirstIndex(Partners(inbox, username), items[j].name))
  }

  /** The screen's list is laid out as above. */
  lemma ChatItemsLayout(channels: seq<string>, inbox: seq<Models.Message>, username: string)
    ensures ItemsShape(ChatItems(channels, inbox, username), inbox, channels, username)
  {
    var items := ChatItems(channels, inbox, username);
    var names := DirectChatNames(inbox, username);
    var k := |names|;
    assert items[..k] == DirectItems(names) && items[k..] == ChannelItems(channels);
    DirectChatNamesLayout(inbox, username);
    assert k == |items| - |channels|;
    forall i | 0 <= i < k
      ensures items[i] == ChatOrChannel(names[i], false)
      ensures !items[i].isChannel && exists m :: m in inbox && IsDirect(m) && OtherParty(m, username) == items[i].name
    {
      assert items[i] == items[..k][i];
      assert names[i] in names;
    }
    forall i, j | 0 <= i < j < k
      ensures items[i].name != items[j].name
      ensures items[i].name in Partners(inbox, username) && items[j].name in Partners(inbox, username)
      ensures FirstIndex(Partners(inbox, username), items[i].name) < FirstIndex(Partners(inbox, username), items[j].name)
    {
      assert items[i].name == names[i] && items[j].name == names[j];
    }
    forall m | m in inbox && IsDirect(m)
      ensures ChatOrChannel(OtherParty(m, username), false) in items[..k]
    {
      var i :| 0 <= i < k && names[i] == OtherParty(m, username);
      assert items[..k][i] == ChatOrChannel(names[i], false);
    }
  }

  /**
   * Only a thrown exception turns the screen into an error; a failed status
   * on either request still lists what the other request returned.
   */
  lemma ErrorOnlyWhenThrown(api: ViewApi, token: string, username: string)
    ensures LoadedScreen(api, token, username).Error? <==>
      api.getChannels(token).Thrown? || api.getInbox(username, token).Thrown?
    ensures !api.getChannels(token).Ok? && !api.getChannels(token).Thrown? && !api.getInbox(username, token).Thrown? ==>
      LoadedScreen(api, token, username) == Success(ChatItems([], Remote.BodyOrEmpty(api.getInbox(username, token)), username))
  {
  }

  /**
   * A direct chat shows exactly the inbox messages it is part of; a channel
   * shows its whole feed; an exception shows nothing.
   */
  lemma LoadedMessagesOfItem(api: ViewApi, token: string, username: string, item: ChatOrChannel)
    ensures var response := MessagesRequest(api, token, username, item);
      var shown := LoadedMessages(api, token, username, item);
      && (response.Thrown? ==> shown == [])
      && (!response.Thrown? && item.isChannel ==> shown == Remote.BodyOrEmpty(response))
      && (!response.Thrown? && !item.isChannel ==>
            forall m :: m in shown <==>
              m in Remote.BodyOrEmpty(response) && (m.from == item.name || m.to == Models.Some(item.name)))
  {
  }

  class MainViewModel {
    const api: ViewApi
    var token: string
    var username: string
    var state: MainScreenState
    var selected: Models.Option<ChatOrChannel>
    var messages: seq<Models.Message>

    constructor (api: ViewApi)
      ensures this.api == api && token == "" && username == ""
      ensures state == Loading && selected == Models.None && messages == []
    {
      this.api := api;
      token := "";
      username := "";
      state := Loading;
      selected := Models.None;
      messages := [];
    }

    method SetCredentials(userToken: string, userName: string)
      modifies this
      ensures token == userToken && username == userName
      ensures state == old(state) && selected == old(selected) && messages == old(messages)
    {
      token := userToken;
      username := userName;
    }

    method LoadChatsAndChannels()
      modifies this
      ensures state == LoadedScreen(api, token, username)
      ensures token == old(token) && username == old(username)
      ensures selected == old(selected) && messages == old(messages)
    {
      var channelsResponse := api.getChannels(token);
      if channelsResponse.Thrown? {
        state := Error(ThrownText(channelsResponse.message));
        return;
      }
      var channels := Remote.BodyOrEmpty(channelsResponse);
      var messagesResponse := api.getInbox(username, token);
      if messagesResponse.Thrown? {
        state := Error(ThrownText(messagesResponse.message));
        return;
      }
      var inbox := Remote.BodyOrEmpty(messagesResponse);
      var chats := DirectItems(DirectChatNames(inbox, username));
      var allItems := chats + ChannelItems(channels);
      state := Success(allItems);
    }

    method LoadMessagesForChatOrChannel(item: ChatOrChannel)
      modifies this
      ensures messages == LoadedMessages(api, token, username, item)
      ensures token == old(token) && username == old(username)
      ensures state == old(state) && selected == old(selected)
    {
      var messagesResponse := MessagesRequest(api, token, username, item);
      if messagesResponse.Thrown? {
        messages := [];
        return;
      }
      var allMessages := Remote.BodyOrEmpty(messagesResponse);
      messages := if !item.isChannel then Concerning(allMessages, item.name) else allMessages;
    }

    /** Selecting an item shows its messages; clearing the selection clears them. */
    method SelectChatOrChannel(item: Models.Option<ChatOrChannel>)
      modifies this
      ensures selected == item
      ensures messages == (if item.Some? then LoadedMessages(api, token, username, item.value) else [])
      ensures token == old(token) && username == old(username) && state == old(state)
    {
      selected := item;
      if item.Some? {
        LoadMessagesForChatOrChannel(item.value);
      } else {
        messages := [];
      }
    }
  }
}
