# myChats synchronisation core, in Dafny

This project models the core of the myChats Android client. It covers:

- **The chat repository.** It pages a conversation's history backwards from a cursor. It writes every page through to the local Room cache. On any network failure it falls back to that cache.
- **Conversation discovery.** It derives the user's direct chats from the whole inbox and appends the channel list.
- **Sending a message.**
- **The two Room tables** (`messages`, `chats_or_channels`) and their queries.
- **The JSON adapter** for message payloads.
- **The two view models**: the main screen's list and selection, and the register/login state machine with its password extraction.

Each core file becomes one module:

| module | file | form |
|---|---|---|
| `Repository` | `chat_repository.dfy` | class `ChatRepository` with imperative paging loops, each proved equal to a recursive specification (`Walk`, `InboxPass`, `ChatsPlan`) |
| `MessageDAO`, `ChatDAO` | `message_dao.dfy`, `chat_dao.dfy` | classes whose tables are `map` fields; queries are functions, inserts and deletes are methods |
| `MessageDataAdapter` | `message_data_adapter.dfy` | pure functions on nested maps |
| `MainScreen`, `Auth` | `main_view_model.dfy`, `auth_view_model.dfy` | classes whose state flows are fields |
| `Models`, `Strings`, `Collections`, `Remote`, `Conversations` | shared | data shapes, Kotlin string functions, keyed upsert, the server interface, the chat derivation |

**The server** is a value of type `Remote.Api`: one function per endpoint. A reply is `Ok(body?)`, `HttpError(code, reason)` or `Thrown(message?)`.

**Exceptions** are `Models.Error(message?)`. The repository inspects their messages (`"Unauthorized"`).

**The `onUnauthorized` callback** is modelled by the number of times it is called, returned as `unauthorizedCalls`.

**The paging loops** are `while (true)` loops in the source. They terminate because the server honours the cursor: every page fetched at cursor `c` holds 32-bit ids below `c`. That is the precondition `HonoursCursor` / `InboxHonoursCursor`, and the loop variant is `cursor - INT_MIN`.

**Failures, as the code handles them:**

- `getMessagesForChat` answers every failure from the cache, a 401 included (after calling `onUnauthorized`), and a malformed reply too. `GetMessagesForChat` states exactly that.
- `getChats` rethrows a failure only when its message contains "Unauthorized". That includes a transport exception or a reason phrase that happens to contain the word. Every other failure is answered from the cache.

The message shape `(id, from, to?, data, time)` and the paging endpoints come from how `ChatRepository.kt` uses them (lines 33-35, 74-80, 112-118). `models/Message.kt` and `network/ApiService.kt` do not match those call sites.

## Model

| member | source | states |
|---|---|---|
| Repository.ChatRepository.constructor | app/src/main/java/com/artm44/mychats/data/ChatRepository.kt:12-16 | the repository holds the two tables and the server it was built with |
| Repository.ChatRepository.GetMessagesForChat | app/src/main/java/com/artm44/mychats/data/ChatRepository.kt:18-85 | The messages table is the old table upserted with the rows of every message collected before the loop stopped, including on failure. `onUnauthorized` runs once exactly when the stop was a 401. The result is the collected list, or, after any failure, the decoded cache query for the conversation at the cursor reached, with the same limit. |
| Repository.ChatRepository.UpdateLocalDatabase | app/src/main/java/com/artm44/mychats/data/ChatRepository.kt:87-89 | the table becomes the old table upserted with the rows of the given messages, in order |
| Repository.ChatRepository.ScanInbox | app/src/main/java/com/artm44/mychats/data/ChatRepository.kt:105-143 | reading the whole inbox in pages of 100 from `Int.MAX_VALUE` down yields the distinct direct partners in first-seen order, or the exception of the first failed page (401: one `onUnauthorized`) |
| Repository.ChatRepository.GetChats | app/src/main/java/com/artm44/mychats/data/ChatRepository.kt:91-164 | On success, the result is the direct chats then the channels, and the chats table is upserted with exactly those rows, owned by the user, in storage order. On failure the table is unchanged: a message containing "Unauthorized" is rethrown; otherwise the result is the user's cached rows, all as channels. |
| Repository.ChatRepository.UpdateLocalChats | app/src/main/java/com/artm44/mychats/data/ChatRepository.kt:167-174 | the chats table is upserted with each item as a row owned by `username`, with its channel flag kept |
| Repository.ChatRepository.SendMessage | app/src/main/java/com/artm44/mychats/data/ChatRepository.kt:176-199 | success exactly on a 2xx reply; otherwise the failure carries "Failed to send message: " + reason, the fixed Unauthorized message on a 401 (after one `onUnauthorized`), or the thrown exception; it never throws |
| Repository.FetchPage | app/src/main/java/com/artm44/mychats/data/ChatRepository.kt:32-36 | a channel is paged through its own feed, a direct chat through the user's inbox, with the same limit, cursor and direction |
| Repository.Walk | app/src/main/java/com/artm44/mychats/data/ChatRepository.kt:27-61 | specification of the paging loop: an empty page ends it at that cursor, a failed page ends it with its exception, a non-empty page adds its messages of the conversation, moves the cursor to its smallest id, and stops once `limit` is reached |
| Repository.InboxPage | app/src/main/java/com/artm44/mychats/data/ChatRepository.kt:112-118 | getChats asks for inbox pages of 100, newest first, below the cursor |
| Repository.InboxPass | app/src/main/java/com/artm44/mychats/data/ChatRepository.kt:111-143 | specification of the inbox loop: every page kept whole, from `Int.MAX_VALUE` down, until an empty page or the first failure |
| Repository.ChatsPlan | app/src/main/java/com/artm44/mychats/data/ChatRepository.kt:91-154 | specification of getChats before its catch: a failed channels request or inbox page aborts with its exception; otherwise the direct chats of the whole inbox followed by the channels |
| Repository.MentionsUnauthorized | app/src/main/java/com/artm44/mychats/data/ChatRepository.kt:156 | the catch rethrows when the message is present and contains "Unauthorized" |
| Repository.WalkStep | app/src/main/java/com/artm44/mychats/data/ChatRepository.kt:46-61 | a non-empty page appends its messages of the conversation and moves the cursor to the page's smallest id, strictly lower, whether or not anything matched; the walk then stops if `limit` is reached, else continues |
| Repository.WalkExtends | app/src/main/java/com/artm44/mychats/data/ChatRepository.kt:54-56 | paging never drops or reorders what was already collected: it only appends |
| Repository.WalkLowersCursor | app/src/main/java/com/artm44/mychats/data/ChatRepository.kt:46-57 | paging ends at a 32-bit cursor no higher than the one it started from |
| Repository.WalkCollectsConversation | app/src/main/java/com/artm44/mychats/data/ChatRepository.kt:50-56 | every message collected has the conversation as sender or recipient, and an id below the starting cursor and at or above the final one |
| Repository.WalkStops | app/src/main/java/com/artm44/mychats/data/ChatRepository.kt:38-60 | paging stops on a failed page (its exception; whether it was a 401), on an empty page at the final cursor, or with at least `limit` messages; a walk that did not fill up ends below `limit` |
| Repository.WriteThroughStep | app/src/main/java/com/artm44/mychats/data/ChatRepository.kt:58 | writing each page as it arrives leaves the table as writing all pages at once |
| Repository.Entities | app/src/main/java/com/artm44/mychats/data/ChatRepository.kt:88 | one row per message, converted position by position |
| Repository.DecodeEntity | app/src/main/java/com/artm44/mychats/data/ChatRepository.kt:67-80 | a cached row decodes exactly when its text or image link is non-empty, keeping id, sender, recipient and time; a non-empty text wins and becomes a Text payload, otherwise the image link becomes an Image payload; a row with neither fails with the corrupt-row error |
| Repository.DecodeAll | app/src/main/java/com/artm44/mychats/data/ChatRepository.kt:63-81 | rows decode position by position; any undecodable row makes the whole read fail with that error |
| Repository.CachedFallback | app/src/main/java/com/artm44/mychats/data/ChatRepository.kt:62-67 | a decoded fallback has only messages of the conversation below the cursor, strictly newest first, at most `limit` of them |
| Repository.InboxStep | app/src/main/java/com/artm44/mychats/data/ChatRepository.kt:111-143 | a non-empty inbox page is kept whole and the cursor moves strictly down to its smallest id |
| Repository.InboxPassStops | app/src/main/java/com/artm44/mychats/data/ChatRepository.kt:111-143 | the inbox pass never stops for a limit, and a 401 in it carries the fixed Unauthorized message |
| Repository.MergePartners | app/src/main/java/com/artm44/mychats/data/ChatRepository.kt:132-140 | the set and the list grow by the page's unseen direct partners, in page order: the list stays the distinct partners seen so far |
| Repository.DirectChats | app/src/main/java/com/artm44/mychats/data/ChatRepository.kt:138 | each partner name becomes a direct chat with the default cursor, in order |
| Repository.ChannelChats | app/src/main/java/com/artm44/mychats/data/ChatRepository.kt:145-150 | each channel name becomes a channel with the default cursor, in server order |
| Repository.AsChannels | app/src/main/java/com/artm44/mychats/data/ChatRepository.kt:160-162 | every cached row becomes a channel, whatever its stored flag |
| Repository.OwnedBy | app/src/main/java/com/artm44/mychats/data/ChatRepository.kt:168-172 | each item becomes a row with its name and flag, owned by `username` |
| Repository.UnauthorizedIsRethrown | app/src/main/java/com/artm44/mychats/data/ChatRepository.kt:155-158 | a 401 while listing conversations always reaches the caller: its message contains "Unauthorized" |
| Repository.ChatListLayout | app/src/main/java/com/artm44/mychats/data/ChatRepository.kt:132-150 | the direct chats of an inbox followed by the channels satisfy `ChatListShape` |
| Repository.ListedChats | app/src/main/java/com/artm44/mychats/data/ChatRepository.kt:91-154 | When getChats lists, the channels request and the whole inbox pass succeeded. The list returned is then, over everything the pass read: direct chats first, with distinct names, the default cursor, each the other party of a direct message, every such party present, in order of first appearance; then the channels, in server order. |
| Repository.ChatListShape | app/src/main/java/com/artm44/mychats/data/ChatRepository.kt:132-150 | definition of the layout above: channels as the suffix; distinct, sound, complete, first-seen direct chats before them |
| Repository.ScanStep | app/src/main/java/com/artm44/mychats/data/ChatRepository.kt:111-143 | after a non-empty inbox page the rest of the pass is read from the page's smallest id, strictly lower, and the partners seen so far grow by the page's partners |
| Repository.MergeStep | app/src/main/java/com/artm44/mychats/data/ChatRepository.kt:132-140 | one more direct message of a page appends its other party to the stream, and the distinct list grows by it exactly when it is new |
| Conversations.DirectOnly | app/src/main/java/com/artm44/mychats/data/ChatRepository.kt:132 | only messages with a recipient that does not contain "@channel" are kept |
| Conversations.IsDirect | app/src/main/java/com/artm44/mychats/data/ChatRepository.kt:132 | a message is direct when it has a recipient that does not contain "@channel" |
| Conversations.OtherParty | app/src/main/java/com/artm44/mychats/data/ChatRepository.kt:135 | the recipient when the user sent the message, else the sender |
| Conversations.Partners | app/src/main/java/com/artm44/mychats/data/ChatRepository.kt:132-135 | the other parties of the direct messages, in stream order, repeats kept |
| Conversations.Distinct | app/src/main/java/com/artm44/mychats/viewmodel/MainViewModel.kt:51 | `distinctBy`: each name at its first occurrence, in order |
| Conversations.DirectChatNames | app/src/main/java/com/artm44/mychats/data/ChatRepository.kt:132-139 | the distinct other parties of a stream, in order of first appearance |
| Conversations.Concerning | app/src/main/java/com/artm44/mychats/data/ChatRepository.kt:50-52 | a message is kept exactly when the name is its sender or recipient |
| Conversations.ConcerningAppend | app/src/main/java/com/artm44/mychats/data/ChatRepository.kt:50-54 | filtering page by page and concatenating equals filtering the concatenation: order is kept |
| Conversations.PartnersAppend | app/src/main/java/com/artm44/mychats/data/ChatRepository.kt:128-142 | partners found page by page, concatenated, are the partners of the whole stream |
| Conversations.PartnersOfDirectOnly | app/src/main/java/com/artm44/mychats/data/ChatRepository.kt:132-135 | filtering out non-direct messages first changes no partner |
| Conversations.PartnersAreOtherParties | app/src/main/java/com/artm44/mychats/viewmodel/MainViewModel.kt:45-48 | a name is a partner exactly when some direct message has it as other party (`to` if the user sent it, else `from`) |
| Conversations.DistinctSameElements | app/src/main/java/com/artm44/mychats/viewmodel/MainViewModel.kt:51 | `distinctBy` keeps every name and invents none |
| Conversations.DistinctHasNoDuplicates | app/src/main/java/com/artm44/mychats/viewmodel/MainViewModel.kt:51 | `distinctBy` leaves no name twice |
| Conversations.DirectChatNamesLayout | app/src/main/java/com/artm44/mychats/viewmodel/MainViewModel.kt:45-51 | the direct chat names of a stream are pairwise distinct, each the other party of a direct message, every such party present, in order of first appearance |
| Conversations.DistinctKeepsFirstSeenOrder | app/src/main/java/com/artm44/mychats/viewmodel/MainViewModel.kt:51 | `distinctBy` lists names in the order of their first occurrence |
| Collections.UpsertAll | app/src/main/java/com/artm44/mychats/roomdb/MessageDAO.kt:26-27 | an insert-or-replace batch leaves exactly the old keys plus the batch's keys |
| Collections.LastWriteWins | app/src/main/java/com/artm44/mychats/roomdb/MessageDAO.kt:26-27 | after a batch, each key holds the last row of the batch with that key |
| Collections.OtherKeysUnchanged | app/src/main/java/com/artm44/mychats/roomdb/ChatDAO.kt:16-17 | rows whose keys the batch does not carry are unchanged, and none appear |
| Collections.UpsertAllAppend | app/src/main/java/com/artm44/mychats/data/ChatRepository.kt:58 | writing one batch after another equals writing their concatenation |
| Collections.UpsertKeepsKeyed | app/src/main/java/com/artm44/mychats/roomdb/MessageDAO.kt:26-27 | every row stays stored under its own primary key |
| MessageDAO.Descending | app/src/main/java/com/artm44/mychats/roomdb/MessageDAO.kt:17 | `ORDER BY id DESC`: the ids, each once, strictly decreasing |
| MessageDAO.Limited | app/src/main/java/com/artm44/mychats/roomdb/MessageDAO.kt:18 | `LIMIT`: a prefix, at most `limit` long, cut only when `limit` is reached; a negative limit keeps all |
| MessageDAO.Slice | app/src/main/java/com/artm44/mychats/roomdb/MessageDAO.kt:13-24 | the rows the limited query returns: the name's rows below the cursor, newest first, cut at `limit` |
| MessageDAO.AllConcerning | app/src/main/java/com/artm44/mychats/roomdb/MessageDAO.kt:10-11 | the rows the unlimited query returns: all the name's rows, newest first |
| MessageDAO.SliceIsDescending | app/src/main/java/com/artm44/mychats/roomdb/MessageDAO.kt:13-24 | the limited query returns stored rows of the name below the cursor, newest first, at most `limit` |
| MessageDAO.SliceSkipsOnlyOlder | app/src/main/java/com/artm44/mychats/roomdb/MessageDAO.kt:13-24 | a qualifying row is left out only when `limit` rows were returned, and then it is older than the last of them |
| MessageDAO.AllConcerningIsComplete | app/src/main/java/com/artm44/mychats/roomdb/MessageDAO.kt:10-11 | the unlimited query returns exactly the stored rows of the name, newest first |
| MessageDAO.MessageDao.constructor | app/src/main/java/com/artm44/mychats/roomdb/MessageEntity.kt:6-8 | a fresh messages table is empty and keyed by id |
| MessageDAO.MessageDao.GetMessagesByName | app/src/main/java/com/artm44/mychats/roomdb/MessageDAO.kt:10-11 | every stored row of the name and only those, strictly descending by id |
| MessageDAO.MessageDao.GetMessagesByNameWithLimit | app/src/main/java/com/artm44/mychats/roomdb/MessageDAO.kt:13-24 | stored rows of the name with id below `lastKnownId`, strictly descending, at most `limit`; a qualifying row is missing only when the result is full and the row is older than its last |
| MessageDAO.MessageDao.InsertMessages | app/src/main/java/com/artm44/mychats/roomdb/MessageDAO.kt:26-27 | the table becomes the old table with each row written under its id in order (replace on conflict) |
| MessageDAO.MessageDao.DeleteOldMessages | app/src/main/java/com/artm44/mychats/roomdb/MessageDAO.kt:29-30 | exactly the old rows whose id is listed remain, unchanged |
| ChatDAO.Without | app/src/main/java/com/artm44/mychats/roomdb/ChatDAO.kt:16-17 | a replaced row leaves storage order: exactly the other names remain, still without repeats |
| ChatDAO.WithoutKeepsOrder | app/src/main/java/com/artm44/mychats/roomdb/ChatDAO.kt:16-17 | the names that remain keep their relative order: every pair left appears in that order before |
| ChatDAO.OrderAfter | app/src/main/java/com/artm44/mychats/roomdb/ChatDAO.kt:16-17 | after a batch, storage order holds the old names and the batch's names |
| Collections.RowsAt | app/src/main/java/com/artm44/mychats/roomdb/ChatDAO.kt:10-11 | the rows stored under the given keys, one per key, in that order |
| ChatDAO.OwnedRowsIn | app/src/main/java/com/artm44/mychats/roomdb/ChatDAO.kt:13-14 | the stored rows with the owner, all of them |
| ChatDAO.ChatDao.constructor | app/src/main/java/com/artm44/mychats/roomdb/ChatEntity.kt:6-8 | a fresh chats table is empty and keyed by name |
| ChatDAO.ChatDao.GetAllChatsOrChannels | app/src/main/java/com/artm44/mychats/roomdb/ChatDAO.kt:10-11 | every stored row, each once |
| ChatDAO.ChatDao.GetMyChats | app/src/main/java/com/artm44/mychats/roomdb/ChatDAO.kt:13-14 | exactly the stored rows owned by the user |
| ChatDAO.ChatDao.Upsert | app/src/main/java/com/artm44/mychats/roomdb/ChatDAO.kt:16-17 | one REPLACE: the row under its name is the new one, now last in storage order |
| ChatDAO.ChatDao.InsertChatsOrChannels | app/src/main/java/com/artm44/mychats/roomdb/ChatDAO.kt:16-17 | each row replaces the row with its name regardless of owner; storage order follows the writes |
| MessageDataAdapter.FromJson | app/src/main/java/com/artm44/mychats/network/MessageDataAdapter.kt:12-25 | a decoded Text came from a "Text" key; a decoded Image came from "Image" with no "Text" and always has a link |
| MessageDataAdapter.ToJson | app/src/main/java/com/artm44/mychats/network/MessageDataAdapter.kt:27-33 | a one-key object: `{"Text": {"text": t}}` or `{"Image": {"link": l}}` |
| MessageDataAdapter.RoundTrip | app/src/main/java/com/artm44/mychats/network/MessageDataAdapter.kt:12-33 | decoding an encoded text, or an image with a link, gives it back |
| MessageDataAdapter.NullLinkDecodesAsEmpty | app/src/main/java/com/artm44/mychats/network/MessageDataAdapter.kt:19-21 | an image without a link comes back with the empty link |
| MessageDataAdapter.TextTakesPriority | app/src/main/java/com/artm44/mychats/network/MessageDataAdapter.kt:14-21 | with both keys present, only a Text or a Text error can result |
| MessageDataAdapter.TextDecoding | app/src/main/java/com/artm44/mychats/network/MessageDataAdapter.kt:15-17 | a null Text object fails with "Missing Text data"; otherwise its "text" value, or "Text field is missing" |
| MessageDataAdapter.ImageDecoding | app/src/main/java/com/artm44/mychats/network/MessageDataAdapter.kt:19-21 | a null Image object fails with "Missing Image data"; otherwise its "link", or "" when absent or null |
| MessageDataAdapter.UnknownTypeRejected | app/src/main/java/com/artm44/mychats/network/MessageDataAdapter.kt:23 | neither key: "Unknown MessageData type" |
| Remote.Raised | app/src/main/java/com/artm44/mychats/data/ChatRepository.kt:38-44 | a 401 becomes the fixed Unauthorized exception, a thrown exception passes through |
| Remote.MinId | app/src/main/java/com/artm44/mychats/data/ChatRepository.kt:56 | the smallest id of a non-empty page, which some message of the page has |
| Strings.IndexOf | app/src/main/java/com/artm44/mychats/viewmodel/AuthViewModel.kt:30 | the first occurrence of the delimiter, or none anywhere |
| Strings.Contains | app/src/main/java/com/artm44/mychats/data/ChatRepository.kt:132 | Kotlin's `contains`: some occurrence exists |
| Strings.SubstringAfter | app/src/main/java/com/artm44/mychats/viewmodel/AuthViewModel.kt:30 | Kotlin's `substringAfter`: what follows the first occurrence, or the whole string |
| Strings.SubstringBefore | app/src/main/java/com/artm44/mychats/viewmodel/AuthViewModel.kt:30 | Kotlin's `substringBefore`: what precedes the first occurrence, or the whole string |
| MainScreen.DirectItems | app/src/main/java/com/artm44/mychats/viewmodel/MainViewModel.kt:47-50 | each partner name becomes a direct item, in order |
| MainScreen.ChannelItems | app/src/main/java/com/artm44/mychats/viewmodel/MainViewModel.kt:54 | each channel name becomes a channel item, in server order |
| MainScreen.ChatItems | app/src/main/java/com/artm44/mychats/viewmodel/MainViewModel.kt:45-54 | the direct items of the inbox followed by the channel items |
| MainScreen.LoadedScreen | app/src/main/java/com/artm44/mychats/viewmodel/MainViewModel.kt:35-59 | the screen state loadChatsAndChannels ends in: the list, or the text of the first exception |
| MainScreen.MessagesRequest | app/src/main/java/com/artm44/mychats/viewmodel/MainViewModel.kt:66-70 | a channel asks for its own feed, a direct chat for the whole inbox |
| MainScreen.LoadedMessages | app/src/main/java/com/artm44/mychats/viewmodel/MainViewModel.kt:65-82 | the messages loadMessagesForChatOrChannel shows |
| MainScreen.ChatItemsLayout | app/src/main/java/com/artm44/mychats/viewmodel/MainViewModel.kt:45-55 | the screen's list satisfies `ItemsShape` |
| MainScreen.ItemsShape | app/src/main/java/com/artm44/mychats/viewmodel/MainViewModel.kt:45-55 | definition of the list's layout: the channels as the suffix; before them direct items with distinct names, each an inbox partner, every partner present, in first-seen order |
| MainScreen.ErrorOnlyWhenThrown | app/src/main/java/com/artm44/mychats/viewmodel/MainViewModel.kt:37-58 | the screen shows an error exactly when a request threw; a failed status reads as an empty list |
| MainScreen.LoadedMessagesOfItem | app/src/main/java/com/artm44/mychats/viewmodel/MainViewModel.kt:63-82 | a direct chat shows exactly the inbox messages it is part of; a channel its whole feed; an exception nothing |
| MainScreen.MainViewModel.constructor | app/src/main/java/com/artm44/mychats/viewmodel/MainViewModel.kt:14-26 | no credentials, `Loading`, nothing selected, no messages |
| MainScreen.MainViewModel.SetCredentials | app/src/main/java/com/artm44/mychats/viewmodel/MainViewModel.kt:28-31 | token and username are set; nothing else changes |
| MainScreen.MainViewModel.LoadChatsAndChannels | app/src/main/java/com/artm44/mychats/viewmodel/MainViewModel.kt:33-61 | the state becomes the list for the current credentials, or the error of the request that threw; nothing else changes |
| MainScreen.MainViewModel.LoadMessagesForChatOrChannel | app/src/main/java/com/artm44/mychats/viewmodel/MainViewModel.kt:63-84 | the messages become those of the item (empty on an exception); nothing else changes |
| MainScreen.MainViewModel.SelectChatOrChannel | app/src/main/java/com/artm44/mychats/viewmodel/MainViewModel.kt:86-93 | the selection becomes the item; its messages are loaded, or cleared when the item is null |
| Auth.LoginRequest | app/src/main/java/com/artm44/mychats/viewmodel/AuthViewModel.kt:46 | the login body has exactly the keys "name" and "pwd" |
| Auth.ExtractPassword | app/src/main/java/com/artm44/mychats/viewmodel/AuthViewModel.kt:30 | the text after the first `password: '` marker, up to the next quote |
| Auth.RegisterOutcome | app/src/main/java/com/artm44/mychats/viewmodel/AuthViewModel.kt:28-36 | the state a registration reply leads to |
| Auth.LoginOutcome | app/src/main/java/com/artm44/mychats/viewmodel/AuthViewModel.kt:51-60 | the state a login reply leads to |
| Auth.ExtractsQuotedPassword | app/src/main/java/com/artm44/mychats/viewmodel/AuthViewModel.kt:30 | a body announcing `password: '<p>'` yields `p` when the announcement is the first one and `p` holds no quote, whatever follows |
| Auth.ExtractWithoutMark | app/src/main/java/com/artm44/mychats/viewmodel/AuthViewModel.kt:30 | without the announcement the body is cut at its first quote, or returned whole if it has none |
| Auth.RegisterOutcomes | app/src/main/java/com/artm44/mychats/viewmodel/AuthViewModel.kt:26-37 | registered exactly on a 2xx reply ("Unknown password" for a null body); a failed status gives "Registration failed: " + reason |
| Auth.LoginOutcomes | app/src/main/java/com/artm44/mychats/viewmodel/AuthViewModel.kt:49-61 | logged in exactly on a 2xx reply with the body as token ("" if null); a failed status gives "Login failed: " + reason |
| Auth.AuthViewModel.constructor | app/src/main/java/com/artm44/mychats/viewmodel/AuthViewModel.kt:15 | the state starts `Idle` |
| Auth.AuthViewModel.Register | app/src/main/java/com/artm44/mychats/viewmodel/AuthViewModel.kt:19-39 | the state becomes the outcome of registering the name (the exception's message, or "Unknown error", when the call throws) |
| Auth.AuthViewModel.Login | app/src/main/java/com/artm44/mychats/viewmodel/AuthViewModel.kt:42-63 | the state becomes the outcome of logging in with that name and password |

## Left out

- Repository.ChatRepository.GetMessagesForChat: requires the server to honour the cursor (only 32-bit ids below it). Without that, the source's `while (true)` need not end, and the model proves nothing about that case.
- Repository.ChatRepository.GetChats: requires the same of the inbox endpoint, for the same reason.
- Repository.ChatRepository.ScanInbox: requires the same of the inbox endpoint, for the same reason.
- Each object's server is one fixed function per endpoint for the object's whole life (`Repository.ChatRepository.api`, `MainScreen.MainViewModel.api`, `Auth.AuthViewModel.api`). Two requests with the same arguments therefore get the same reply, even in separate operations: two identical logins end in the same state, and an inbox request that threw in `LoadChatsAndChannels` throws again in a later direct-chat load. A real server may answer differently from call to call; the model does not capture that.
- The defaults of `getMessagesForChat` (`lastKnownId = Int.MAX_VALUE`, `limit = 20`, `rev = true`) are not modelled: `GetMessagesForChat` takes all three as arguments and its contract holds for every 32-bit `lastKnownId` and every `limit` and `rev`.
- `onUnauthorized` is counted, not run. Its own effects, and an exception it might throw, are not modelled.
- Coroutines, `viewModelScope.launch`, `StateFlow` and cancellation are not modelled. Each call runs to completion in order, and a state flow is a plain field.
- Exceptions thrown by Room itself (disk, schema) are not modelled, and neither are exceptions from `toEntity`.
- `toEntity` is not part of this model. It is a constructor parameter of the repository, and nothing is assumed about it.
- ChatDAO.ChatDao.GetAllChatsOrChannels: the order of rows without `ORDER BY` is modelled as insertion order (a replaced row moves to the end). SQLite does not promise this order. The contracts of `ChatDAO.ChatDao.GetAllChatsOrChannels` and `ChatDAO.ChatDao.GetMyChats` state membership only. These contracts do pin the modelled order: `ChatDAO.ChatDao.Upsert` and `ChatDAO.ChatDao.InsertChatsOrChannels` (the new `order`), `Repository.ChatRepository.UpdateLocalChats` and `Repository.ChatRepository.GetChats` (the table's `order`, and the fallback list, whose order is that of `GetMyChats`'s definition). What those contracts say about rows and membership does not depend on it.
- Moshi's parsing of JSON text is not modelled. The adapter works on the nested maps Moshi hands it, with JSON `null` as `None`.
- `Log.d` calls are not modelled.
- `logoutUser`, `MainActivity`, the view-model factories, `RetrofitInstance`, `PlainTextToLoginResponseAdapter` and `FullScreenImageActivity` are not part of this model.
- AuthViewModel.kt:23 builds a request map that is never sent. Registration sends the bare name, as modelled.
