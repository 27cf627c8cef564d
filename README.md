# Campus Connect in Dafny

Campus Connect is a campus marketplace and chat application. A Node/Express server
keeps users, listings and messages in JSON files and relays chat messages
over Socket.IO. Browser pages post listings, sign users up and chat.

This project models the bookkeeping between the file reads and the socket
and DOM calls, and proves properties of it:

- **Server** (`server/server.js`):
  - the JIIT email-domain rule;
  - login and signup over the user directory;
  - the category/search filter of the listings route and listing creation;
  - the thread query between two users and the conversation list of one user;
  - the `onlineUsers` presence registry;
  - the `send_message` handler.
- **Browser pages**:
  - the chat page's state and handlers;
  - the signup form's checks and request body;
  - the marketplace filter and card rendering.

Each JSON file is a sequence passed in and returned. Things outside the model become parameters:

- the clock (`Date.now()`, `toISOString()`, the date shown for old messages, today's date);
- the outcome of a file read/write (`storageOk`);
- the text of form fields.

Events emitted and requests made are returned as values.

Files, one module each:

| file | contents |
|---|---|
| `Wrappers.dfy` | `Option` (a value that may be `undefined`/`null`) and `Reply` (a JSON reply or an error status with its message) |
| `Seqs.dfy` | `Array.prototype.filter` and `find` with their laws: order-preserving subsequence, membership, multiplicity, filter fusion, last match |
| `Text.dfy` | ASCII `toLowerCase`/`toUpperCase`, `endsWith`, `includes`, JavaScript `trim`, decimal rendering of a whole number |
| `Accounts.dfy` | domain rule, login, signup |
| `Listings.dfy` | listing filter and listing creation |
| `Messages.dfy` | the message store, the pair thread, the conversation aggregator with its scanning loop |
| `Presence.dfy` | the `onlineUsers` registry as a class over a map |
| `Realtime.dfy` | `send_message` as a method returning the new store and the emitted events |
| `ChatClient.dfy` | chat page: view class, submit guard, thread rendering, `formatTime` |
| `SignupClient.dfy` | signup page: intent tabs, validator, request body |
| `MarketplaceClient.dfy` | marketplace page: view class, filter, preview, cards |

The model follows the code throughout. These behaviours come from the code
rather than from any description of the application:

- A listing request that carries its own `id` keeps that id. The spread comes after `id: listings.length + 1`.
- A missing seller makes `seller.name` throw. The route answers 500 "Server error" and stores nothing.
- `disconnect` deletes only the least-keyed entry pointing at the closing socket. Integer keys are visited in ascending order, and the loop stops at the first match.
- The chat submit guard `!activeConversationUserId` treats user id `0` like no conversation.
- The marketplace page filters by the tab's category unless the tab is 'All'. For an empty category the two differ: the server keeps every listing, and the page keeps only the listings whose category is empty. `MarketplaceClient.VisibleMatchesServer` is stated for non-empty tabs only.
- `message_sent` appends to the open thread whichever conversation is open.
- Chatting with oneself is reachable: "Contact Seller" on one's own listing opens a chat with the current user. Each message then reaches the page twice, as `receive_message` and as `message_sent`, and is displayed twice, first as received and then as sent. A reload shows it once, as sent. `ChatClient.SelfChatDiverges` states this; `ChatClient.ThreadStaysInSync` holds for two distinct users only.

## Model

| member | source | states |
|---|---|---|
| `Seqs.FilterSpec` | server/server.js:366-369 | `filter` keeps an order-preserving subsequence holding exactly the elements that satisfy the predicate, each as often as in the input |
| `Seqs.FilterFilter` | server/server.js:252-262 | two filters in a row equal one filter by the conjunction |
| `Seqs.FindFirst` | server/server.js:177 | `find` gives the first index satisfying the predicate, and nothing exactly when no element does |
| `Seqs.FilterLast` | server/server.js:395-399 | the last element of a filtered sequence is the last element of the input that satisfies the predicate; the filter is empty exactly when none does |
| `Text.Lower` | server/server.js:166 | lowercasing keeps the length and maps every ASCII capital to its small letter, leaving other characters alone |
| `Text.LowerIdempotent` | server/server.js:166 | lowercasing a lowercased string changes nothing |
| `Text.IncludesIffOccurs` | server/server.js:260-261 | `includes` holds exactly when the term occurs at some position of the text |
| `Text.Trim` | public/js/chat.js:155 | the trimmed text is a contiguous middle part of the input; everything dropped before and after it is whitespace, and it has no whitespace at either end |
| `Text.TrimIdempotent` | public/js/chat.js:155 | trimming a trimmed text changes nothing |
| `Text.TrimEmpty` | public/js/chat.js:155-157 | the trimmed text is empty exactly when every character is JavaScript whitespace |
| `Text.NatToStringRoundTrip` | public/js/chat.js:242 | the digits printed for a whole number read back as that number |
| `Accounts.JiitEmailIgnoresCase` | server/server.js:166-169 | the domain rule accepts an address exactly when it accepts its lowercased form |
| `Accounts.Login` | server/server.js:163-185 | a non-JIIT address is refused with 401 and the domain message before any lookup; otherwise login succeeds exactly when some user has the email up to case and the exact password, returns that first user without the password, and else refuses with 401 "Invalid credentials" |
| `Accounts.OrDefault` | server/server.js:221-223 | the JavaScript `or` default gives the value when it is a non-empty string and the fallback otherwise |
| `Accounts.AvatarOf` | server/server.js:220 | the avatar is the uppercased first character of the name, or empty for an empty name |
| `Accounts.Signup` | server/server.js:193-232 | a non-JIIT address gets 400 with the domain message; an email taken up to case gets 400 "Email already exists"; both leave the directory unchanged. Otherwise exactly one user is appended, the earlier users are unchanged, and the new user has id length + 1, the lowercased email, rating 0, the avatar, intent defaulting to 'buy', year/branch defaulting to empty and courses to none; the reply is that user without the password |
| `Accounts.SignupThenLogin` | server/server.js:177-182 | after a successful signup, logging in with the same email and password returns exactly what signup returned |
| `Accounts.SignupKeepsEmailsUnique` | server/server.js:209-227 | signup keeps the emails of the directory unique up to case |
| `Accounts.SignupKeepsIdsSequential` | server/server.js:215-227 | signup keeps user k at id k + 1, so the computed id never repeats |
| `Listings.FilterListings` | server/server.js:249-263 | the route returns an order-preserving subsequence holding every listing that matches the category (when one other than 'All' is given) and the lowercased search term in the lowercased title or description (when a term is given), as often as stored, and nothing else |
| `Listings.TwoPassesSelect` | server/server.js:252-262 | the category pass followed by the search pass keeps exactly the listings satisfying both conditions |
| `Listings.FilterKeepsAll` | server/server.js:249 | a pass whose condition always holds keeps every listing |
| `Listings.NoFilterKeepsAll` | server/server.js:249-263 | with no category or 'All' and no or an empty search term, every listing is returned in order |
| `Listings.CreateListing` | server/server.js:290-316 | an unknown seller gets 500 "Server error" and nothing is stored; a known seller always succeeds, and the listing is appended with status 'active', today's date, the body's id or else length + 1, the body's fields, and name, rating and avatar from the first directory entry with the seller id |
| `Listings.CreateIgnoresBodyOverrides` | server/server.js:299-307 | seller name, rating, avatar, status and date in the body make no difference to the listing created |
| `Messages.PairQuery` | server/server.js:366-369 | the thread is an order-preserving subsequence of the store holding every message sent either way between the two users, as often as stored, and nothing else |
| `Messages.PairQuerySymmetric` | server/server.js:366-369 | the thread is the same whichever of the two users asks |
| `Messages.PairQueryAppend` | server/server.js:366-369 | appending a message to the store extends a thread by it exactly when it is between the thread's two users |
| `Messages.FirstContact` | server/server.js:386-390 | the index of the first message between two users, or the store length when there is none |
| `Messages.StepAddsCounterpart` | server/server.js:388-389 | one scanning step adds the other party of the message, if new and if the user is a party, and nothing else |
| `Messages.AddCounterpart` | server/server.js:387-390 | the two `if`s of the `forEach` body perform exactly one scanning step on the set built so far |
| `Messages.Counterparts` | server/server.js:386-390 | the set holds no id twice and holds an id exactly when the user exchanged a message with it |
| `Messages.CounterpartsInFirstContactOrder` | server/server.js:386-393 | the ids come in the order of each one's first message with the user, not by recency |
| `Messages.CollectCounterparts` | server/server.js:386-390 | the `forEach` loop builds exactly the counterpart set |
| `Messages.Conversations` | server/server.js:393-408 | one summary per counterpart, in counterpart order |
| `Messages.ConversationsFor` | server/server.js:386-408 | the route body (scan loop, then one summary per id) returns the conversation list |
| `Messages.ConversationsOnePerCounterpart` | server/server.js:386-408 | no counterpart appears twice; a user appears exactly when they exchanged a message with the asker; the summaries are ordered by first contact |
| `Messages.ConversationLastMessage` | server/server.js:395-406 | each summary carries the text and timestamp of the last message between the two users in store order |
| `Messages.ConversationDirectoryLookup` | server/server.js:394-404 | name and avatar come from the first directory entry with the counterpart's id; an unknown counterpart has neither |
| `Presence.Disconnected` | server/server.js:472-478 | the registry after a disconnect loses exactly the least-keyed entry pointing at the socket, if any, and keeps every other entry unchanged |
| `Presence.PresenceRegistry.constructor` | server/server.js:422 | the registry starts empty |
| `Presence.PresenceRegistry.Lookup` | server/server.js:454-455 | a lookup finds a socket exactly when the user has an entry, and it is that entry |
| `Presence.PresenceRegistry.UserOnline` | server/server.js:428-431 | an announcement overwrites the user's entry and changes no other |
| `Presence.PresenceRegistry.Disconnect` | server/server.js:470-479 | the `for…in` scan with `delete` and `break` leaves the registry as `Disconnected` describes |
| `Presence.ReannounceThenDisconnect` | server/server.js:428-478 | the last announcement wins, and disconnecting its socket leaves the user offline |
| `Presence.DisconnectStaleSocket` | server/server.js:472-478 | closing a socket no entry points at changes nothing |
| `Realtime.NewMessage` | server/server.js:439-446 | the stored record carries the payload's sender, receiver and text, the given id and timestamp, and is unread |
| `Realtime.SendMessage` | server/server.js:434-467 | a missing payload or a storage failure emits only `message_error` to the sender and leaves the store unchanged; otherwise one record is appended after the unchanged earlier ones, `receive_message` goes to the receiver's socket exactly when the registry has the receiver, and `message_sent` to the sender always comes last |
| `Realtime.SendExtendsThread` | server/server.js:449-451 | a send extends the thread between sender and receiver by exactly the new record and leaves every other thread unchanged |
| `Realtime.SendEvents` | server/server.js:454-460 | the acknowledgement is last; there is a delivery exactly when the receiver is registered, to its current socket, carrying the same record; no error is emitted |
| `Realtime.SendOpensConversation` | server/server.js:449-451 | after a send, sender and receiver are among each other's conversations |
| `ChatClient.SubmitDecision` | public/js/chat.js:155-164 | a message is sent exactly when a conversation with a truthy id is open and the box holds a non-whitespace character; the payload is the current user, the active id and the trimmed, non-empty text |
| `ChatClient.SubmittedTextIsTrimmed` | public/js/chat.js:155 | the text sent has no whitespace at either end and trimming it again changes nothing |
| `ChatClient.RenderThread` | public/js/chat.js:131-142 | the displayed thread has the loaded messages in server order, each marked sent exactly when the current user sent it |
| `ChatClient.RenderThreadAppend` | public/js/chat.js:214-224 | rendering a longer thread renders the extra message at the end |
| `ChatClient.RenderedPairThread` | public/js/chat.js:131-135 | in the thread with a user, received bubbles are from that user to the current user and sent bubbles the other way; in a thread with oneself every bubble is sent |
| `ChatClient.ChatView.constructor` | public/js/chat.js:21-22 | no conversation is open and nothing is loaded |
| `ChatClient.ChatView.ConversationsLoaded` | public/js/chat.js:37-43 | the loaded list replaces the conversations and nothing else changes |
| `ChatClient.ChatView.OpenChat` | public/js/chat.js:84-99 | the conversation becomes active and its thread is then requested |
| `ChatClient.ChatView.ThreadLoaded` | public/js/chat.js:105-142 | the loaded thread replaces the displayed one, classified |
| `ChatClient.ChatView.Submit` | public/js/chat.js:151-168 | the handler emits what the send guard decides, and the box is cleared exactly when something was emitted |
| `ChatClient.ChatView.OnMessageSent` | public/js/chat.js:175-179 | the acknowledged message is appended as sent |
| `ChatClient.ChatView.OnReceiveMessage` | public/js/chat.js:182-192 | the message is appended as received exactly when its sender is the open conversation; the conversation list is requested in every case |
| `ChatClient.ThreadStaysInSync` | public/js/chat.js:175-192 | between two distinct users, a delivered or acknowledged message for the open thread appends what reloading the thread would render |
| `ChatClient.SelfChatDiverges` | public/js/chat.js:175-192 | in a chat with oneself, reloading adds the message once, as sent, while the two handlers append it as received and then as sent |
| `ChatClient.FormatTime` | public/js/chat.js:235-251 | 'Just now' below a minute (also for a negative elapsed time); 'Nm ago' with N the whole minutes, 1..59, below an hour; 'Nh ago' with N the whole hours, 1..23, below a day; 'Nd ago' with N the whole days, 1..6, below a week; otherwise the date string |
| `ChatClient.FormatTimeReadsBack` | public/js/chat.js:241-248 | the number in a relative label reads back as the elapsed whole minutes, hours or days, and the unit matches the range |
| `SignupClient.Validate` | public/js/signup.js:15-48 | the email check on the trimmed, lowercased address fires exactly when the server's domain rule refuses the trimmed address; the password check fires only after it passes, exactly when the password is shorter than 6; otherwise the body has the trimmed name, the trimmed lowercased email, the password unaltered and the chosen intent, year, branch and courses |
| `SignupClient.ClientAcceptedEmailPassesServer` | public/js/signup.js:29-32 | an email the page lets through also passes the server's domain rule and is stored as sent |
| `SignupClient.ClientSignupStoresChoices` | public/js/signup.js:40-48 | when the server accepts the page's request, the account holds the trimmed name, the email as sent, the typed password and the chosen intent, with an empty intent falling back to 'buy' |
| `SignupClient.SignupForm.constructor` | public/js/signup.js:3 | the intent starts as 'buy' |
| `SignupClient.SignupForm.ClickIntentTab` | public/js/signup.js:6-11 | the intent becomes the last clicked tab's intent |
| `SignupClient.SignupForm.Submit` | public/js/signup.js:15-48 | the submit handler validates with the current intent, which the body carries |
| `MarketplaceClient.TwoPassesShow` | public/js/marketplace.js:29-41 | the category pass and the search pass together keep exactly the listings shown |
| `MarketplaceClient.VisibleListingsSpec` | public/js/marketplace.js:29-41 | the page keeps an order-preserving subsequence of the loaded listings: all of the tab's category unless the tab is 'All', matching the lowercased search text unless it is empty, as often as loaded, and nothing else |
| `MarketplaceClient.VisibleMatchesServer` | public/js/marketplace.js:31-41 | for a non-empty tab the page shows what the listings route returns for the same category and search text |
| `MarketplaceClient.AllTabShowsEverything` | public/js/marketplace.js:31-36 | the 'All' tab with an empty box shows every listing |
| `MarketplaceClient.Preview` | public/js/marketplace.js:57 | a description of at most 100 characters is shown whole; a longer one as its first 100 characters followed by '...' |
| `MarketplaceClient.CardOf` | public/js/marketplace.js:51-57 | the SOLD overlay shows exactly when the status is 'sold', the urgency tag exactly when the urgency is not 'Low Urgency', with the lowercased type as badge class and the preview |
| `MarketplaceClient.RenderListings` | public/js/marketplace.js:43-91 | "No listings found" exactly when nothing is visible, else one card per visible listing in order |
| `MarketplaceClient.CardShownIff` | public/js/marketplace.js:43-91 | a card is shown for a listing exactly when it was loaded and passes the tab and the search box |
| `MarketplaceClient.MarketplaceView.constructor` | public/js/marketplace.js:11-12 | nothing is loaded and the 'All' tab is selected |
| `MarketplaceClient.MarketplaceView.ListingsLoaded` | public/js/marketplace.js:15-21 | the loaded listings replace the old ones, the tab is kept, and the grid is rendered for them |
| `MarketplaceClient.MarketplaceView.ClickCategoryTab` | public/js/marketplace.js:95-101 | the tab's category becomes current, the listings are kept, and the grid is rendered for it |
| `MarketplaceClient.MarketplaceView.SearchInput` | public/js/marketplace.js:105 | typing re-renders for the current tab and listings without changing them |

## Left out

- File I/O is outside the model: `readJSON`, `writeJSON` and the seeding in `initializeData`. The JSON files are sequences passed in and returned. For `send_message` a failed read or write is the input `storageOk`.
- The 500 "Server error" replies of login and signup when a read or write throws are left out. A request missing `email` throws into that reply straight away (server/server.js:166, 198). A signup missing `name` throws there only once the domain check and the duplicate check have passed (server/server.js:220); a non-JIIT or taken email still gets its 400. The model's request types always have both fields.
- A `send_message` payload missing `receiverId` or `message` does not throw: the record is stored without that field and acknowledged. `SendPayload` always carries all three fields, so the model does not cover this.
- Express routing, CORS, static files and the Socket.IO transport are left out. Replies, emitted events and requests are returned as values.
- The lost-write race between concurrent `send_message` read-modify-write cycles is left out. Handlers are modelled one at a time.
- The clock is a set of inputs: `Date.now()` as the message id, `toISOString()` as the timestamp, today's date for a new listing, and `toLocaleDateString()` as a string. `FormatTime` takes the elapsed milliseconds, not the two dates.
- `FormatTime` does not model an invalid timestamp, whose elapsed time is NaN and which shows the date string.
- DOM work is left out: HTML building, `escapeHtml`, scrolling, placeholders, alerts, redirects, `localStorage`, and the active highlight in `renderConversations`.
- public/js/detail.js, profile.js, create-post.js and login.js are fetch-and-render glue with no further rules. The single-listing, user and user-listings routes of server/server.js are left out for the same reason.
- Fetch replies that arrive out of order are not modelled. Each arrival is the next method call on the view.
- `parseInt` of route parameters is not modelled: ids are integers. Ratings and prices are `real` values that are only copied.
- `Text.Lower`: the case mapping is ASCII only. JavaScript's `toLowerCase`/`toUpperCase` also map non-ASCII letters.
- `Accounts.AvatarOf`: a character counts as one code point. `charAt(0)` takes one UTF-16 unit, so for a name whose first character lies outside the Basic Multilingual Plane the code stores half a surrogate pair as the avatar, and the model the whole character.
- `MarketplaceClient.Preview`: lengths and the 100-character cut count code points. JavaScript counts UTF-16 units, and so does the six-character password minimum in `SignupClient.Validate`.
- `Presence.Disconnected`: the registry is keyed by integers and visited in ascending order. JavaScript's `for…in` puts only array-index keys first in ascending order. Keys that are not array indices (negative, non-integer, or at least 2^32 − 1) follow in insertion order, and the model does not capture that.
- Listing fields beyond those the rules touch (for example related courses) are left out. So is the order of keys in the JSON written.
- Password hashing and authentication hardening are not modelled. The code has none.
