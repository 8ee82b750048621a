# R Network client core, modelled in Dafny

This project models the core of the R Network web client, a small social network written in
TypeScript that keeps all of its data in the browser's local storage. The heart of it is the
`AuthContext` provider. It holds the session user, the peer of the open chat, and the stored
collections: users, posts, videos, notifications, chat messages, chat rooms, stories and video
bookmarks. Its operations read a collection, rewrite it with map, filter or append, and write
it back. Around it sit the screens and cards, which derive what they show from those
collections and call the provider's operations.

The model is split by the source's own files:

- `auth_context.dfy` (module `AuthContext`) has two layers.
  - A pure `State` with one step function per operation (`FollowStep`, `LikeStep`,
    `CommentStep`, `PostStep`, `VideoStep`, `LoginStep`, `SignUpStep`, `ProfileStep`, …).
    The lemmas speak about these functions.
  - The class `Store`, whose fields are the stored collections. Each of its methods performs
    the update field by field and is proved to end in exactly the state the step function
    gives, with exactly the alerts it gives.
- `chat_list.dfy`, `chat_room.dfy`, `chat_service.dfy`, `discover_screen.dfy`,
  `navigation_bar.dfy`, `notifications_screen.dfy`, `post_card.dfy`, `post_creation_box.dfy`,
  `profile_page.dfy`, `story_section.dfy` and `watch_screen.dfy` model one component each. Pure
  derivations become functions. Handlers that change the store become methods on `Store`,
  specified against the step functions.
- Library modules:
  - `types.dfy` holds the records of `types.ts`.
  - `text.dfy` holds the JavaScript string operations the client uses: `trim`, ASCII case
    mapping, `includes`, `split`, `substring`, `String(n)`, `encodeURIComponent`, and the
    UTF-16 order of the default `sort`.
  - `seqs.dfy` and `sorting.dfy` hold filter, map, find and counting, and a sort specified by
    sortedness and permutation.
  - `wrappers.dfy` holds `Option` and `Result`.

Clocks, random identifiers and the answers of the AI service are parameters (`now`, `noteId`,
`msgId`, `idSuffix`, `Moderation`). The browser's notification permission is the `permitted`
field of the store. An alert the client would show is returned as a value of type `Alert`.

Two behaviours of the code are modelled as written:

- `login` and `signUp` compare e-mails with `u.email.toLowerCase()`. A stored record without an
  e-mail therefore makes the scan throw. `ScanEmails` reports this as `Broken`, and both
  operations fail with `RecordWithoutEmail`.
- `createPost` does not check its content. `PostStep` appends whatever it is given. The
  emptiness check lives in the composer (`PostDecision`).

## Model

| member | source | states |
|---|---|---|
| AuthContext.Boot | context/AuthContext.tsx:40-85 | There is a session exactly when the stored session marker decodes, and then it is the decoded user. An empty video list is replaced by the single seed video; otherwise the stored videos are kept. No chat is active at start. |
| AuthContext.Store.Restore | context/AuthContext.tsx:40-85 | Start-up restores exactly the state `Boot` describes. |
| AuthContext.Feed | context/AuthContext.tsx:58-62 | The feed is the stored posts newest first, keyed by `timestamp` with a missing one read as 0. It is a permutation of the stored posts. |
| AuthContext.FindUser | context/AuthContext.tsx:150-155 | The result is absent iff no record has the id. Otherwise it is the first record with that id. |
| AuthContext.FindUserMapped | context/AuthContext.tsx:199-213 | After every record is rewritten by an id-preserving callback, looking up an id finds the rewritten first match. This is how `toggleFollow` re-reads the session user. |
| AuthContext.Toggled | context/AuthContext.tsx:199-209 | The toggled id list holds `x` iff it did not before, and every other id is held as before. |
| AuthContext.ApplyFollow | context/AuthContext.tsx:199-209 | Only the actor's `following` and the target's `followers` change. The target is in the actor's list iff it was not before. The actor is in the target's list iff it was not before. |
| AuthContext.FollowKeepsMutual | context/AuthContext.tsx:199-209 | A follow or an unfollow keeps the follow graph two-sided: a user lists another as followed iff the other lists the first as follower. |
| AuthContext.Created | context/AuthContext.tsx:125-132 | A created notification is unread, stamped with `now`, and keeps the addressee and the kind. |
| AuthContext.AlertFor | context/AuthContext.tsx:133-139 | The alert is titled "R Network Update", and its body is the sender's name followed by the kind's phrase. |
| AuthContext.Raise | context/AuthContext.tsx:107-114 | A local alert is shown iff the browser permits it. |
| AuthContext.Deliver | context/AuthContext.tsx:125-141 | A notification addressed to the session user changes nothing and raises nothing. Any other is prepended unread, and its alert is raised when permitted. Nothing else in the state changes. |
| AuthContext.DeliverAll | context/AuthContext.tsx:125-141 | One `createNotification` call per draft, in order. `DeliverAllExact` states its result and `DeliverAllPrepends` its shape. |
| AuthContext.Delivered | context/AuthContext.tsx:125-141 | The notifications a run of calls adds, newest first. There is at most one per draft, and each is unread and not addressed to the session user. |
| AuthContext.DeliveredAlerts | context/AuthContext.tsx:125-141 | The alerts a run of calls raises. There are none when alerts are not permitted, and at most one per draft. |
| AuthContext.DeliverAllExact | context/AuthContext.tsx:125-141 | Delivering drafts one by one prepends exactly `Delivered` to the old list and raises exactly `DeliveredAlerts`. Nothing else in the state changes. |
| AuthContext.DeliverAllPrepends | context/AuthContext.tsx:125-141 | Delivering a list of drafts only prepends notifications, at most one per draft. Every new one is unread and not addressed to the session user. The old list survives as the tail. |
| AuthContext.DeliverAllSelfAddressed | context/AuthContext.tsx:126-128 | Drafts all addressed to the session user create nothing and raise nothing. |
| AuthContext.Store.CreateNotification | context/AuthContext.tsx:125-141 | The method ends in the state `Deliver` gives and returns its alerts. |
| AuthContext.Store.CreateNotifications | context/AuthContext.tsx:125-141 | A loop of `createNotification` calls ends in the state `DeliverAll` gives, with its alerts in order. |
| AuthContext.MarkAllRead | context/AuthContext.tsx:143-148 | Every stored notification, for whichever user, becomes read, and nothing else about it changes. |
| AuthContext.MarkAllReadIdempotent | context/AuthContext.tsx:143-148 | Marking everything read twice is marking it read once. |
| AuthContext.Store.MarkNotificationsAsRead | context/AuthContext.tsx:143-148 | Only the notification list changes, and it becomes `MarkAllRead` of the old one. |
| AuthContext.PushAlerts | context/AuthContext.tsx:116-123 | An alert is raised iff the target is a known user, the alert is not a chat alert from the peer of the open chat to the session user, and alerts are permitted. The alert raised is the one given. |
| AuthContext.PushToOthersNotSuppressed | context/AuthContext.tsx:116-123 | An alert for a known user other than the session user is always raised when permitted. |
| AuthContext.FollowStep | context/AuthContext.tsx:195-223 | There is no effect without a session or on oneself. Only users, session and notifications change. An unfollow adds no notification. A follow prepends exactly one unread follow notification from the actor to the target. |
| AuthContext.FollowStepFlipsFollowing | context/AuthContext.tsx:195-213 | When the session copy matches the store, each toggle flips whether the session user follows the target. |
| AuthContext.FollowStepKeepsMutual | context/AuthContext.tsx:195-223 | `toggleFollow` keeps the follow graph two-sided. |
| AuthContext.FollowUnfollowRestores | context/AuthContext.tsx:199-209 | When both lists are present, a follow then an unfollow restores every user record. |
| AuthContext.FollowStepStarts | context/AuthContext.tsx:195-223 | A follow by an in-sync session user gives exactly the updated users, the re-read session record and one prepended follow notification. |
| AuthContext.FollowStepStops | context/AuthContext.tsx:195-213 | An unfollow gives exactly the updated users and the re-read session, with no notification. |
| AuthContext.FollowTwiceRestores | context/AuthContext.tsx:195-223 | A follow then an unfollow restores the users and the session. Only the follow notification remains. |
| AuthContext.Store.ToggleFollow | context/AuthContext.tsx:195-223 | The method ends in the state `FollowStep` gives and returns its alerts. |
| AuthContext.ApplyLike | context/AuthContext.tsx:228-246 | Every post with the id has the actor's like flipped and `likes` recounted from `likedBy`. Other posts are untouched. Consistent like counts stay consistent. |
| AuthContext.LikeTwiceRestores | context/AuthContext.tsx:228-246 | A like then an unlike by someone who had not liked restores the posts exactly. |
| AuthContext.LikeDrafts | context/AuthContext.tsx:237-244 | One like draft, addressed to the post's owner, for each matching post the actor had not liked. `LikeNotifiesOwner` and `UnlikeSilent` state its effect. |
| AuthContext.LikeStep | context/AuthContext.tsx:225-249 | There is no effect without a session. The posts become `ApplyLike`. Only notifications are added, each unread and not addressed to the session user, with the old list kept as the tail. `LikeNotifiesOwner` and `UnlikeSilent` state who is notified. |
| AuthContext.LikeOwnPostSilent | context/AuthContext.tsx:237-244 | Liking one's own post creates no notification and raises no alert. |
| AuthContext.LikeNotifiesOwner | context/AuthContext.tsx:225-249 | Liking another user's post that the actor had not liked prepends exactly one unread like notification to the owner. It raises exactly that notification's alert. |
| AuthContext.UnlikeSilent | context/AuthContext.tsx:231-244 | An unlike creates no notification and raises no alert. |
| AuthContext.LikeStepTwiceRestores | context/AuthContext.tsx:225-249 | Two toggles with nothing in between restore the stored posts. |
| AuthContext.Store.ToggleLike | context/AuthContext.tsx:225-249 | The method ends in the state `LikeStep` gives and returns its alerts. |
| AuthContext.Commented | context/AuthContext.tsx:251-271 | Every post with the id has the comment appended and is otherwise unchanged. Other posts are untouched. |
| AuthContext.CommentDrafts | context/AuthContext.tsx:262-264 | One comment draft, addressed to the post's owner, for each matching post. `CommentNotifiesOwner` states its effect. |
| AuthContext.CommentStep | context/AuthContext.tsx:251-271 | There is no effect without a session or with blank text. Otherwise the comment, with the text kept untrimmed, is appended to each matching post. Every new notification is unread and not self-addressed, and the old list is kept as the tail. `CommentNotifiesOwner` states who is notified. |
| AuthContext.CommentOwnPostSilent | context/AuthContext.tsx:251-271 | Commenting on one's own post creates no notification and raises no alert. |
| AuthContext.CommentNotifiesOwner | context/AuthContext.tsx:251-270 | A non-blank comment on another user's post prepends exactly one unread comment notification to the owner. It raises exactly that notification's alert. |
| AuthContext.Store.AddComment | context/AuthContext.tsx:251-271 | The method ends in the state `CommentStep` gives and returns its alerts. |
| AuthContext.ViewStep | context/AuthContext.tsx:273-278 | Every post with the id gets its view count, missing read as 0, raised by one. Nothing else changes. |
| AuthContext.Store.RecordView | context/AuthContext.tsx:273-278 | Only the posts change, and they become `ViewStep` of the old ones. |
| AuthContext.NewPost | context/AuthContext.tsx:280-287 | A new post has no likes and no comments. |
| AuthContext.PostStep | context/AuthContext.tsx:280-287 | There is no effect without a session. Otherwise the new post is appended to the stored list, and nothing else changes. |
| AuthContext.CreatedPostLeadsFeed | context/AuthContext.tsx:58-62 | A post created later than every stored post heads the feed. |
| AuthContext.Store.CreatePost | context/AuthContext.tsx:280-287 | The method ends in the state `PostStep` gives. |
| AuthContext.NewVideo | context/AuthContext.tsx:87-100 | The new video keeps the draft's title, URL and thumbnail. It is authored by the session user, has zero views, and has id `vid_<now>`. |
| AuthContext.VideoStep | context/AuthContext.tsx:87-100 | There is no effect without a session. Otherwise exactly `NewVideo` of the draft, authored by the session user, is prepended: the draft's title, URL, thumbnail and description, with the `vid_<now>` id. Nothing else changes. |
| AuthContext.Store.CreateVideo | context/AuthContext.tsx:87-100 | The method ends in the state `VideoStep` gives. |
| AuthContext.ScanEmails | context/AuthContext.tsx:161 | The front-to-back scan reports one of three things. It reports the first record whose e-mail equals the given one ignoring ASCII case, or the first record without an e-mail, each preceded only by non-matching records with an e-mail. Otherwise it reports no match, which happens iff every record has a non-matching e-mail. |
| AuthContext.LoginResult | context/AuthContext.tsx:157-170 | The first record whose e-mail matches decides. With the right password the result is that record, otherwise invalid credentials. No matching e-mail means invalid credentials. A record without an e-mail before any match gives the no-e-mail error. A success is always a stored record with the same e-mail and password. |
| AuthContext.LoginStep | context/AuthContext.tsx:157-170 | A success sets the session to the found record. A failure changes nothing. |
| AuthContext.Store.Login | context/AuthContext.tsx:157-170 | The method returns `LoginResult` and ends in the state `LoginStep` gives. |
| AuthContext.NewAccount | context/AuthContext.tsx:178-183 | A new account has empty follower and following lists and carries the given e-mail and password. |
| AuthContext.SignUpResult | context/AuthContext.tsx:172-188 | A duplicate is reported iff some record's e-mail matches. Sign-up succeeds iff every record has a non-matching e-mail, and it then creates exactly `NewAccount`. |
| AuthContext.SignUpStep | context/AuthContext.tsx:172-188 | A success appends the account and makes it the session. A failure changes nothing. |
| AuthContext.SignUpThenLogin | context/AuthContext.tsx:157-188 | After a successful sign-up, logging in with the same e-mail in any ASCII case and the same password finds the new account. |
| AuthContext.SignUpTwiceRefused | context/AuthContext.tsx:172-188 | A second sign-up with the same e-mail, in any ASCII case, is refused as a duplicate. |
| AuthContext.Store.SignUp | context/AuthContext.tsx:172-188 | The method returns `SignUpResult` and ends in the state `SignUpStep` gives. |
| AuthContext.Store.Logout | context/AuthContext.tsx:190-193 | Only the session changes, and it becomes absent. |
| AuthContext.Merge | context/AuthContext.tsx:289-298 | The spread merge replaces exactly the fields the update carries and keeps every other field. |
| AuthContext.EditedProfile | components/EditProfileScreen.tsx:25-33 | The editor sends the three text fields, and the picked picture or else the current one. |
| AuthContext.ProfileStep | context/AuthContext.tsx:289-298 | There is no effect without a session. The session copy and the session user's stored record are each merged. Every other record is untouched. |
| AuthContext.ProfileStepKeepsSessionInSync | context/AuthContext.tsx:289-298 | A session copy equal to its stored record stays equal after a profile update. |
| AuthContext.Store.UpdateProfile | context/AuthContext.tsx:289-298 | The method ends in the state `ProfileStep` gives. |
| AuthContext.Store.SetActiveChatRecipient | context/AuthContext.tsx:38 | Only the active chat peer changes. |
| ChatList.GroupLatestCorrect | components/ChatList.tsx:24-32 | The grouping map has one entry per peer. Each entry holds the earliest of the latest messages with that peer, and every peer the session user exchanged a message with has an entry. |
| ChatList.GroupLatest | components/ChatList.tsx:24-32 | The grouping map after the loop. `GroupLatestCorrect` proves it correct: one entry per peer, the earliest of the latest messages, and every peer present. |
| ChatList.GroupConversations | components/ChatList.tsx:21-32 | The `forEach` loop computes the grouping `GroupLatest` describes, and the grouping is correct. |
| ChatList.Resolved | components/ChatList.tsx:34-37 | Only entries whose peer resolves become rows, each holding the resolved record and the kept message. Every resolvable entry becomes a row. |
| ChatList.ResolvedDistinct | components/ChatList.tsx:34-37 | Distinct peers stay distinct after resolution. |
| ChatList.ConversationsOf | components/ChatList.tsx:34-40 | The resolved rows sorted newest first. `ConversationsOrdered`, `ConversationsSound` and `ConversationsComplete` state its order, soundness and completeness. |
| ChatList.ConversationsOrdered | components/ChatList.tsx:34-40 | The conversation list is newest first and has at most one row per peer. |
| ChatList.ConversationsSound | components/ChatList.tsx:17-41 | Each row's user is the stored record of its peer, and its message is the latest one exchanged with that peer. |
| ChatList.ConversationsComplete | components/ChatList.tsx:17-41 | Every resolvable peer the session user has exchanged a message with has a row. |
| ChatList.LoadConversations | components/ChatList.tsx:17-41 | Without a session the list is left as it was. Otherwise the result is `ConversationsOf` the stored log. |
| ChatList.FilterConversations | components/ChatList.tsx:49-53 | A row is kept iff the peer's name contains the query, ignoring ASCII case. |
| ChatList.FilterConversationsOrder | components/ChatList.tsx:49-53 | The search keeps the list order, and an empty query keeps every row. |
| ChatList.PreviewOf | components/ChatList.tsx:148-156 | A message the session user sent reads "You: " and has no dot. Any other message has the dot and no prefix. The text is the message's text. |
| ChatList.ChatTimeBucket | components/ChatList.tsx:178-192 | The format is chosen from the floor of the day difference. Under one day gives the time of day, the next day gives "Yesterday", under a week gives the weekday, and otherwise the month and day. A future time stamp falls into the weekday format. |
| ChatRoom.ThreadCorrect | components/ChatRoom.tsx:34-42 | The thread is in ascending time order. A message is in it iff it is logged and passes between the two users, in either direction. Each such message appears as often as it is logged (same multiset as the filter). |
| ChatRoom.Thread | components/ChatRoom.tsx:34-42 | `loadMessages`. `ThreadCorrect` proves it holds exactly the pair's messages, oldest first. |
| ChatRoom.SendStep | components/ChatRoom.tsx:53-84 | A blank input or no session does nothing. Otherwise exactly one message is appended, from the session user to the recipient with the trimmed (never blank) text. The alert is the recipient's push alert. |
| ChatRoom.SentJoinsThread | components/ChatRoom.tsx:53-84 | After a send the thread with the recipient holds the earlier thread plus the sent message. |
| ChatRoom.SendAlertsRecipient | components/ChatRoom.tsx:74-80 | A send to another known user, with alerts permitted, raises exactly the recipient's chat alert. |
| ChatRoom.OpenRoomSuppressesPeer | components/ChatRoom.tsx:22-31 | With the room open on a peer, a chat alert to the session user from that peer is suppressed. |
| ChatRoom.ClosedRoomSuppressesNothing | components/ChatRoom.tsx:28-30 | Once the room is left, no alert to a known user is suppressed. |
| ChatRoom.OpenRoom | components/ChatRoom.tsx:22-26 | Opening the room sets the active peer and nothing else. |
| ChatRoom.CloseRoom | components/ChatRoom.tsx:28-30 | Leaving the room clears the active peer and nothing else. |
| ChatRoom.SendMessage | components/ChatRoom.tsx:53-84 | The method ends in the state `SendStep` gives and returns its alerts. |
| ChatRoom.UnseparatedSpan | components/ChatRoom.tsx:125 | Between two messages with no time separator in between, the time span is at most five minutes per step. |
| ChatRoom.ShowTime | components/ChatRoom.tsx:125 | A separator goes above the first message and above any message more than five minutes after the previous one. `UnseparatedSpan` bounds a run without separators. |
| ChatService.RoomId | services/ChatService.ts:6-8 | The room id is the smaller id in UTF-16 order, then `_`, then the larger. |
| ChatService.RoomIdSymmetric | services/ChatService.ts:6-8 | Both users compute the same room id. |
| ChatService.RoomsWithId | services/ChatService.ts:34 | The count of rooms with an id is zero iff no room carries it. |
| ChatService.Ensured | services/ChatService.ts:30-47 | The returned room has the pair's id. When a room with that id exists, the first such room is returned and nothing is added. Otherwise one new room for the pair, with an empty last message, is appended. |
| ChatService.EnsuredLeavesOne | services/ChatService.ts:30-47 | With at most one room of that id before, there is exactly one after. |
| ChatService.EnsureTwiceOneRoom | services/ChatService.ts:30-47 | Two calls for the same pair, in either order, leave exactly one room, and the second call changes nothing. |
| ChatService.EnsureChatRoomExists | services/ChatService.ts:30-47 | The method returns the room `Ensured` gives and changes only the rooms, to its list. |
| DiscoverScreen.Listed | components/DiscoverScreen.tsx:23-29 | The listed record keeps id, name and picture. Both lists are present, with a missing one read as empty. Every other field is dropped. |
| DiscoverScreen.FetchUsersCorrect | components/DiscoverScreen.tsx:18-32 | The fetched list never holds the session user. Every entry is the listed form of a stored user, and every other stored user is present. |
| DiscoverScreen.FetchUsers | components/DiscoverScreen.tsx:18-32 | `fetchUsers`. `FetchUsersCorrect` proves it excludes the session user and is sound and complete over the stored users. |
| DiscoverScreen.FilteredUsers | components/DiscoverScreen.tsx:40-45 | A user is kept iff the name or the id contains the query, ignoring ASCII case. |
| DiscoverScreen.FilteredUsersOrder | components/DiscoverScreen.tsx:40-45 | The search keeps the list order, and an empty query keeps everyone. |
| DiscoverScreen.Matches | components/DiscoverScreen.tsx:40-45 | The name or the id contains the query, ignoring ASCII case. `FilteredUsers` and `FilteredUsersOrder` use it. |
| DiscoverScreen.FollowingBadge | components/DiscoverScreen.tsx:105 | The badge shows iff the session user follows the row's user. `ToggleFlipsBadge` proves that a toggle flips it. |
| DiscoverScreen.ToggleFlipsBadge | components/DiscoverScreen.tsx:105-125 | Toggling a user flips that user's following badge, when the session copy matches the store. |
| DiscoverScreen.HandleFollowToggle | components/DiscoverScreen.tsx:47-57 | The store ends in the state `FollowStep` gives, with its alerts. |
| NavigationBar.UnreadCount | components/NavigationBar.tsx:17 | The badge count never exceeds the number of notifications. |
| NavigationBar.UnreadCountZero | components/NavigationBar.tsx:17 | The count is zero iff no notification for the session user is unread. |
| NavigationBar.MarkAllReadClearsBadge | components/NavigationBar.tsx:17 | After marking everything read the count is zero. |
| NavigationBar.Tabs | components/NavigationBar.tsx:19-25 | There are five tabs. |
| NavigationBar.TabTable | components/NavigationBar.tsx:19-25 | Only the notifications tab carries a badge, and tab ids are distinct. |
| NavigationBar.OneActiveTab | components/NavigationBar.tsx:29-46 | At most one tab is active. A dot shows only on the notifications tab, and only when an unread notification for the session user exists. |
| NavigationBar.IsActive | components/NavigationBar.tsx:31 | A tab is active iff its id is the active tab. `OneActiveTab` proves that at most one is. |
| NavigationBar.BadgeShown | components/NavigationBar.tsx:44 | The dot shows on a badge tab with an unread count above zero. `OneActiveTab` proves it shows only on notifications, and only with an unread item. |
| NotificationsScreen.MessageFor | components/NotificationsScreen.tsx:24-31 | Each known kind has its own phrase. Any other tag reads "interacted with you". |
| NotificationsScreen.MessagesDistinct | components/NotificationsScreen.tsx:24-31 | Two kinds, at most one of them unknown, read the same iff they are the same. |
| NotificationsScreen.FormatTime | components/NotificationsScreen.tsx:42-50 | The label is "Just now" iff less than a minute passed. Otherwise it is the floor number of minutes, hours or days, each stated directly on the elapsed milliseconds. |
| NotificationsScreen.FormatTimeReadsBack | components/NotificationsScreen.tsx:42-50 | A minute label reads back as 1 to 59 and an hour label as 1 to 23. A day label reads back as the whole days elapsed. |
| NotificationsScreen.MyNotifications | components/NotificationsScreen.tsx:52 | The list holds exactly the stored notifications addressed to the session user. |
| NotificationsScreen.MyNotificationsInOrder | components/NotificationsScreen.tsx:52 | The list keeps the stored order. |
| NotificationsScreen.RowOf | components/NotificationsScreen.tsx:84-106 | A row is highlighted and carries a dot iff its notification is unread. |
| NotificationsScreen.OpenedListQuiet | components/NotificationsScreen.tsx:16-18 | After the mark-all-read on open, no row is highlighted. |
| NotificationsScreen.OpenNotifications | components/NotificationsScreen.tsx:16-18 | Opening the screen marks every stored notification read and changes nothing else. |
| PostCard.LikeFlipsMarker | components/PostCard.tsx:29 | Pressing like flips the liked marker on every copy of the post and leaves the other posts alone. |
| PostCard.IsLiked | components/PostCard.tsx:29 | Nothing is liked without a session. Otherwise a post is liked iff the session user is among its likers. `LikeFlipsMarker` proves that a press flips it. |
| PostCard.DisplayedAuthor | components/PostCard.tsx:24-36 | The author shown has the post's author id. It is the stored record when there is one, and the copy in the post otherwise. |
| PostCard.SharedContent | components/PostCard.tsx:64-66 | The shared text ends with the original content and always names the original author. A non-blank note comes first and is followed by exactly the "--- Shared from <author> ---" marker line. Without a note, the text opens with exactly "Shared a post from <author>:" and a blank line. |
| PostCard.ShareToFeed | components/PostCard.tsx:61-72 | The store ends in the state `PostStep` gives for the shared text and the post's image. The dialog is reset when there is a session and kept otherwise. |
| PostCard.SharedPostLeadsFeed | components/PostCard.tsx:61-72 | A post shared later than every stored post heads the feed. It is authored by the session user, carries the image, and ends with the original text. |
| PostCard.ShareMessageText | components/PostCard.tsx:76 | The chat text is exactly the "Check out this post from <author>: \"" lead-in, then the first 50 characters of the post (all of a shorter post), then `..."`. Its length follows from that. |
| PostCard.SendToChatStep | components/PostCard.tsx:74-89 | Without a session nothing happens. Otherwise exactly the shared message is appended, and the recipient's push alert is raised. |
| PostCard.SharedMessageJoinsThread | components/PostCard.tsx:74-89 | The shared message joins the thread between sender and recipient, next to every earlier one. |
| PostCard.SendToChat | components/PostCard.tsx:74-89 | The method ends in the state `SendToChatStep` gives and returns its alerts. The dialog closes when there is a session. |
| PostCard.SubmitComment | components/PostCard.tsx:91-97 | A blank box submits nothing and keeps its text. Otherwise the store ends in the state `CommentStep` gives, and the box is cleared. |
| PostCard.Resolve | components/PostCard.tsx:328-330 | The result is the stored records of the ids that resolve, and every resolvable id appears. |
| PostCard.ChatTargets | components/PostCard.tsx:328-330 | The share targets are exactly the stored users the session user follows. There are none without a session. |
| PostCreationBox.PostDecision | components/PostCreationBox.tsx:32-71 | A post is ignored iff there is neither text nor image. With something to post but no AI service, it always fails with the unavailable message and moderation is never consulted. It is blocked iff there is something to post, the AI service exists and moderation rejects it. It is published iff there is something to post, the AI service exists, and moderation answered with anything other than a rejection. A published post carries the text as typed, and the image only when one is attached. Each error case carries its own message. |
| PostCreationBox.RejectionIgnoresCaseAndSpace | components/PostCreationBox.tsx:51-57 | "reject" in any of its usual casings, padded with white space, blocks the post. |
| PostCreationBox.PaddedRejects | components/PostCreationBox.tsx:51 | A padded rejection word is recognised as a rejection. |
| PostCreationBox.RejectUpper | components/PostCreationBox.tsx:51 | Upper-casing the usual casings of "reject" gives "REJECT". |
| PostCreationBox.Next | components/PostCreationBox.tsx:33-67 | An ignored press changes nothing. An error sets the message. A publication clears the text, image, suggestions and error, and closes the modal. |
| PostCreationBox.HandlePost | components/PostCreationBox.tsx:32-71 | The composer becomes `Next` of the decision. The store gains the post, as `PostStep` gives, only when the decision is to publish. |
| PostCreationBox.EnabledButtonNotIgnored | components/PostCreationBox.tsx:188 | A press on an enabled post button is never ignored. |
| PostCreationBox.PostButtonDisabled | components/PostCreationBox.tsx:188 | The button is disabled when there is neither text nor image, or while posting, uploading or generating. `EnabledButtonNotIgnored` proves that an enabled press is never ignored. |
| PostCreationBox.CaptionPrompt | components/PostCreationBox.tsx:132-136 | An image argument selects the image prompt. Otherwise, typed text gives exactly `Generate 3 creative variations of this post: "<text>"`: the lead-in, then the text, then a closing quote. No text selects the status prompt. |
| PostCreationBox.Suggestions | components/PostCreationBox.tsx:146 | No reply gives no suggestions. Otherwise there is one suggestion per `|`-separated piece, and each is trimmed and free of `|`. |
| PostCreationBox.SuggestionsCoverReply | components/PostCreationBox.tsx:146 | Each suggestion is its trimmed piece, and the pieces joined back with `|` give the reply. |
| PostCreationBox.PickedSuggestionPostable | components/PostCreationBox.tsx:146-188 | Picking a non-empty suggestion makes the post button enabled. |
| PostCreationBox.Greeting | components/PostCreationBox.tsx:168 | The greeting is "What's on your mind, " followed by the part of the name before its first space, then "?". That part is a space-free prefix of the name, and the character after it, if any, is a space. A name without a space appears whole. |
| PostCreationBox.GreetingWholeName | components/PostCreationBox.tsx:168 | A name without a space is its own first name. |
| ProfilePage.ActiveUser | components/ProfilePage.tsx:39-48 | One's own profile shows the session user. Another profile shows the stored record with that id, and nothing iff there is none. |
| ProfilePage.IsOwnProfile | components/ProfilePage.tsx:39 | An absent or empty target, or the session user's own id, is one's own profile. `ActiveUser` uses it to pick the session record. |
| ProfilePage.UserPosts | components/ProfilePage.tsx:61 | The profile's posts are exactly the listed posts by that user. |
| ProfilePage.ProfilePostsCorrect | components/ProfilePage.tsx:61 | Over the published feed the profile lists the user's posts newest first. The post count equals the number of stored posts by the user, and a post is listed iff it is stored and by the user. |
| ProfilePage.FollowButtonLabel | components/ProfilePage.tsx:62 | The button reads "Following" iff the session user follows the shown user, and "Follow" otherwise. |
| ProfilePage.FollowAction | components/ProfilePage.tsx:64-78 | With no target nothing happens. Otherwise the store ends in the state `FollowStep` gives, and the shown record is the re-read stored one. |
| ProfilePage.FollowAddsFollower | components/ProfilePage.tsx:188 | After a follow, the target's stored record lists the follower, and the follower count grows by one. |
| ProfilePage.FollowShowsOnProfile | components/ProfilePage.tsx:64-78 | Following from a profile adds the session user to the re-read record's followers and raises the count by one. The button then reads "Following". |
| ProfilePage.GridTile | components/ProfilePage.tsx:288-293 | A post with a non-empty image URL shows the image. A post without one gets a text tile: a quote mark, then the first 30 characters of the text (all of a shorter text), then `..."`. |
| StorySection.MockStories | components/StorySection.tsx:9-15 | There are five sample stories. None uses the session story's id, and none has an image. |
| StorySection.OwnStories | components/StorySection.tsx:31 | Own stories exist only when there is a session. |
| StorySection.OtherSamples | components/StorySection.tsx:35 | The kept samples are not the session user's. |
| StorySection.LoadDynamicStoriesCorrect | components/StorySection.tsx:29-41 | With a saved story of the session user, the strip is one entry carrying the first such story's image, then the other samples in order. Without one it is just the other samples. |
| StorySection.LoadDynamicStories | components/StorySection.tsx:29-41 | `loadDynamicStories`. `LoadDynamicStoriesCorrect` and `NoOwnSampleStory` state its entries and their order. |
| StorySection.NoOwnSampleStory | components/StorySection.tsx:29-41 | No entry other than the session user's own entry belongs to the session user. |
| StorySection.PostStoryStep | components/StorySection.tsx:51-68 | Without an image or a session nothing changes. Otherwise exactly one story by the session user, carrying the image, is prepended. |
| StorySection.PostedStoryLeads | components/StorySection.tsx:29-68 | After posting, the strip starts with the session user's entry showing the posted image. |
| StorySection.PostStory | components/StorySection.tsx:51-68 | The method ends in the state `PostStoryStep` gives. |
| WatchScreen.PrefixHasPluginPath | components/WatchScreen.tsx:57-59 | The embed prefix contains the plugin path. |
| WatchScreen.EmbedUrl | components/WatchScreen.tsx:56-60 | A URL that already contains the plugin path is kept. Any other is wrapped around its encoding. The result always contains the plugin path. |
| WatchScreen.EmbedUrlIdempotent | components/WatchScreen.tsx:56-60 | Normalising twice is normalising once. |
| WatchScreen.SaveStep | components/WatchScreen.tsx:62-75 | Saving appends one bookmark for the video and the session user. Unsaving keeps exactly the bookmarks of other videos. The flag flips. |
| WatchScreen.SaveUnsaveRestores | components/WatchScreen.tsx:62-75 | Saving then unsaving a video nobody had saved restores the bookmark list. |
| WatchScreen.HandleSave | components/WatchScreen.tsx:62-75 | The bookmarks and the flag become what `SaveStep` gives, and nothing else changes. |
| WatchScreen.UploadDraft | components/WatchScreen.tsx:186-201 | The upload is refused iff the title or the URL is empty, with the fixed message. A missing thumbnail is replaced by the generated one. |
| WatchScreen.HandleUpload | components/WatchScreen.tsx:186-207 | A refused upload leaves the store untouched and shows the error. An accepted one ends in the state `VideoStep` gives. |
| Text.Trim | components/ChatRoom.tsx:55-57 | `trim` returns the slice between the leading and the trailing white space, and neither end of the result is white space. |
| Text.BlankIffTrimEmpty | components/PostCard.tsx:93 | A string is all white space iff it trims to empty. |
| Text.TrimIdempotent | components/PostCreationBox.tsx:146 | Trimming twice is trimming once. |
| Text.TrimPadded | components/PostCreationBox.tsx:51 | Padding around a word without white space at its ends is trimmed away exactly. |
| Text.Lower | components/DiscoverScreen.tsx:42-43 | Lower-casing keeps the length and maps each character on its own. |
| Text.Take | components/PostCard.tsx:76 | `substring(0, n)` is the prefix of length n, or the whole string when it is shorter. |
| Text.SplitJoin | components/PostCreationBox.tsx:146 | Splitting at a character and joining with it gives back the string. |
| Text.SplitPiecesFree | components/PostCreationBox.tsx:146 | No piece of a split contains the separator. |
| Text.SplitFirstPrefix | components/PostCreationBox.tsx:168 | The first piece is a prefix of the string that has no separator, and it stops at the first separator: the character after it, if any, is the separator. |
| Text.NatToStringValue | components/NotificationsScreen.tsx:46-49 | The decimal text of a number reads back as the number. |
| Text.EncodeURIComponent | components/WatchScreen.tsx:58 | The encoding consists only of unreserved characters, `%` and upper-case hexadecimal digits. |
| Text.EncodeUnreservedIdentity | components/WatchScreen.tsx:58 | Text made of unreserved characters encodes as itself. |
| Text.LessTotal | services/ChatService.ts:7 | Of two different ids exactly one sorts first in UTF-16 order. |
| Sorting.SortDescSorted | context/AuthContext.tsx:58-62 | The descending sort is sorted and is a permutation of its input. |
| Sorting.SortDesc | context/AuthContext.tsx:58-62 | A sort by descending key. `SortDescSorted` proves it sorted and a permutation, and `SortDescDistinct` that distinct values stay distinct. |
| Sorting.FilterSortedDesc | components/ProfilePage.tsx:61 | Filtering a newest-first list keeps it newest first. |

## Left out

- Local storage, JSON encoding and decoding, and the simulated network delays are not modelled. Each stored collection is a field of `Store`, and a `JSON.parse` failure is modelled only for the session marker.
- The session marker written back to storage on login, sign-up, logout and profile updates is not modelled. The model keeps the session in memory only.
- DiscoverScreen.HandleFollowToggle: the `followProcessing` marker and the `catch`/`finally` error path are not modelled. The modelled follow toggle cannot fail, so the marker would only restate its two assignments.
- Loading flags (`loading`, `isPosting`, `isSaving`, `isUploading`, `isSharing`, `isFollowLoading`) are not modelled, except as inputs to `PostButtonDisabled`.
- Timers, polling intervals and `scrollToBottom` are not modelled. A reload is a call of the corresponding function.
- `Notification.requestPermission`, the service worker and `navigator.share` are not modelled. The permission is the `permitted` field.
- The requests to the AI service are not modelled. The moderation reply and the caption reply are inputs. AI image generation and the image picker, with their random URLs, are left out.
- Random identifiers (message ids, user id and token suffixes) and `Date.now()` are parameters. One `noteId` serves every notification created by one call.
- The thumbnail default and `createVideo` share one `now`.
- `toLocaleTimeString` and `toLocaleDateString` are not modelled. `ChatTimeBucket` gives only which of the four formats applies.
- `Lower` and `Upper` map only the ASCII letters, unlike the full Unicode case mapping of `toLowerCase` and `toUpperCase`.
- `Take`, `Greeting` and `GridTile` count characters in code points, where JavaScript counts UTF-16 code units. They differ only on text outside the Basic Multilingual Plane.
- The `|| []` fallbacks for a post's `likedBy` and `comments` are not modelled. These fields are always present in the model.
- The stability of `Array.prototype.sort` is not used. `Feed`, `Thread` and the conversation list are specified by sortedness and permutation only.
- The notification list is not re-sorted on reload.
- A story's timestamp field is not modelled.
- `LoginResult`, `LoginStep`, `Store.Login`: the login form's check for empty fields is taken as a precondition. The form refuses such input before calling `login`.
- `SignUpResult`, `SignUpStep`, `Store.SignUp`: the sign-up form's check for a password of at least six characters is taken as a precondition.
- `Greeting` takes the session user's name. The text shown without a session is not modelled.
- Viewing a profile from a card, a notification or the discover list only switches screens, and is left out.
- Besides the reset after sharing, the steps of the share dialog are left out.
- The post card's `IntersectionObserver` is not modelled. The view it records is `ViewStep`.
- The presentational components (`App`, `TopBar`, `SplashScreen`, `FeedShimmer`, `HomeScreen`) and the theme context are not part of this model.
