/**
 * The records the client stores: users, posts with their comments, videos, notifications,
 * stories and chat messages, plus the chat rooms and video bookmarks kept in their own
 * collections. Optional properties are `Option`s; `None` is an absent property.
 */
module Types {
  import opened Wrappers

  type Id = string

  /**
   * A user record. Records written at sign-up also carry the e-mail address and the password,
   * and the session copy is the same record, so both are optional fields here.
   */
  datatype User = User(
    id: Id,
    name: string,
    profilePic: string,
    bio: Option<string>,
    city: Option<string>,
    followers: Option<seq<Id>>,
    following: Option<seq<Id>>,
    fcmToken: Option<string>,
    email: Option<string>,
    password: Option<string>)

  /** `u.followers || []` */
  function FollowersOf(u: User): seq<Id>
  {
    u.followers.GetOr([])
  }

  /** `u.following || []` */
  function FollowingOf(u: User): seq<Id>
  {
    u.following.GetOr([])
  }

  /** A user object literal with only an id, a name and a picture, as the built-in mock data has. */
  function Profile(id: Id, name: string, profilePic: string): User
  {
    User(id, name, profilePic, None, None, None, None, None, None, None)
  }

  datatype Comment = Comment(id: Id, postId: Id, user: User, text: string, time: string)

  datatype Post = Post(
    id: Id,
    user: User,
    time: string,
    content: string,
    imageUrl: Option<string>,
    likes: int,
    likedBy: seq<Id>,
    comments: seq<Comment>,
    shares: int,
    views: Option<int>,
    timestamp: Option<int>)

  datatype Video = Video(
    id: Id,
    title: string,
    videoUrl: string,
    thumbnailUrl: string,
    author: User,
    views: string,
    time: string,
    description: string)

  /** The `type` of a notification; a stored record may carry a tag outside the declared three. */
  datatype NotificationKind = LikeKind | FollowKind | CommentKind | OtherKind(tag: string)

  datatype Notification = Notification(
    id: Id,
    toUserId: Id,
    fromUserId: Id,
    fromUserName: string,
    fromUserProfilePic: string,
    kind: NotificationKind,
    postId: Option<Id>,
    timestamp: int,
    isRead: bool)

  /** A story entry; the mock entries have no image. */
  datatype Story = Story(id: Id, user: User, imageUrl: Option<string>, isAddStory: Option<bool>)

  datatype Message = Message(id: Id, senderId: Id, receiverId: Id, text: string, timestamp: int)

  /** A chat room record of the `simulated_firestore_rooms` collection. */
  datatype Room = Room(
    id: Id,
    participants: seq<Id>,
    createdAt: int,
    lastMessage: string,
    lastMessageTimestamp: int)

  /** A saved-video record; `userId` is absent when no one was signed in. */
  datatype Bookmark = Bookmark(videoId: Id, userId: Option<Id>)

  /** A platform alert the client asks the browser to show (`new Notification(title, {body, icon})`). */
  datatype Alert = Alert(title: string, body: string, icon: string)

  /** `sendLocalNotification(title, body, icon)`: a missing or empty icon becomes the favicon. */
  function LocalAlert(title: string, body: string, icon: Option<string>): (a: Alert)
    ensures a.title == title && a.body == body
    ensures a.icon == "/favicon.ico" <==> icon.None? || icon.value == "" || icon.value == "/favicon.ico"
  {
    Alert(title, body, if icon.Some? && icon.value != "" then icon.value else "/favicon.ico")
  }
}
