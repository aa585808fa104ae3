/**
 * The friends page: what `load` shows (friends, requests, the feed of friends' and one's own
 * posts, their achievements, the challenges) and the actions that send, accept, decline and
 * remove friendships, toggle a like and join a challenge. The tables are sequences of rows
 * in table order.
 */
module FriendsPage {
  import opened Wrappers
  import opened Ordering
  import opened Forms

  datatype UserRow = UserRow(id: string, username: string)

  datatype FriendshipRow = FriendshipRow(id: string, userId: string, friendId: string, status: string,
                                         requestedBy: string)

  datatype PostRow = PostRow(id: string, userId: string, visibility: string, likesCount: int, createdAt: int)

  datatype LikeRow = LikeRow(id: string, postId: string, userId: string)

  datatype AchievementRow = AchievementRow(id: string, userId: string, unlockedAt: int)

  datatype ChallengeRow = ChallengeRow(id: string, createdBy: string, isPublic: bool, participantsCount: int,
                                       createdAt: int)

  datatype ParticipationRow = ParticipationRow(id: string, challengeId: string, userId: string)

  /** What an action returns: a redirect to the login page, `{ success: false, error }`,
      `{ success: true }`, or an error thrown by the database (a row referring to a post or
      challenge that does not exist breaks a foreign key). */
  datatype ActionResult = Redirect(location: string) | Failed(error: string) | Succeeded | StoreError

  datatype PostView = PostView(post: PostRow, isLikedByUser: bool)

  datatype ChallengeView = ChallengeView(challenge: ChallengeRow, isParticipating: bool)

  datatype FriendsData = FriendsData(
    friends: seq<UserRow>,
    sentRequests: seq<FriendshipRow>,
    receivedRequests: seq<FriendshipRow>,
    socialFeed: seq<PostView>,
    friendAchievements: seq<AchievementRow>,
    challenges: seq<ChallengeView>)

  datatype LoadResult = LoadRedirect(location: string) | Loaded(data: FriendsData)

  const FeedLimit: nat := 50
  const AchievementLimit: nat := 20
  const ChallengeLimit: nat := 20

  // ---------------------------------------------------------------------------
  // Friends

  /** The user on the other side of a friendship row from `me`. */
  function Other(f: FriendshipRow, me: string): string {
    if f.userId == me then f.friendId else f.userId
  }

  /** An accepted friendship row with `me` on one side names `id` on the other. */
  ghost predicate IsFriend(friendships: seq<FriendshipRow>, me: string, id: string) {
    exists f :: f in friendships && f.status == "accepted" && (f.userId == me || f.friendId == me)
                && Other(f, me) == id
  }

  /** The friends query: for each accepted row with `me` on one side, the user on the other. */
  function FriendsOf(friendships: seq<FriendshipRow>, users: seq<UserRow>, me: string): (r: seq<UserRow>)
    ensures forall u :: u in r <==> u in users && IsFriend(friendships, me, u.id)
  {
    if friendships == [] then []
    else
      var f := friendships[0];
      var rest := FriendsOf(friendships[1..], users, me);
      assert forall g :: g in friendships <==> g == f || g in friendships[1..];
      if f.status == "accepted" && (f.userId == me || f.friendId == me) then
        Keep(users, (u: UserRow) => u.id == Other(f, me)) + rest
      else rest
  }

  function Ids(users: seq<UserRow>): (r: seq<string>)
    ensures |r| == |users|
    ensures forall k :: 0 <= k < |users| ==> r[k] == users[k].id
  {
    if users == [] then [] else [users[0].id] + Ids(users[1..])
  }

  /** `friendIds`: the friends' ids, then one's own (line 91 pushes it). */
  function FriendIds(friendships: seq<FriendshipRow>, users: seq<UserRow>, me: string): seq<string> {
    Ids(FriendsOf(friendships, users, me)) + [me]
  }

  /** The ids the feed is drawn from are exactly one's own and those of accepted friends who
      have a user row. */
  lemma FriendIdsMembers(friendships: seq<FriendshipRow>, users: seq<UserRow>, me: string, id: string)
    ensures id in FriendIds(friendships, users, me) <==>
              id == me || exists u :: u in users && u.id == id && IsFriend(friendships, me, id)
  {
    var friends := FriendsOf(friendships, users, me);
    var ids := Ids(friends);
    if id in ids {
      var k :| 0 <= k < |ids| && ids[k] == id;
      assert friends[k] in friends;
    }
    if exists u :: u in users && u.id == id && IsFriend(friendships, me, id) {
      var u :| u in users && u.id == id && IsFriend(friendships, me, id);
      assert u in friends;
      var k :| 0 <= k < |friends| && friends[k] == u;
      assert ids[k] == id;
    }
    assert FriendIds(friendships, users, me) == ids + [me];
  }

  /** Pending requests sent by `me`: exactly the pending rows that `me` asked for, in table order. */
  function SentRequests(friendships: seq<FriendshipRow>, me: string): (r: seq<FriendshipRow>)
    ensures forall f :: f in r <==> f in friendships && f.userId == me && f.status == "pending" && f.requestedBy == me
    ensures |r| <= |friendships|
  {
    Keep(friendships, (f: FriendshipRow) => f.userId == me && f.status == "pending" && f.requestedBy == me)
  }

  /** Pending requests addressed to `me` by someone else, in table order. */
  function ReceivedRequests(friendships: seq<FriendshipRow>, me: string): (r: seq<FriendshipRow>)
    ensures forall f :: f in r <==> f in friendships && f.friendId == me && f.status == "pending" && f.requestedBy != me
    ensures |r| <= |friendships|
  {
    Keep(friendships, (f: FriendshipRow) => f.friendId == me && f.status == "pending" && f.requestedBy != me)
  }

  /** No request is listed as both sent and received. */
  lemma SentAndReceivedDisjoint(friendships: seq<FriendshipRow>, me: string, f: FriendshipRow)
    ensures !(f in SentRequests(friendships, me) && f in ReceivedRequests(friendships, me))
  {
  }

  // ---------------------------------------------------------------------------
  // Feed, achievements and challenges

  predicate NewerPost(a: PostRow, b: PostRow) {
    a.createdAt >= b.createdAt
  }

  predicate NewerAchievement(a: AchievementRow, b: AchievementRow) {
    a.unlockedAt >= b.unlockedAt
  }

  predicate NewerChallenge(a: ChallengeRow, b: ChallengeRow) {
    a.createdAt >= b.createdAt
  }

  lemma NewestFirstOrders()
    ensures TotalPreorder(NewerPost)
    ensures TotalPreorder(NewerAchievement)
    ensures TotalPreorder(NewerChallenge)
  {
  }

  predicate Visible(p: PostRow) {
    p.visibility == "public" || p.visibility == "friends"
  }

  /** The rows the posts query selects: visible posts by the given authors. */
  function FeedCandidates(posts: seq<PostRow>, authors: seq<string>): seq<PostRow> {
    Keep(posts, (p: PostRow) => p.userId in authors && Visible(p))
  }

  /** The posts query: the fifty newest of the candidates, newest first. */
  function FeedRows(posts: seq<PostRow>, authors: seq<string>): (r: seq<PostRow>)
    ensures FirstInOrder(r, FeedCandidates(posts, authors), NewerPost, FeedLimit)
    ensures forall p :: p in r ==> p in posts && Visible(p) && p.userId in authors
  {
    NewestFirstOrders();
    var r := Top(FeedCandidates(posts, authors), NewerPost, FeedLimit);
    assert forall p :: p in r ==> p in multiset(FeedCandidates(posts, authors));
    r
  }

  /** The rows the achievements query selects: those of the given users. */
  function AchievementCandidates(achievements: seq<AchievementRow>, owners: seq<string>): seq<AchievementRow> {
    Keep(achievements, (a: AchievementRow) => a.userId in owners)
  }

  /** The achievements query: the twenty most recently unlocked of the candidates. */
  function AchievementRows(achievements: seq<AchievementRow>, owners: seq<string>): (r: seq<AchievementRow>)
    ensures FirstInOrder(r, AchievementCandidates(achievements, owners), NewerAchievement, AchievementLimit)
    ensures forall a :: a in r ==> a in achievements && a.userId in owners
  {
    NewestFirstOrders();
    var r := Top(AchievementCandidates(achievements, owners), NewerAchievement, AchievementLimit);
    assert forall a :: a in r ==> a in multiset(AchievementCandidates(achievements, owners));
    r
  }

  /** The rows the challenges query selects: public challenges and those created by the given
      users. */
  function ChallengeCandidates(challenges: seq<ChallengeRow>, creators: seq<string>): seq<ChallengeRow> {
    Keep(challenges, (c: ChallengeRow) => c.isPublic || c.createdBy in creators)
  }

  /** The challenges query: the twenty newest of the candidates. */
  function ChallengeRows(challenges: seq<ChallengeRow>, creators: seq<string>): (r: seq<ChallengeRow>)
    ensures FirstInOrder(r, ChallengeCandidates(challenges, creators), NewerChallenge, ChallengeLimit)
    ensures forall c :: c in r ==> c in challenges && (c.isPublic || c.createdBy in creators)
  {
    NewestFirstOrders();
    var r := Top(ChallengeCandidates(challenges, creators), NewerChallenge, ChallengeLimit);
    assert forall c :: c in r ==> c in multiset(ChallengeCandidates(challenges, creators));
    r
  }

  predicate IsLikeOf(l: LikeRow, postId: string, me: string) {
    l.postId == postId && l.userId == me
  }

  predicate LikedBy(likes: seq<LikeRow>, postId: string, me: string) {
    exists l :: l in likes && IsLikeOf(l, postId, me)
  }

  predicate IsParticipationOf(p: ParticipationRow, challengeId: string, me: string) {
    p.challengeId == challengeId && p.userId == me
  }

  predicate Participating(participations: seq<ParticipationRow>, challengeId: string, me: string) {
    exists p :: p in participations && IsParticipationOf(p, challengeId, me)
  }

  // ---------------------------------------------------------------------------
  // Sending a friend request

  function FindUser(users: seq<UserRow>, username: string): (r: Option<UserRow>)
    ensures r.Some? ==> r.value in users && r.value.username == username
    ensures r.None? <==> forall u :: u in users ==> u.username != username
  {
    if users == [] then None
    else if users[0].username == username then Some(users[0])
    else FindUser(users[1..], username)
  }

  predicate Between(f: FriendshipRow, a: string, b: string) {
    (f.userId == a && f.friendId == b) || (f.userId == b && f.friendId == a)
  }

  /** The first friendship row between the two users, in either direction (`LIMIT 1`). */
  function FirstBetween(friendships: seq<FriendshipRow>, a: string, b: string): (r: Option<FriendshipRow>)
    ensures r.Some? ==> r.value in friendships && Between(r.value, a, b)
    ensures r.None? <==> forall f :: f in friendships ==> !Between(f, a, b)
  {
    if friendships == [] then None
    else if Between(friendships[0], a, b) then Some(friendships[0])
    else FirstBetween(friendships[1..], a, b)
  }

  /** A row in the way of a new request: an accepted friendship or a pending request. */
  predicate Blocks(existing: Option<FriendshipRow>) {
    existing.Some? && (existing.value.status == "accepted" || existing.value.status == "pending")
  }

  /** The checks of `sendFriendRequest` for a signed-in `me`, in order: the id of the user to
      ask, or the error reported. `allowRequests` holds the `allowFriendRequests` column of the
      privacy rows, by user id. */
  function RequestCheck(users: seq<UserRow>, friendships: seq<FriendshipRow>, allowRequests: map<string, bool>,
                        me: string, username: Field): (r: Result<string, string>)
    ensures r.Ok? ==> username.Some? && exists u :: u in users && u.id == r.value && u.username == username.value
    ensures r.Ok? ==> r.value != me
  {
    if !Given(username) then Err("Username is required")
    else
      var found := FindUser(users, username.value);
      if found.None? then Err("User not found")
      else
        var target := found.value;
        if target.id == me then Err("You cannot add yourself as a friend")
        else
          var existing := FirstBetween(friendships, me, target.id);
          if existing.Some? && existing.value.status == "accepted" then Err("You are already friends with this user")
          else if existing.Some? && existing.value.status == "pending" then Err("A friend request is already pending")
          else if target.id in allowRequests && !allowRequests[target.id] then
            Err("This user is not accepting friend requests")
          else Ok(target.id)
  }

  /** A request goes through exactly when every check passes: a username is given, it names a
      user other than `me`, the first row between the two neither is accepted nor pending,
      and that user has not switched requests off. */
  lemma RequestCheckPasses(users: seq<UserRow>, friendships: seq<FriendshipRow>, allowRequests: map<string, bool>,
                           me: string, username: Field)
    ensures RequestCheck(users, friendships, allowRequests, me, username).Ok? <==>
              && Given(username)
              && FindUser(users, username.value).Some?
              && FindUser(users, username.value).value.id != me
              && !Blocks(FirstBetween(friendships, me, FindUser(users, username.value).value.id))
              && (FindUser(users, username.value).value.id in allowRequests ==>
                    allowRequests[FindUser(users, username.value).value.id])
  {
  }

  /** A row with another status (say 'blocked') does not stop a new request. */
  lemma OtherStatusDoesNotBlock(users: seq<UserRow>, friendships: seq<FriendshipRow>, allowRequests: map<string, bool>,
                                me: string, target: UserRow)
    requires FindUser(users, target.username) == Some(target) && target.id != me
    requires FirstBetween(friendships, me, target.id).Some?
    requires FirstBetween(friendships, me, target.id).value.status !in ["accepted", "pending"]
    requires target.id !in allowRequests
    requires target.username != ""
    ensures RequestCheck(users, friendships, allowRequests, me, Some(target.username)) == Ok(target.id)
  {
  }

  /** An accepted friendship, in either direction, always refuses a new request. */
  lemma FriendsCannotAskAgain(users: seq<UserRow>, friendships: seq<FriendshipRow>, allowRequests: map<string, bool>,
                              me: string, username: string)
    requires username != ""
    requires FindUser(users, username).Some? && FindUser(users, username).value.id != me
    requires FirstBetween(friendships, me, FindUser(users, username).value.id).Some?
    requires FirstBetween(friendships, me, FindUser(users, username).value.id).value.status == "accepted"
    ensures RequestCheck(users, friendships, allowRequests, me, Some(username))
            == Err("You are already friends with this user")
  {
  }

  // ---------------------------------------------------------------------------
  // Accepting, declining and removing

  predicate PendingTo(f: FriendshipRow, friendshipId: string, me: string) {
    f.id == friendshipId && f.friendId == me && f.status == "pending"
  }

  predicate AcceptedWith(f: FriendshipRow, friendshipId: string, me: string) {
    f.id == friendshipId && (f.userId == me || f.friendId == me) && f.status == "accepted"
  }

  /** The `UPDATE … SET status = 'accepted'` of `acceptFriendRequest`. */
  function AcceptRows(rows: seq<FriendshipRow>, friendshipId: string, me: string): (r: seq<FriendshipRow>)
    ensures |r| == |rows|
  {
    seq(|rows|, k requires 0 <= k < |rows| =>
      if PendingTo(rows[k], friendshipId, me) then rows[k].(status := "accepted") else rows[k])
  }

  /** Accepting sets exactly the matching pending rows to accepted and leaves every other row
      as it was; doing it again changes nothing. */
  lemma AcceptRowsMeaning(rows: seq<FriendshipRow>, friendshipId: string, me: string)
    ensures forall k :: 0 <= k < |rows| && !PendingTo(rows[k], friendshipId, me) ==>
              AcceptRows(rows, friendshipId, me)[k] == rows[k]
    ensures forall k :: 0 <= k < |rows| && PendingTo(rows[k], friendshipId, me) ==>
              AcceptRows(rows, friendshipId, me)[k].status == "accepted"
              && AcceptRows(rows, friendshipId, me)[k].(status := "pending") == rows[k]
    ensures AcceptRows(AcceptRows(rows, friendshipId, me), friendshipId, me) == AcceptRows(rows, friendshipId, me)
  {
  }

  /** After accepting a request addressed to `me`, the two are friends. */
  lemma AcceptMakesFriends(rows: seq<FriendshipRow>, friendshipId: string, me: string, k: nat)
    requires k < |rows| && PendingTo(rows[k], friendshipId, me)
    ensures IsFriend(AcceptRows(rows, friendshipId, me), me, rows[k].userId)
  {
    var f := AcceptRows(rows, friendshipId, me)[k];
    assert f in AcceptRows(rows, friendshipId, me);
  }

  /** The `DELETE … WHERE id = … AND friendId = me AND status = 'pending'` of declining:
      exactly the matching pending rows addressed to `me` go, the rest stay in order. */
  function DeclineRows(rows: seq<FriendshipRow>, friendshipId: string, me: string): (r: seq<FriendshipRow>)
    ensures forall f :: f in r <==> f in rows && !PendingTo(f, friendshipId, me)
    ensures |r| <= |rows|
  {
    Keep(rows, (f: FriendshipRow) => !PendingTo(f, friendshipId, me))
  }

  /** The `DELETE … WHERE id = … AND status = 'accepted' AND me on either side` of removing:
      exactly the matching accepted rows go, the rest stay in order. */
  function RemoveRows(rows: seq<FriendshipRow>, friendshipId: string, me: string): (r: seq<FriendshipRow>)
    ensures forall f :: f in r <==> f in rows && !AcceptedWith(f, friendshipId, me)
    ensures |r| <= |rows|
  {
    Keep(rows, (f: FriendshipRow) => !AcceptedWith(f, friendshipId, me))
  }

  /** Declining never touches an accepted friendship, and removing never touches a request;
      on a table of friendships only, declining changes nothing. */
  lemma DeclineAndRemoveApart(rows: seq<FriendshipRow>, friendshipId: string, me: string)
    ensures forall f :: f in rows && f.status == "accepted" ==> f in DeclineRows(rows, friendshipId, me)
    ensures forall f :: f in rows && f.status == "pending" ==> f in RemoveRows(rows, friendshipId, me)
    ensures (forall k :: 0 <= k < |rows| ==> rows[k].status == "accepted") ==> DeclineRows(rows, friendshipId, me) == rows
  {
    if forall k :: 0 <= k < |rows| ==> rows[k].status == "accepted" {
      KeepAll(rows, (f: FriendshipRow) => !PendingTo(f, friendshipId, me));
    }
  }

  // ---------------------------------------------------------------------------
  // Likes and challenges

  /** What the like toggle touches: the like rows and the posts' counters. */
  datatype LikeTables = LikeTables(likes: seq<LikeRow>, posts: seq<PostRow>)

  predicate PostExists(posts: seq<PostRow>, postId: string) {
    exists p :: p in posts && p.id == postId
  }

  /** `likesCount = likesCount + delta` on the post with that id. */
  function BumpLikes(posts: seq<PostRow>, postId: string, delta: int): (r: seq<PostRow>)
    ensures |r| == |posts|
    ensures forall k :: 0 <= k < |posts| ==> r[k].id == posts[k].id
    ensures forall k :: 0 <= k < |posts| ==>
              r[k].likesCount == posts[k].likesCount + (if posts[k].id == postId then delta else 0)
    ensures forall k :: 0 <= k < |posts| ==> r[k].(likesCount := posts[k].likesCount) == posts[k]
  {
    seq(|posts|, k requires 0 <= k < |posts| =>
      if posts[k].id == postId then posts[k].(likesCount := posts[k].likesCount + delta) else posts[k])
  }

  lemma BumpLikesAdds(posts: seq<PostRow>, postId: string, a: int, b: int)
    ensures BumpLikes(BumpLikes(posts, postId, a), postId, b) == BumpLikes(posts, postId, a + b)
    ensures BumpLikes(posts, postId, 0) == posts
  {
  }

  /** `likePost` on the tables: unlike when liked, else like; `None` when the new like row
      would refer to a post that does not exist. */
  function ToggleLike(t: LikeTables, postId: string, me: string, freshId: string): (r: Option<LikeTables>)
    ensures r.None? <==> !LikedBy(t.likes, postId, me) && !PostExists(t.posts, postId)
    ensures r.Some? ==> |r.value.posts| == |t.posts|
    ensures r.Some? && LikedBy(t.likes, postId, me) ==> |r.value.likes| < |t.likes|
    ensures r.Some? && LikedBy(t.likes, postId, me) ==>
              forall l :: l in r.value.likes <==> l in t.likes && !IsLikeOf(l, postId, me)
    ensures r.Some? && !LikedBy(t.likes, postId, me) ==> r.value.likes == t.likes + [LikeRow(freshId, postId, me)]
  {
    if LikedBy(t.likes, postId, me) then
      var kept := Keep(t.likes, (l: LikeRow) => !IsLikeOf(l, postId, me));
      assert exists i :: 0 <= i < |t.likes| && IsLikeOf(t.likes[i], postId, me);
      Some(LikeTables(kept, BumpLikes(t.posts, postId, -1)))
    else if !PostExists(t.posts, postId) then None
    else Some(LikeTables(t.likes + [LikeRow(freshId, postId, me)], BumpLikes(t.posts, postId, 1)))
  }

  /** The toggle flips whether `me` likes the post, moving its counter by one the matching way. */
  lemma ToggleFlips(t: LikeTables, postId: string, me: string, freshId: string)
    requires ToggleLike(t, postId, me, freshId).Some?
    ensures LikedBy(ToggleLike(t, postId, me, freshId).value.likes, postId, me) == !LikedBy(t.likes, postId, me)
    ensures ToggleLike(t, postId, me, freshId).value.posts
            == BumpLikes(t.posts, postId, if LikedBy(t.likes, postId, me) then -1 else 1)
  {
    if !LikedBy(t.likes, postId, me) {
      var after := ToggleLike(t, postId, me, freshId).value.likes;
      assert LikeRow(freshId, postId, me) in after;
    }
  }

  /** Liking and then unliking restores both tables exactly. */
  lemma LikeThenUnlikeRestores(t: LikeTables, postId: string, me: string, id1: string, id2: string)
    requires !LikedBy(t.likes, postId, me) && PostExists(t.posts, postId)
    ensures ToggleLike(t, postId, me, id1).Some?
    ensures ToggleLike(ToggleLike(t, postId, me, id1).value, postId, me, id2) == Some(t)
  {
    var row := LikeRow(id1, postId, me);
    var once := LikeTables(t.likes + [row], BumpLikes(t.posts, postId, 1));
    assert ToggleLike(t, postId, me, id1) == Some(once);
    assert row in once.likes;
    assert LikedBy(once.likes, postId, me);
    var keep := (l: LikeRow) => !IsLikeOf(l, postId, me);
    assert Keep(once.likes, keep) == t.likes by {
      KeepAppendOne(t.likes, row, keep);
      KeepAll(t.likes, keep);
    }
    assert BumpLikes(once.posts, postId, -1) == t.posts by {
      BumpLikesAdds(t.posts, postId, 1, -1);
    }
  }

  /** Unliking and then liking leaves the post liked with its counter as it was. */
  lemma UnlikeThenLikeRestoresCount(t: LikeTables, postId: string, me: string, id1: string, id2: string)
    requires LikedBy(t.likes, postId, me) && PostExists(t.posts, postId)
    ensures ToggleLike(t, postId, me, id1).Some?
    ensures ToggleLike(ToggleLike(t, postId, me, id1).value, postId, me, id2).Some?
    ensures var twice := ToggleLike(ToggleLike(t, postId, me, id1).value, postId, me, id2).value;
            LikedBy(twice.likes, postId, me) && twice.posts == t.posts
  {
    var once := ToggleLike(t, postId, me, id1).value;
    ToggleFlips(t, postId, me, id1);
    assert PostExists(once.posts, postId) by {
      var p :| p in t.posts && p.id == postId;
      var k :| 0 <= k < |t.posts| && t.posts[k] == p;
      assert once.posts[k] in once.posts;
    }
    ToggleFlips(once, postId, me, id2);
    BumpLikesAdds(t.posts, postId, -1, 1);
  }

  predicate ChallengeExists(challenges: seq<ChallengeRow>, challengeId: string) {
    exists c :: c in challenges && c.id == challengeId
  }

  /** `participantsCount = participantsCount + 1` on the challenge with that id. */
  function BumpParticipants(challenges: seq<ChallengeRow>, challengeId: string): (r: seq<ChallengeRow>)
    ensures |r| == |challenges|
    ensures forall k :: 0 <= k < |challenges| ==> r[k].id == challenges[k].id
  {
    seq(|challenges|, k requires 0 <= k < |challenges| =>
      if challenges[k].id == challengeId then challenges[k].(participantsCount := challenges[k].participantsCount + 1)
      else challenges[k])
  }

  /** Joining counts one more participant on that challenge and on no other. */
  lemma BumpParticipantsMeaning(challenges: seq<ChallengeRow>, challengeId: string)
    ensures forall k :: 0 <= k < |challenges| ==>
              BumpParticipants(challenges, challengeId)[k].participantsCount
              == challenges[k].participantsCount + (if challenges[k].id == challengeId then 1 else 0)
    ensures forall k :: 0 <= k < |challenges| ==>
              BumpParticipants(challenges, challengeId)[k].(participantsCount := challenges[k].participantsCount)
              == challenges[k]
  {
  }

  /** The `map` that marks each feed post with whether `me` likes it. */
  function LikedViews(rows: seq<PostRow>, likes: seq<LikeRow>, me: string): (r: seq<PostView>)
    ensures |r| == |rows|
    ensures forall k :: 0 <= k < |rows| ==> r[k] == PostView(rows[k], LikedBy(likes, rows[k].id, me))
    ensures forall v :: v in r ==> v.post in rows && (v.isLikedByUser <==> LikedBy(likes, v.post.id, me))
  {
    var r := seq(|rows|, k requires 0 <= k < |rows| => PostView(rows[k], LikedBy(likes, rows[k].id, me)));
    assert forall v :: v in r ==> exists k :: 0 <= k < |rows| && v == r[k];
    r
  }

  // ---------------------------------------------------------------------------
  // The tables and the handlers

  class SocialTables {
    var users: seq<UserRow>
    var friendships: seq<FriendshipRow>
    var allowRequests: map<string, bool>
    var posts: seq<PostRow>
    var likes: seq<LikeRow>
    var achievements: seq<AchievementRow>
    var challenges: seq<ChallengeRow>
    var participations: seq<ParticipationRow>

    constructor(users0: seq<UserRow>, friendships0: seq<FriendshipRow>, allowRequests0: map<string, bool>,
                posts0: seq<PostRow>, likes0: seq<LikeRow>, achievements0: seq<AchievementRow>,
                challenges0: seq<ChallengeRow>, participations0: seq<ParticipationRow>)
      ensures users == users0 && friendships == friendships0 && allowRequests == allowRequests0
      ensures posts == posts0 && likes == likes0 && achievements == achievements0
      ensures challenges == challenges0 && participations == participations0
    {
      users, friendships, allowRequests := users0, friendships0, allowRequests0;
      posts, likes, achievements := posts0, likes0, achievements0;
      challenges, participations := challenges0, participations0;
    }

    /** `load` for the signed-in user `me`. */
    method Load(me: Option<string>) returns (result: LoadResult)
      ensures me.None? ==> result == LoadRedirect("/login")
      ensures me.Some? ==> result.Loaded?
      ensures me.Some? ==>
                var d := result.data;
                var authors := FriendIds(friendships, users, me.value);
                && d.friends == FriendsOf(friendships, users, me.value)
                && d.sentRequests == SentRequests(friendships, me.value)
                && d.receivedRequests == ReceivedRequests(friendships, me.value)
                && |d.socialFeed| == |FeedRows(posts, authors)|
                && (forall k :: 0 <= k < |d.socialFeed| ==>
                      d.socialFeed[k] == PostView(FeedRows(posts, authors)[k],
                                                  LikedBy(likes, FeedRows(posts, authors)[k].id, me.value)))
                && |d.socialFeed| <= FeedLimit
                && (forall v :: v in d.socialFeed ==>
                      && v.post in posts && Visible(v.post) && v.post.userId in authors
                      && (v.isLikedByUser <==> LikedBy(likes, v.post.id, me.value)))
                && d.friendAchievements == AchievementRows(achievements, authors)
                && |d.challenges| == |ChallengeRows(challenges, authors)|
                && (forall k :: 0 <= k < |d.challenges| ==>
                      d.challenges[k] == ChallengeView(ChallengeRows(challenges, authors)[k],
                                                       Participating(participations, ChallengeRows(challenges, authors)[k].id,
                                                                     me.value)))
                && |d.challenges| <= ChallengeLimit
                && (forall v :: v in d.challenges ==>
                      && v.challenge in challenges && (v.challenge.isPublic || v.challenge.createdBy in authors)
                      && (v.isParticipating <==> Participating(participations, v.challenge.id, me.value)))
    {
      if me.None? {
        return LoadRedirect("/login");
      }
      var userId := me.value;
      var friendsQuery := FriendsOf(friendships, users, userId);
      var friendIds := Ids(friendsQuery);
      friendIds := friendIds + [userId];
      var postsQuery := FeedRows(posts, friendIds);
      var socialFeed := LikedViews(postsQuery, likes, userId);
      var friendAchievements := AchievementRows(achievements, friendIds);
      var found := ChallengeRows(challenges, friendIds);
      var views := MarkParticipation(found, userId);
      return Loaded(FriendsData(friendsQuery, SentRequests(friendships, userId),
                                ReceivedRequests(friendships, userId), socialFeed, friendAchievements, views));
    }

    /** The `forEach` that sets `isParticipating` on each listed challenge. */
    method MarkParticipation(found: seq<ChallengeRow>, me: string) returns (views: seq<ChallengeView>)
      ensures |views| == |found|
      ensures forall k :: 0 <= k < |found| ==>
                views[k] == ChallengeView(found[k], Participating(participations, found[k].id, me))
      ensures forall v :: v in views ==>
                v.challenge in found && (v.isParticipating <==> Participating(participations, v.challenge.id, me))
    {
      var marked := new ChallengeView[|found|](k requires 0 <= k < |found| => ChallengeView(found[k], false));
      for k := 0 to marked.Length
        invariant forall m :: 0 <= m < k ==>
                    marked[m] == ChallengeView(found[m], Participating(participations, found[m].id, me))
        invariant forall m :: k <= m < marked.Length ==> marked[m] == ChallengeView(found[m], false)
      {
        marked[k] := marked[k].(isParticipating := Participating(participations, found[k].id, me));
      }
      views := marked[..];
      assert forall v :: v in views ==> exists k :: 0 <= k < |found| && v == views[k];
    }

    method SendFriendRequest(me: Option<string>, username: Field, freshId: string) returns (result: ActionResult)
      modifies this
      ensures me.None? ==> result == Redirect("/login") && friendships == old(friendships)
      ensures me.Some? ==>
                var check := RequestCheck(old(users), old(friendships), old(allowRequests), me.value, username);
                && (check.Err? ==> result == Failed(check.error) && friendships == old(friendships))
                && (check.Ok? ==>
                      result == Succeeded
                      && friendships == old(friendships) + [FriendshipRow(freshId, me.value, check.value, "pending", me.value)])
      ensures users == old(users) && allowRequests == old(allowRequests) && posts == old(posts)
      ensures likes == old(likes) && achievements == old(achievements)
      ensures challenges == old(challenges) && participations == old(participations)
    {
      if me.None? {
        return Redirect("/login");
      }
      var check := RequestCheck(users, friendships, allowRequests, me.value, username);
      if check.Err? {
        return Failed(check.error);
      }
      friendships := friendships + [FriendshipRow(freshId, me.value, check.value, "pending", me.value)];
      return Succeeded;
    }

    method AcceptFriendRequest(me: Option<string>, friendshipId: Field) returns (result: ActionResult)
      modifies this
      ensures me.None? ==> result == Redirect("/login") && friendships == old(friendships)
      ensures me.Some? && !Given(friendshipId) ==>
                result == Failed("Friendship ID is required") && friendships == old(friendships)
      ensures me.Some? && Given(friendshipId) ==>
                result == Succeeded && friendships == AcceptRows(old(friendships), friendshipId.value, me.value)
      ensures users == old(users) && allowRequests == old(allowRequests) && posts == old(posts)
      ensures likes == old(likes) && achievements == old(achievements)
      ensures challenges == old(challenges) && participations == old(participations)
    {
      if me.None? {
        return Redirect("/login");
      }
      if !Given(friendshipId) {
        return Failed("Friendship ID is required");
      }
      friendships := AcceptRows(friendships, friendshipId.value, me.value);
      return Succeeded;
    }

    method DeclineFriendRequest(me: Option<string>, friendshipId: Field) returns (result: ActionResult)
      modifies this
      ensures me.None? ==> result == Redirect("/login") && friendships == old(friendships)
      ensures me.Some? && !Given(friendshipId) ==>
                result == Failed("Friendship ID is required") && friendships == old(friendships)
      ensures me.Some? && Given(friendshipId) ==>
                result == Succeeded && friendships == DeclineRows(old(friendships), friendshipId.value, me.value)
      ensures users == old(users) && allowRequests == old(allowRequests) && posts == old(posts)
      ensures likes == old(likes) && achievements == old(achievements)
      ensures challenges == old(challenges) && participations == old(participations)
    {
      if me.None? {
        return Redirect("/login");
      }
      if !Given(friendshipId) {
        return Failed("Friendship ID is required");
      }
      friendships := DeclineRows(friendships, friendshipId.value, me.value);
      return Succeeded;
    }

    method RemoveFriend(me: Option<string>, friendshipId: Field) returns (result: ActionResult)
      modifies this
      ensures me.None? ==> result == Redirect("/login") && friendships == old(friendships)
      ensures me.Some? && !Given(friendshipId) ==>
                result == Failed("Friendship ID is required") && friendships == old(friendships)
      ensures me.Some? && Given(friendshipId) ==>
                result == Succeeded && friendships == RemoveRows(old(friendships), friendshipId.value, me.value)
      ensures users == old(users) && allowRequests == old(allowRequests) && posts == old(posts)
      ensures likes == old(likes) && achievements == old(achievements)
      ensures challenges == old(challenges) && participations == old(participations)
    {
      if me.None? {
        return Redirect("/login");
      }
      if !Given(friendshipId) {
        return Failed("Friendship ID is required");
      }
      friendships := RemoveRows(friendships, friendshipId.value, me.value);
      return Succeeded;
    }

    method LikePost(me: Option<string>, postId: Field, freshId: string) returns (result: ActionResult)
      modifies this
      ensures me.None? || !Given(postId) ==> likes == old(likes) && posts == old(posts)
      ensures me.None? ==> result == Redirect("/login")
      ensures me.Some? && !Given(postId) ==> result == Failed("Post ID is required")
      ensures me.Some? && Given(postId) ==>
                var toggled := ToggleLike(LikeTables(old(likes), old(posts)), postId.value, me.value, freshId);
                && (toggled.None? ==> result == StoreError && likes == old(likes) && posts == old(posts))
                && (toggled.Some? ==> result == Succeeded && LikeTables(likes, posts) == toggled.value)
      ensures users == old(users) && friendships == old(friendships) && allowRequests == old(allowRequests)
      ensures achievements == old(achievements)
      ensures challenges == old(challenges) && participations == old(participations)
    {
      if me.None? {
        return Redirect("/login");
      }
      if !Given(postId) {
        return Failed("Post ID is required");
      }
      var id := postId.value;
      var userId := me.value;
      if exists l :: l in likes && IsLikeOf(l, id, userId) {
        likes := Keep(likes, (l: LikeRow) => !IsLikeOf(l, id, userId));
        posts := BumpLikes(posts, id, -1);
      } else if !(exists p :: p in posts && p.id == id) {
        return StoreError;
      } else {
        likes := likes + [LikeRow(freshId, id, userId)];
        posts := BumpLikes(posts, id, 1);
      }
      return Succeeded;
    }

    method JoinChallenge(me: Option<string>, challengeId: Field, freshId: string) returns (result: ActionResult)
      modifies this
      ensures me.None? ==> result == Redirect("/login")
      ensures me.Some? && !Given(challengeId) ==> result == Failed("Challenge ID is required")
      ensures me.Some? && Given(challengeId) && Participating(old(participations), challengeId.value, me.value) ==>
                result == Failed("Already participating in this challenge")
      ensures (me.Some? && Given(challengeId) && !Participating(old(participations), challengeId.value, me.value)
               && !ChallengeExists(old(challenges), challengeId.value)) ==> result == StoreError
      ensures result == Succeeded <==>
                me.Some? && Given(challengeId) && !Participating(old(participations), challengeId.value, me.value)
                && ChallengeExists(old(challenges), challengeId.value)
      ensures result == Succeeded ==>
                && participations == old(participations) + [ParticipationRow(freshId, challengeId.value, me.value)]
                && challenges == BumpParticipants(old(challenges), challengeId.value)
      ensures result != Succeeded ==> participations == old(participations) && challenges == old(challenges)
      ensures users == old(users) && friendships == old(friendships) && allowRequests == old(allowRequests)
      ensures posts == old(posts) && likes == old(likes) && achievements == old(achievements)
    {
      if me.None? {
        return Redirect("/login");
      }
      if !Given(challengeId) {
        return Failed("Challenge ID is required");
      }
      var id := challengeId.value;
      var userId := me.value;
      if exists p :: p in participations && IsParticipationOf(p, id, userId) {
        return Failed("Already participating in this challenge");
      }
      if !(exists c :: c in challenges && c.id == id) {
        return StoreError;
      }
      participations := participations + [ParticipationRow(freshId, id, userId)];
      challenges := BumpParticipants(challenges, id);
      return Succeeded;
    }
  }

  /** After joining, the user participates, so a second join is refused. */
  lemma JoinedParticipates(participations: seq<ParticipationRow>, challengeId: string, me: string, freshId: string)
    ensures Participating(participations + [ParticipationRow(freshId, challengeId, me)], challengeId, me)
  {
    assert ParticipationRow(freshId, challengeId, me) in participations + [ParticipationRow(freshId, challengeId, me)];
  }
}
