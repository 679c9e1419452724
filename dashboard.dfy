/** The dashboard controller: read-only counts, sums and rankings over the
    Video, Like, Subscription and User collections. */
module Dashboard {
  import opened Common
  import opened Tables
  import opened Sorting
  import Videos
  import Likes
  import Subscriptions

  /** The profile fields of a User document the rankings show. */
  datatype User = User(username: string, fullName: string, avatar: string)

  /** The numbers getChannelStats answers. */
  datatype ChannelStats = ChannelStats(totalVideos: nat, totalViews: int, totalSubscribers: nat, totalLikes: nat)

  /** A ranked creator: a user's projected fields and the number of
      subscriptions naming that user as channel. */
  datatype Creator = Creator(id: Id, username: string, fullName: string, avatar: string, subscriberCount: nat)

  /** The numbers and rankings getDashboardStats answers. */
  datatype DashboardStats = DashboardStats(
    totalUsers: nat,
    totalVideos: nat,
    totalLikes: nat,
    totalSubscriptions: nat,
    topVideos: seq<Doc<Videos.Video>>,
    topCreators: seq<Creator>)

  /** `$group` with `$sum: "$views"`: the views of the given videos added up. */
  function SumViews(s: seq<Doc<Videos.Video>>): int {
    if s == [] then 0 else s[0].body.views + SumViews(s[1..])
  }

  /** The reference meaning of a channel's total views: every video of the
      collection adds its views when `owner` owns it and nothing otherwise. */
  function OwnerViews(t: seq<Doc<Videos.Video>>, owner: Id): int {
    if t == [] then 0
    else (if t[0].body.owner == owner then t[0].body.views else 0) + OwnerViews(t[1..], owner)
  }

  /** `$match: {owner}`: the videos `owner` owns, in collection order. */
  function Owned(t: seq<Doc<Videos.Video>>, owner: Id): (r: seq<Doc<Videos.Video>>)
    ensures forall d :: d in r <==> d in t && d.body.owner == owner
    ensures forall d :: multiset(r)[d] == if d.body.owner == owner then multiset(t)[d] else 0
    ensures |r| <= |t|
  {
    FilterCounts(t, (d: Doc<Videos.Video>) => d.body.owner == owner);
    Filter(t, (d: Doc<Videos.Video>) => d.body.owner == owner)
  }

  /** `Owned` peels off the first video like `OwnerViews` does. */
  lemma OwnedCons(t: seq<Doc<Videos.Video>>, owner: Id)
    requires t != []
    ensures Owned(t, owner) == (if t[0].body.owner == owner then [t[0]] else []) + Owned(t[1..], owner)
  {
  }

  /** Matching the owner's videos and summing their views gives the
      reference total. */
  lemma {:induction false} SumOfOwnedViews(t: seq<Doc<Videos.Video>>, owner: Id)
    ensures SumViews(Owned(t, owner)) == OwnerViews(t, owner)
  {
    if t != [] {
      SumOfOwnedViews(t[1..], owner);
      OwnedCons(t, owner);
      var rest := Owned(t[1..], owner);
      if t[0].body.owner == owner {
        assert ([t[0]] + rest)[1..] == rest;
      } else {
        assert [] + rest == rest;
      }
    }
  }

  /** Replacing one video changes the reference total by the difference of
      what the old and the new video add. */
  lemma {:induction false} OwnerViewsReplace(t: seq<Doc<Videos.Video>>, i: nat, d: Doc<Videos.Video>, owner: Id)
    requires i < |t|
    ensures OwnerViews(t[i := d], owner) ==
              OwnerViews(t, owner)
              - (if t[i].body.owner == owner then t[i].body.views else 0)
              + (if d.body.owner == owner then d.body.views else 0)
  {
    if i > 0 {
      OwnerViewsReplace(t[1..], i - 1, d, owner);
      assert t[i := d][1..] == t[1..][i - 1 := d];
    } else {
      assert t[i := d][1..] == t[1..];
    }
  }

  /** `Video.find({owner}).select("_id")`: the ids of the videos `owner` owns. */
  function OwnedIds(t: seq<Doc<Videos.Video>>, owner: Id): (r: set<Id>)
    ensures forall x :: x in r <==> exists v :: v in t && v.body.owner == owner && v.id == x
  {
    set v | v in Owned(t, owner) :: v.id
  }

  /** An owner without videos has no views. */
  lemma {:induction false} NoVideosNoViews(t: seq<Doc<Videos.Video>>, owner: Id)
    ensures (forall d :: d in t ==> d.body.owner != owner) ==> OwnerViews(t, owner) == 0
  {
    if t != [] {
      assert forall d :: d in t[1..] ==> d in t;
      NoVideosNoViews(t[1..], owner);
    }
  }

  /** getChannelStats: the number of the caller's videos and their total
      views (0 when there are none), the number of subscriptions whose
      channel is the caller, and the number of likes on one of the caller's
      videos. */
  function ChannelStatsOf(videos: seq<Doc<Videos.Video>>, subscriptions: seq<Doc<Subscriptions.Subscription>>,
                          likes: seq<Doc<Likes.Like>>, caller: Id): (r: Response<ChannelStats>)
    ensures r.Ok? && r.status == 200
    ensures r.value.totalVideos == Tally(videos, (d: Doc<Videos.Video>) => d.body.owner == caller)
    ensures r.value.totalVideos == 0 <==> forall d :: d in videos ==> d.body.owner != caller
    ensures r.value.totalViews == OwnerViews(videos, caller)
    ensures (forall d :: d in videos ==> d.body.owner != caller) ==> r.value.totalViews == 0
    ensures r.value.totalSubscribers == Tally(subscriptions, (s: Doc<Subscriptions.Subscription>) => s.body.channel == caller)
    ensures r.value.totalSubscribers == 0 <==> forall s :: s in subscriptions ==> s.body.channel != caller
    ensures r.value.totalLikes ==
              Tally(likes, (l: Doc<Likes.Like>) => l.body.video.Some? && l.body.video.value in OwnedIds(videos, caller))
    ensures r.value.totalLikes == 0 <==>
              forall l :: l in likes ==> !(l.body.video.Some? && exists v :: v in videos && v.body.owner == caller && v.id == l.body.video.value)
  {
    SumOfOwnedViews(videos, caller);
    NoVideosNoViews(videos, caller);
    Ok(200, ChannelStats(
      Count(videos, (d: Doc<Videos.Video>) => d.body.owner == caller),
      SumViews(Owned(videos, caller)),
      Count(subscriptions, (s: Doc<Subscriptions.Subscription>) => s.body.channel == caller),
      Count(likes, (l: Doc<Likes.Like>) => l.body.video.Some? && l.body.video.value in OwnedIds(videos, caller))))
  }

  /** A first like on a video adds exactly one to the like total of the
      channel that owns the video and leaves every other channel's total
      as it was. */
  lemma NewLikeCountsForOwner(videos: seq<Doc<Videos.Video>>, subscriptions: seq<Doc<Subscriptions.Subscription>>,
                              likes: seq<Doc<Likes.Like>>, id: Id, liker: Id, isValidObjectId: Id -> bool,
                              now: int, channel: Id)
    requires ValidObjectId(id, isValidObjectId) && !Likes.Liked(likes, Likes.VideoTarget, id, liker)
    ensures var s := Likes.Toggle(likes, Likes.VideoTarget, id, liker, isValidObjectId, now);
            ChannelStatsOf(videos, subscriptions, s.table, channel).value.totalLikes ==
              ChannelStatsOf(videos, subscriptions, likes, channel).value.totalLikes
              + (if id in OwnedIds(videos, channel) then 1 else 0)
  {
    var nd := Doc(FreshId(likes), now, Likes.NewLike(Likes.VideoTarget, id, liker));
    assert Likes.Toggle(likes, Likes.VideoTarget, id, liker, isValidObjectId, now).table == likes + [nd];
    TallyAppend(likes, nd, (l: Doc<Likes.Like>) => l.body.video.Some? && l.body.video.value in OwnedIds(videos, channel));
  }

  /** Counting a view adds exactly one to the total views of the video's
      owner and leaves every other channel's total as it was. */
  lemma ViewAddsOneToOwner(videos: seq<Doc<Videos.Video>>, subscriptions: seq<Doc<Subscriptions.Subscription>>,
                           likes: seq<Doc<Likes.Like>>, id: Id, isValidObjectId: Id -> bool, channel: Id)
    requires Videos.View(videos, id, isValidObjectId).response.Ok?
    ensures var s := Videos.View(videos, id, isValidObjectId);
            ChannelStatsOf(s.table, subscriptions, likes, channel).value.totalViews ==
              ChannelStatsOf(videos, subscriptions, likes, channel).value.totalViews
              + (if s.response.value.body.owner == channel then 1 else 0)
  {
    var i := IndexOf(videos, id).value;
    var d := videos[i].(body := videos[i].body.(views := videos[i].body.views + 1));
    assert Videos.View(videos, id, isValidObjectId).table == videos[i := d];
    OwnerViewsReplace(videos, i, d, channel);
  }

  /** getChannelVideos: exactly the caller's videos, newest first. */
  function ChannelVideos(videos: seq<Doc<Videos.Video>>, caller: Id): (r: Response<seq<Doc<Videos.Video>>>)
    ensures r.Ok? && r.status == 200
    ensures forall d :: d in r.value <==> d in videos && d.body.owner == caller
    ensures forall d :: multiset(r.value)[d] == if d.body.owner == caller then multiset(videos)[d] else 0
    ensures forall i, j :: 0 <= i < j < |r.value| ==> r.value[i].createdAt >= r.value[j].createdAt
  {
    FilterCounts(videos, (d: Doc<Videos.Video>) => d.body.owner == caller);
    Ok(200, NewestMatching(videos, (d: Doc<Videos.Video>) => d.body.owner == caller))
  }

  /** The channel stats agree with the listings: the video count is the
      length of the caller's channel video list, and the subscriber count is
      the length of the caller's subscriber listing. */
  lemma StatsAgreeWithListings(videos: seq<Doc<Videos.Video>>, subscriptions: seq<Doc<Subscriptions.Subscription>>,
                               likes: seq<Doc<Likes.Like>>, caller: Id)
    requires !MissingParam(caller)
    ensures var stats := ChannelStatsOf(videos, subscriptions, likes, caller).value;
            && stats.totalVideos == |ChannelVideos(videos, caller).value|
            && stats.totalSubscribers == |Subscriptions.ChannelSubscribers(subscriptions, caller).value|
  {
    var p := (d: Doc<Videos.Video>) => d.body.owner == caller;
    var owned := Filter(videos, p);
    assert NewestFirst(owned) == ChannelVideos(videos, caller).value;
    assert |multiset(NewestFirst(owned))| == |multiset(owned)|;
  }

  /** The number of subscriptions whose channel is `userId`. */
  function SubscriberCount(subscriptions: seq<Doc<Subscriptions.Subscription>>, userId: Id): (n: nat)
    ensures n == Tally(subscriptions, (s: Doc<Subscriptions.Subscription>) => s.body.channel == userId)
    ensures n <= |subscriptions|
    ensures n == 0 <==> forall s :: s in subscriptions ==> s.body.channel != userId
  {
    Count(subscriptions, (s: Doc<Subscriptions.Subscription>) => s.body.channel == userId)
  }

  /** The `$lookup` of each user's subscriptions and the `$addFields` of
      their number, in user order. */
  function Creators(users: seq<Doc<User>>, subscriptions: seq<Doc<Subscriptions.Subscription>>): (r: seq<Creator>)
    ensures |r| == |users|
    ensures forall k :: 0 <= k < |r| ==>
              && r[k].id == users[k].id
              && r[k].username == users[k].body.username
              && r[k].fullName == users[k].body.fullName
              && r[k].avatar == users[k].body.avatar
              && r[k].subscriberCount == SubscriberCount(subscriptions, users[k].id)
  {
    seq(|users|, k requires 0 <= k < |users| =>
      var u := users[k];
      Creator(u.id, u.body.username, u.body.fullName, u.body.avatar, SubscriberCount(subscriptions, u.id)))
  }

  /** Every creator in a sub-multiset of `Creators(users, …)` is one of the
      users, with that user's subscriber count. */
  lemma CreatorsAreUsers(users: seq<Doc<User>>, subscriptions: seq<Doc<Subscriptions.Subscription>>, top: seq<Creator>)
    requires multiset(top) <= multiset(Creators(users, subscriptions))
    ensures forall c :: c in top ==> c.id in Ids(users) && c.subscriberCount == SubscriberCount(subscriptions, c.id)
  {
    var all := Creators(users, subscriptions);
    forall c | c in top ensures c.id in Ids(users) && c.subscriberCount == SubscriberCount(subscriptions, c.id) {
      assert c in multiset(all);
      var k :| 0 <= k < |all| && all[k] == c;
      assert users[k] in users;
    }
  }

  /** The number of views of a video, the top-videos key. */
  function Views(d: Doc<Videos.Video>): int {
    d.body.views
  }

  /** The subscriber count of a creator, the top-creators key. */
  function Subscribers(c: Creator): int {
    c.subscriberCount
  }

  /** `Video.find().sort({views: -1}).limit(5)`: at most five videos, most
      viewed first, none outranked by a video left out. */
  function TopVideos(videos: seq<Doc<Videos.Video>>): (r: seq<Doc<Videos.Video>>)
    ensures |r| == if |videos| < 5 then |videos| else 5
    ensures SortedDesc(r, Views)
    ensures multiset(r) <= multiset(videos)
    ensures forall x, y :: x in r && y in multiset(videos) - multiset(r) ==> x.body.views >= y.body.views
  {
    TopK(videos, Views, 5)
  }

  /** The creator ranking: at most five users with their subscriber counts,
      most subscribed first, none outranked by a user left out. */
  function TopCreators(users: seq<Doc<User>>, subscriptions: seq<Doc<Subscriptions.Subscription>>): (r: seq<Creator>)
    ensures |r| == if |users| < 5 then |users| else 5
    ensures SortedDesc(r, Subscribers)
    ensures multiset(r) <= multiset(Creators(users, subscriptions))
    ensures forall c :: c in r ==> c.id in Ids(users) && c.subscriberCount == SubscriberCount(subscriptions, c.id)
    ensures forall x, y :: x in r && y in multiset(Creators(users, subscriptions)) - multiset(r) ==>
              x.subscriberCount >= y.subscriberCount
  {
    var r := TopK(Creators(users, subscriptions), Subscribers, 5);
    CreatorsAreUsers(users, subscriptions, r);
    r
  }

  /** getDashboardStats: the sizes of the four collections, the top videos
      and the top creators. */
  function DashboardStatsOf(users: seq<Doc<User>>, videos: seq<Doc<Videos.Video>>, likes: seq<Doc<Likes.Like>>,
                            subscriptions: seq<Doc<Subscriptions.Subscription>>): (r: Response<DashboardStats>)
    ensures r.Ok? && r.status == 200
    ensures r.value.totalUsers == |users| && r.value.totalVideos == |videos|
    ensures r.value.totalLikes == |likes| && r.value.totalSubscriptions == |subscriptions|
    ensures |r.value.topVideos| <= 5 && |r.value.topCreators| <= 5
    ensures forall v :: v in r.value.topVideos ==> v in videos
    ensures forall c :: c in r.value.topCreators ==> c.id in Ids(users)
    ensures r.value.topVideos == TopVideos(videos) && r.value.topCreators == TopCreators(users, subscriptions)
  {
    var topVideos := TopVideos(videos);
    assert forall v :: v in topVideos ==> v in multiset(videos);
    Ok(200, DashboardStats(|users|, |videos|, |likes|, |subscriptions|, topVideos, TopCreators(users, subscriptions)))
  }
}
