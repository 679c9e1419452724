/** The like controller: three toggles that flip whether the caller likes a
    video, a comment or a tweet, and the queries over the Like collection. */
module Likes {
  import opened Common
  import opened Tables

  /** The reference field a toggle works through. */
  datatype Target = VideoTarget | CommentTarget | TweetTarget

  /** A Like document: the liked video, comment or tweet, and the liker. */
  datatype Like = Like(video: Option<Id>, comment: Option<Id>, tweet: Option<Id>, likedBy: Id)

  /** The value of the reference field `f` of a like. */
  function TargetOf(l: Like, f: Target): Option<Id> {
    match f
    case VideoTarget => l.video
    case CommentTarget => l.comment
    case TweetTarget => l.tweet
  }

  /** The toggle's lookup `{<f>: id, likedBy: caller}`. */
  predicate Matches(d: Doc<Like>, f: Target, id: Id, caller: Id) {
    TargetOf(d.body, f) == Some(id) && d.body.likedBy == caller
  }

  /** The caller likes target `id` through field `f`. */
  ghost predicate Liked(t: seq<Doc<Like>>, f: Target, id: Id, caller: Id) {
    exists d :: d in t && Matches(d, f, id, caller)
  }

  /** The invariant the toggles keep: at most one like per (field, target, liker). */
  ghost predicate OneLikePerPair(t: seq<Doc<Like>>) {
    forall i, j, f, id, caller :: 0 <= i < j < |t| && Matches(t[i], f, id, caller) ==> !Matches(t[j], f, id, caller)
  }

  /** The document `Like.create({<f>: id, likedBy: caller})` writes. */
  function NewLike(f: Target, id: Id, caller: Id): (l: Like)
    ensures TargetOf(l, f) == Some(id) && l.likedBy == caller
    ensures forall g :: g != f ==> TargetOf(l, g) == None
  {
    match f
    case VideoTarget => Like(Some(id), None, None, caller)
    case CommentTarget => Like(None, Some(id), None, caller)
    case TweetTarget => Like(None, None, Some(id), caller)
  }

  /** A toggle on field `f` (toggleVideoLikeAndUnlike, toggleVideoCommentLikeAndUnlike,
      toogleVideoTweetLikeAndUnlike): 400 for a missing or malformed id;
      otherwise the existing like of (f, id, caller) is deleted and `isLiked`
      is false, or a new one is inserted and `isLiked` is true. */
  function Toggle(t: seq<Doc<Like>>, f: Target, id: Id, caller: Id,
                  isValidObjectId: Id -> bool, now: int): (s: Step<Like, bool>)
    ensures !ValidObjectId(id, isValidObjectId) ==> s == Step(Err(400), t)
    ensures ValidObjectId(id, isValidObjectId) ==> s.response == Ok(200, !Liked(t, f, id, caller))
    ensures ValidObjectId(id, isValidObjectId) && !Liked(t, f, id, caller) ==>
              s.table == t + [Doc(FreshId(t), now, NewLike(f, id, caller))]
    ensures ValidObjectId(id, isValidObjectId) && Liked(t, f, id, caller) ==> |s.table| == |t| - 1
    ensures forall d :: !Matches(d, f, id, caller) ==> (d in s.table <==> d in t)
    ensures UniqueIds(t) ==> UniqueIds(s.table)
  {
    if !ValidObjectId(id, isValidObjectId) then Step(Err(400), t)
    else match FindFirst(t, (d: Doc<Like>) => Matches(d, f, id, caller))
      case Some(i) =>
        assert t[i] in t;
        var rest := RemoveAt(t, i);
        assert forall d :: d in rest <==> d in multiset(rest);
        assert forall d :: d != t[i] ==> (d in rest <==> d in t) by {
          forall d | d != t[i] ensures d in rest <==> d in t {
            assert multiset(rest)[d] == multiset(t)[d];
          }
        }
        assert UniqueIds(t) ==> UniqueIds(rest) by { if UniqueIds(t) { RemoveAtDoc(t, i); } }
        Step(Ok(200, false), rest)
      case None =>
        var d := Doc(FreshId(t), now, NewLike(f, id, caller));
        assert UniqueIds(t) ==> UniqueIds(t + [d]) by { if UniqueIds(t) { AppendDoc(t, d); } }
        Step(Ok(200, true), t + [d])
  }

  /** Removing the first like of the caller on the target keeps one like
      per pair, and leaves none of the caller on the target. */
  lemma RemoveMatchFlips(t: seq<Doc<Like>>, f: Target, id: Id, caller: Id, i: nat)
    requires OneLikePerPair(t) && i < |t| && Matches(t[i], f, id, caller)
    requires forall j :: 0 <= j < i ==> !Matches(t[j], f, id, caller)
    ensures OneLikePerPair(RemoveAt(t, i)) && !Liked(RemoveAt(t, i), f, id, caller)
  {
    var s := RemoveAt(t, i);
    assert s == t[..i] + t[i + 1..];
    assert forall j :: 0 <= j < i ==> s[j] == t[j];
    assert forall j :: i <= j < |s| ==> s[j] == t[j + 1];
    forall d | d in s ensures !Matches(d, f, id, caller) {
      var j :| 0 <= j < |s| && s[j] == d;
    }
  }

  /** Appending the caller's like on a target the caller did not like keeps
      one like per pair, and makes the caller like it. */
  lemma AppendNewFlips(t: seq<Doc<Like>>, f: Target, id: Id, caller: Id, nd: Doc<Like>)
    requires OneLikePerPair(t) && !Liked(t, f, id, caller) && nd.body == NewLike(f, id, caller)
    ensures OneLikePerPair(t + [nd]) && Liked(t + [nd], f, id, caller)
  {
    var s := t + [nd];
    assert nd in s;
    forall i, j, g, x, c | 0 <= i < j < |s| && Matches(s[i], g, x, c) ensures !Matches(s[j], g, x, c) {
      if j == |t| {
        assert s[i] == t[i] && t[i] in t;
        assert Matches(nd, g, x, c) ==> g == f && x == id && c == caller by {
          if g != f { assert TargetOf(nd.body, g) == None; }
        }
      }
    }
  }

  /** The toggle keeps the one-like-per-pair invariant, and flips whether the
      caller likes the target. */
  lemma ToggleFlips(t: seq<Doc<Like>>, f: Target, id: Id, caller: Id,
                    isValidObjectId: Id -> bool, now: int)
    requires OneLikePerPair(t) && UniqueIds(t) && ValidObjectId(id, isValidObjectId)
    ensures OneLikePerPair(Toggle(t, f, id, caller, isValidObjectId, now).table)
    ensures Liked(Toggle(t, f, id, caller, isValidObjectId, now).table, f, id, caller) == !Liked(t, f, id, caller)
  {
    var s := Toggle(t, f, id, caller, isValidObjectId, now).table;
    var p := (d: Doc<Like>) => Matches(d, f, id, caller);
    match FindFirst(t, p)
    case Some(i) =>
      assert s == RemoveAt(t, i);
      assert t[i] in t;
      RemoveMatchFlips(t, f, id, caller, i);
    case None =>
      var nd := Doc(FreshId(t), now, NewLike(f, id, caller));
      assert s == t + [nd];
      assert !Liked(t, f, id, caller) by {
        forall d | d in t ensures !Matches(d, f, id, caller) {
          var j :| 0 <= j < |t| && t[j] == d;
          assert !p(t[j]);
        }
      }
      AppendNewFlips(t, f, id, caller, nd);
  }

  /** Toggling twice gives back the caller's like state; when there was no
      like, the second toggle also gives back the collection itself. */
  lemma ToggleTwice(t: seq<Doc<Like>>, f: Target, id: Id, caller: Id,
                    isValidObjectId: Id -> bool, now1: int, now2: int)
    requires OneLikePerPair(t) && UniqueIds(t) && ValidObjectId(id, isValidObjectId)
    ensures var s1 := Toggle(t, f, id, caller, isValidObjectId, now1);
            var s2 := Toggle(s1.table, f, id, caller, isValidObjectId, now2);
            && s2.response.value == !s1.response.value
            && Liked(s2.table, f, id, caller) == Liked(t, f, id, caller)
            && (!Liked(t, f, id, caller) ==> s2.table == t)
  {
    var s1 := Toggle(t, f, id, caller, isValidObjectId, now1);
    ToggleFlips(t, f, id, caller, isValidObjectId, now1);
    ToggleFlips(s1.table, f, id, caller, isValidObjectId, now2);
    if !Liked(t, f, id, caller) {
      var nd := Doc(FreshId(t), now1, NewLike(f, id, caller));
      var p := (d: Doc<Like>) => Matches(d, f, id, caller);
      assert s1.table == t + [nd];
      assert forall j :: 0 <= j < |t| ==> !p(s1.table[j]) by {
        forall j | 0 <= j < |t| ensures !p(s1.table[j]) { assert s1.table[j] in t; }
      }
      assert p(s1.table[|t|]);
      assert FindFirst(s1.table, p) == Some(|t|);
      assert RemoveAt(s1.table, |t|) == t;
    }
  }

  /** getVideoLikedByUser: the caller's video likes; the handler answers only
      the first of them (`likedVideos[0]`), undefined when there is none. */
  function VideoLikedByUser(t: seq<Doc<Like>>, caller: Id): (r: Response<Option<Doc<Like>>>)
    ensures r.status == 200
    ensures r.Ok? && (r.value.None? <==> forall d :: d in t ==> !(d.body.video.Some? && d.body.likedBy == caller))
    ensures r.Ok? && r.value.Some? ==> r.value.value in t && r.value.value.body.video.Some?
                                       && r.value.value.body.likedBy == caller
  {
    var liked := Filter(t, (d: Doc<Like>) => d.body.video.Some? && d.body.likedBy == caller);
    assert forall d :: d in liked <==> d in t && d.body.video.Some? && d.body.likedBy == caller;
    assert liked != [] ==> liked[0] in liked;
    Ok(200, if liked == [] then None else Some(liked[0]))
  }

  /** getAllLikedVideos / getAllLikeComments / getAllLikeTweets: the first like
      (of anyone) with field `f` present, undefined when there is none. */
  function FirstLikeOn(t: seq<Doc<Like>>, f: Target): (r: Response<Option<Doc<Like>>>)
    ensures r.status == 200
    ensures r.Ok? && (r.value.None? <==> forall d :: d in t ==> TargetOf(d.body, f).None?)
    ensures r.Ok? && r.value.Some? ==> r.value.value in t && TargetOf(r.value.value.body, f).Some?
  {
    var liked := Filter(t, (d: Doc<Like>) => TargetOf(d.body, f).Some?);
    assert forall d :: d in liked <==> d in t && TargetOf(d.body, f).Some?;
    assert liked != [] ==> liked[0] in liked;
    Ok(200, if liked == [] then None else Some(liked[0]))
  }

  /** getCommentLikeByUser (`f` = comment) and getTweetLikeByUser (`f` = tweet):
      400 for a missing or malformed user id, otherwise exactly the likes by
      that user with field `f` present, in collection order. */
  function LikesByUser(t: seq<Doc<Like>>, f: Target, userId: Id, isValidObjectId: Id -> bool): (r: Response<seq<Doc<Like>>>)
    ensures !ValidObjectId(userId, isValidObjectId) <==> r == Err(400)
    ensures r.Ok? ==> r.status == 200
    ensures r.Ok? ==> forall d :: d in r.value <==> d in t && d.body.likedBy == userId && TargetOf(d.body, f).Some?
    ensures r.Ok? ==> forall d :: multiset(r.value)[d] ==
                        if d.body.likedBy == userId && TargetOf(d.body, f).Some? then multiset(t)[d] else 0
  {
    if !ValidObjectId(userId, isValidObjectId) then Err(400)
    else
      var p := (d: Doc<Like>) => d.body.likedBy == userId && TargetOf(d.body, f).Some?;
      FilterCounts(t, p);
      Ok(200, Filter(t, p))
  }

  /** The Like collection. */
  class LikeStore {
    var likes: seq<Doc<Like>>

    ghost predicate Valid()
      reads this
    {
      UniqueIds(likes) && OneLikePerPair(likes)
    }

    constructor ()
      ensures Valid() && likes == []
    {
      likes := [];
    }

    /** One toggle request: validate, look up, then delete or insert. */
    method ToggleOn(f: Target, id: Id, caller: Id, isValidObjectId: Id -> bool, now: int)
      returns (r: Response<bool>)
      requires Valid()
      modifies this
      ensures Valid()
      ensures Step(r, likes) == Toggle(old(likes), f, id, caller, isValidObjectId, now)
    {
      if !ValidObjectId(id, isValidObjectId) {
        return Err(400);
      }
      ToggleFlips(likes, f, id, caller, isValidObjectId, now);
      var existing := FindFirst(likes, (d: Doc<Like>) => Matches(d, f, id, caller));
      if existing.Some? {
        likes := RemoveAt(likes, existing.value);
        r := Ok(200, false);
      } else {
        likes := likes + [Doc(FreshId(likes), now, NewLike(f, id, caller))];
        r := Ok(200, true);
      }
    }

    /** toggleVideoLikeAndUnlike. */
    method ToggleVideoLike(id: Id, caller: Id, isValidObjectId: Id -> bool, now: int) returns (r: Response<bool>)
      requires Valid()
      modifies this
      ensures Valid()
      ensures Step(r, likes) == Toggle(old(likes), VideoTarget, id, caller, isValidObjectId, now)
    {
      r := ToggleOn(VideoTarget, id, caller, isValidObjectId, now);
    }

    /** toggleVideoCommentLikeAndUnlike. */
    method ToggleCommentLike(id: Id, caller: Id, isValidObjectId: Id -> bool, now: int) returns (r: Response<bool>)
      requires Valid()
      modifies this
      ensures Valid()
      ensures Step(r, likes) == Toggle(old(likes), CommentTarget, id, caller, isValidObjectId, now)
    {
      r := ToggleOn(CommentTarget, id, caller, isValidObjectId, now);
    }

    /** toogleVideoTweetLikeAndUnlike. */
    method ToggleTweetLike(id: Id, caller: Id, isValidObjectId: Id -> bool, now: int) returns (r: Response<bool>)
      requires Valid()
      modifies this
      ensures Valid()
      ensures Step(r, likes) == Toggle(old(likes), TweetTarget, id, caller, isValidObjectId, now)
    {
      r := ToggleOn(TweetTarget, id, caller, isValidObjectId, now);
    }
  }
}
