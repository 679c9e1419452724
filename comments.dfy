/** The comment controller: comments on a video or on a tweet are added,
    edited and deleted (edits and deletes by their owner only), and listed
    newest first. */
module Comments {
  import opened Common
  import opened Tables
  import opened Sorting

  /** What a comment is attached to. */
  datatype On = OnVideo | OnTweet

  /** A Comment document; a comment on a tweet sets `twitter`, one on a video
      sets `video`. */
  datatype Comment = Comment(content: string, video: Option<Id>, twitter: Option<Id>, owner: Id)

  /** The comment `Comment.create` writes for a comment on `targetId`. */
  function NewComment(on: On, targetId: Id, content: string, owner: Id): (c: Comment)
    ensures c.content == content && c.owner == owner
    ensures on == OnVideo ==> c.video == Some(targetId) && c.twitter == None
    ensures on == OnTweet ==> c.twitter == Some(targetId) && c.video == None
  {
    match on
    case OnVideo => Comment(content, Some(targetId), None, owner)
    case OnTweet => Comment(content, None, Some(targetId), owner)
  }

  /** addCommentToVideo / addCommentToTwitter: 400 for a missing or malformed
      target id, then 400 for a missing or blank comment; otherwise one new
      comment owned by the caller is appended and answered with 201. */
  function Add(t: seq<Doc<Comment>>, on: On, targetId: Id, text: Option<string>, caller: Id,
                      isValidObjectId: Id -> bool, now: int): (s: Step<Comment, Doc<Comment>>)
    ensures s.response.Err? <==> !ValidObjectId(targetId, isValidObjectId) || MissingText(text)
    ensures s.response.Err? ==> s == Step(Err(400), t)
    ensures s.response.Ok? ==> && s.response.status == 201
                               && s.table == t + [s.response.value]
                               && s.response.value.id !in Ids(t)
                               && s.response.value.createdAt == now
                               && s.response.value.body == NewComment(on, targetId, text.value, caller)
    ensures UniqueIds(t) ==> UniqueIds(s.table)
  {
    if !ValidObjectId(targetId, isValidObjectId) || MissingText(text) then Step(Err(400), t)
    else
      var d := Doc(FreshId(t), now, NewComment(on, targetId, text.value, caller));
      assert UniqueIds(t) ==> UniqueIds(t + [d]) by { if UniqueIds(t) { AppendDoc(t, d); } }
      Step(Ok(201, d), t + [d])
  }

  /** The status an edit answers when the comment does not exist: 400 in
      updateCommentToVideo, 404 in updateCommentToTwitter. */
  function UpdateNotFound(on: On): nat {
    if on == OnVideo then 400 else 404
  }

  /** updateCommentToVideo / updateCommentToTwitter: 400 for a malformed id or
      a missing or blank comment; not found (400 or 404); 403 when the caller
      is not the stored owner; otherwise only `content` is replaced. */
  function Update(t: seq<Doc<Comment>>, on: On, commentId: Id, text: Option<string>, caller: Id,
                         isValidObjectId: Id -> bool): (s: Step<Comment, Doc<Comment>>)
    ensures s.response.Err? ==> s.table == t
    ensures !ValidObjectId(commentId, isValidObjectId) || MissingText(text) ==> s.response == Err(400)
    ensures ValidObjectId(commentId, isValidObjectId) && !MissingText(text) && commentId !in Ids(t) ==>
              s.response == Err(UpdateNotFound(on))
    ensures s.response == Err(403) <==>
              ValidObjectId(commentId, isValidObjectId) && !MissingText(text) && commentId in Ids(t)
              && FindById(t, commentId).value.body.owner != caller
    ensures s.response.Ok? <==>
              ValidObjectId(commentId, isValidObjectId) && !MissingText(text) && commentId in Ids(t)
              && FindById(t, commentId).value.body.owner == caller
    ensures s.response.Ok? ==>
              var stored := FindById(t, commentId).value;
              && stored.body.owner == caller
              && s.response.status == (if on == OnVideo then 200 else 201)
              && s.response.value == stored.(body := stored.body.(content := text.value))
              && |s.table| == |t|
    ensures s.response.Ok? && UniqueIds(t) ==>
              && UniqueIds(s.table)
              && forall e :: e in s.table <==> e == s.response.value || (e in t && e.id != commentId)
  {
    if !ValidObjectId(commentId, isValidObjectId) || MissingText(text) then Step(Err(400), t)
    else match IndexOf(t, commentId)
      case None => Step(Err(UpdateNotFound(on)), t)
      case Some(i) =>
        if t[i].body.owner != caller then Step(Err(403), t)
        else
          var d := t[i].(body := t[i].body.(content := text.value));
          assert UniqueIds(t) ==> UniqueIds(t[i := d]) && forall e :: e in t[i := d] <==> e == d || (e in t && e.id != commentId) by {
            if UniqueIds(t) { ReplaceDoc(t, i, d); }
          }
          Step(Ok(if on == OnVideo then 200 else 201, d), t[i := d])
  }

  /** deleteCommentToVideo / deleteCommentToTwitter (the same logic): 400 for
      a malformed id, 404 when absent, 403 when the caller is not the stored
      owner; otherwise exactly that comment is removed. */
  function Delete(t: seq<Doc<Comment>>, commentId: Id, caller: Id, isValidObjectId: Id -> bool): (s: Step<Comment, ()>)
    ensures s.response.Err? ==> s.table == t
    ensures !ValidObjectId(commentId, isValidObjectId) ==> s.response == Err(400)
    ensures ValidObjectId(commentId, isValidObjectId) && commentId !in Ids(t) ==> s.response == Err(404)
    ensures s.response == Err(403) <==>
              ValidObjectId(commentId, isValidObjectId) && commentId in Ids(t)
              && FindById(t, commentId).value.body.owner != caller
    ensures s.response.Ok? <==>
              ValidObjectId(commentId, isValidObjectId) && commentId in Ids(t)
              && FindById(t, commentId).value.body.owner == caller
    ensures s.response.Ok? ==> s.response.status == 200 && FindById(t, commentId).value.body.owner == caller
                               && |s.table| == |t| - 1
    ensures s.response.Ok? && UniqueIds(t) ==>
              && UniqueIds(s.table)
              && forall e :: e in s.table <==> e in t && e.id != commentId
  {
    if !ValidObjectId(commentId, isValidObjectId) then Step(Err(400), t)
    else match IndexOf(t, commentId)
      case None => Step(Err(404), t)
      case Some(i) =>
        if t[i].body.owner != caller then Step(Err(403), t)
        else
          assert UniqueIds(t) ==> UniqueIds(RemoveAt(t, i)) && forall e :: e in RemoveAt(t, i) <==> e in t && e.id != commentId by {
            if UniqueIds(t) { RemoveAtDoc(t, i); }
          }
          Step(Ok(200, ()), RemoveAt(t, i))
  }

  /** A comment's owner can edit it and nobody else can: user `a` comments on
      a video, user `b` is refused with 403 and changes nothing, then `a`'s
      edit is stored. */
  lemma EditByOwnerOnly(t: seq<Doc<Comment>>, videoId: Id, a: Id, b: Id, isValidObjectId: Id -> bool, now: int)
    requires UniqueIds(t) && ValidObjectId(videoId, isValidObjectId) && a != b
    requires isValidObjectId(FreshId(t))
    ensures var s1 := Add(t, OnVideo, videoId, Some("first"), a, isValidObjectId, now);
            s1.response.Ok? &&
            var id := s1.response.value.id;
            var s2 := Update(s1.table, OnVideo, id, Some("edited"), b, isValidObjectId);
            var s3 := Update(s2.table, OnVideo, id, Some("edited"), a, isValidObjectId);
            && s2 == Step(Err(403), s1.table)
            && s3.response.Ok?
            && FindById(s3.table, id).value.body.content == "edited"
  {
    assert !Blank("first") by { assert !IsJsWhitespace("first"[0]); }
    assert !Blank("edited") by { assert !IsJsWhitespace("edited"[0]); }
    var s1 := Add(t, OnVideo, videoId, Some("first"), a, isValidObjectId, now);
    var c := s1.response.value;
    FindByIdUnique(s1.table, |t|);
    var s3 := Update(s1.table, OnVideo, c.id, Some("edited"), a, isValidObjectId);
    var e := s3.response.value;
    assert e in s3.table;
    var k :| 0 <= k < |s3.table| && s3.table[k] == e;
    FindByIdUnique(s3.table, k);
  }

  /** getVideosComments: 400 without a video id; a malformed one makes the
      ObjectId constructor throw, answered 500; otherwise exactly the comments
      on that video, newest first. */
  function VideoComments(t: seq<Doc<Comment>>, videoId: Id, isValidObjectId: Id -> bool): (r: Response<seq<Doc<Comment>>>)
    ensures MissingParam(videoId) ==> r == Err(400)
    ensures !MissingParam(videoId) && !isValidObjectId(videoId) ==> r == Err(500)
    ensures r.Ok? <==> ValidObjectId(videoId, isValidObjectId)
    ensures r.Ok? ==> r.status == 200
    ensures r.Ok? ==> forall d :: d in r.value <==> d in t && d.body.video == Some(videoId)
    ensures r.Ok? ==> multiset(r.value) == multiset(Filter(t, (d: Doc<Comment>) => d.body.video == Some(videoId)))
    ensures r.Ok? ==> forall i, j :: 0 <= i < j < |r.value| ==> r.value[i].createdAt >= r.value[j].createdAt
  {
    if MissingParam(videoId) then Err(400)
    else if !isValidObjectId(videoId) then Err(500)
    else
      Ok(200, NewestMatching(t, (d: Doc<Comment>) => d.body.video == Some(videoId)))
  }

  /** getTwitterComments: 400 for a missing or malformed tweet id, otherwise
      exactly the comments on that tweet, newest first. */
  function TweetComments(t: seq<Doc<Comment>>, tweetId: Id, isValidObjectId: Id -> bool): (r: Response<seq<Doc<Comment>>>)
    ensures !ValidObjectId(tweetId, isValidObjectId) <==> r == Err(400)
    ensures r.Ok? ==> r.status == 200
    ensures r.Ok? ==> forall d :: d in r.value <==> d in t && d.body.twitter == Some(tweetId)
    ensures r.Ok? ==> multiset(r.value) == multiset(Filter(t, (d: Doc<Comment>) => d.body.twitter == Some(tweetId)))
    ensures r.Ok? ==> forall i, j :: 0 <= i < j < |r.value| ==> r.value[i].createdAt >= r.value[j].createdAt
  {
    if !ValidObjectId(tweetId, isValidObjectId) then Err(400)
    else
      Ok(200, NewestMatching(t, (d: Doc<Comment>) => d.body.twitter == Some(tweetId)))
  }

  /** getAllComments: every comment, newest first. */
  function AllComments(t: seq<Doc<Comment>>): (r: Response<seq<Doc<Comment>>>)
    ensures r.Ok? && r.status == 200
    ensures r.Ok? ==> multiset(r.value) == multiset(t)
    ensures r.Ok? ==> forall i, j :: 0 <= i < j < |r.value| ==> r.value[i].createdAt >= r.value[j].createdAt
  {
    Ok(200, NewestFirst(t))
  }

  /** The Comment collection. */
  class CommentStore {
    var comments: seq<Doc<Comment>>

    ghost predicate Valid()
      reads this
    {
      UniqueIds(comments)
    }

    constructor ()
      ensures Valid() && comments == []
    {
      comments := [];
    }

    /** addCommentToVideo (`on` = OnVideo) and addCommentToTwitter (`on` = OnTweet). */
    method AddComment(on: On, targetId: Id, text: Option<string>, caller: Id, isValidObjectId: Id -> bool, now: int)
      returns (r: Response<Doc<Comment>>)
      requires Valid()
      modifies this
      ensures Valid()
      ensures Step(r, comments) == Add(old(comments), on, targetId, text, caller, isValidObjectId, now)
    {
      if !ValidObjectId(targetId, isValidObjectId) {
        return Err(400);
      }
      if MissingText(text) {
        return Err(400);
      }
      var d := Doc(FreshId(comments), now, NewComment(on, targetId, text.value, caller));
      AppendDoc(comments, d);
      comments := comments + [d];
      r := Ok(201, d);
    }

    /** updateCommentToVideo (`on` = OnVideo) and updateCommentToTwitter (`on` = OnTweet). */
    method UpdateComment(on: On, commentId: Id, text: Option<string>, caller: Id, isValidObjectId: Id -> bool)
      returns (r: Response<Doc<Comment>>)
      requires Valid()
      modifies this
      ensures Valid()
      ensures Step(r, comments) == Update(old(comments), on, commentId, text, caller, isValidObjectId)
    {
      if !ValidObjectId(commentId, isValidObjectId) {
        return Err(400);
      }
      if MissingText(text) {
        return Err(400);
      }
      var existing := IndexOf(comments, commentId);
      if existing.None? {
        return Err(UpdateNotFound(on));
      }
      var i := existing.value;
      if comments[i].body.owner != caller {
        return Err(403);
      }
      var d := comments[i].(body := comments[i].body.(content := text.value));
      ReplaceDoc(comments, i, d);
      comments := comments[i := d];
      r := Ok(if on == OnVideo then 200 else 201, d);
    }

    /** deleteCommentToVideo and deleteCommentToTwitter. */
    method DeleteComment(commentId: Id, caller: Id, isValidObjectId: Id -> bool) returns (r: Response<()>)
      requires Valid()
      modifies this
      ensures Valid()
      ensures Step(r, comments) == Delete(old(comments), commentId, caller, isValidObjectId)
    {
      if !ValidObjectId(commentId, isValidObjectId) {
        return Err(400);
      }
      var existing := IndexOf(comments, commentId);
      if existing.None? {
        return Err(404);
      }
      var i := existing.value;
      if comments[i].body.owner != caller {
        return Err(403);
      }
      RemoveAtDoc(comments, i);
      comments := RemoveAt(comments, i);
      r := Ok(200, ());
    }
  }
}
