/** The tweet controller: tweets are created by the caller, edited and
    deleted by their owner only, and listed. The delete handler as written
    removes the wrong record; the corrected delete sits beside it. */
module Tweets {
  import opened Common
  import opened Tables
  import opened Sorting

  /** A Tweet document. */
  datatype Tweet = Tweet(content: string, owner: Id)

  /** getAllTweets: 404 when there are no tweets, otherwise all of them,
      newest first. */
  function AllTweets(t: seq<Doc<Tweet>>): (r: Response<seq<Doc<Tweet>>>)
    ensures r.Err? <==> t == []
    ensures r.Err? ==> r.status == 404
    ensures r.Ok? ==> r.status == 200 && multiset(r.value) == multiset(t)
    ensures r.Ok? ==> forall i, j :: 0 <= i < j < |r.value| ==> r.value[i].createdAt >= r.value[j].createdAt
  {
    if t == [] then Err(404) else Ok(200, NewestFirst(t))
  }

  /** createTweet: 400 for missing or blank content, otherwise one new tweet
      owned by the caller is appended and answered with 201. */
  function Create(t: seq<Doc<Tweet>>, content: Option<string>, caller: Id, now: int): (s: Step<Tweet, Doc<Tweet>>)
    ensures s.response.Err? <==> MissingText(content)
    ensures s.response.Err? ==> s == Step(Err(400), t)
    ensures s.response.Ok? ==> && s.response.status == 201
                               && s.table == t + [s.response.value]
                               && s.response.value.id !in Ids(t)
                               && s.response.value.body == Tweet(content.value, caller)
                               && s.response.value.createdAt == now
    ensures UniqueIds(t) ==> UniqueIds(s.table)
  {
    if MissingText(content) then Step(Err(400), t)
    else
      var d := Doc(FreshId(t), now, Tweet(content.value, caller));
      assert UniqueIds(t) ==> UniqueIds(t + [d]) by { if UniqueIds(t) { AppendDoc(t, d); } }
      Step(Ok(201, d), t + [d])
  }

  /** updateTweet: 400 for missing or blank content or a malformed id; a tweet
      that does not exist is 400; 403 when the caller is not its owner;
      otherwise only its content is replaced. */
  function Update(t: seq<Doc<Tweet>>, id: Id, content: Option<string>, caller: Id, isValidObjectId: Id -> bool): (s: Step<Tweet, Doc<Tweet>>)
    ensures s.response.Err? ==> s.table == t
    ensures MissingText(content) || !ValidObjectId(id, isValidObjectId) || id !in Ids(t) ==> s.response == Err(400)
    ensures s.response == Err(403) <==>
              !MissingText(content) && ValidObjectId(id, isValidObjectId) && id in Ids(t)
              && FindById(t, id).value.body.owner != caller
    ensures s.response.Ok? <==>
              !MissingText(content) && ValidObjectId(id, isValidObjectId) && id in Ids(t)
              && FindById(t, id).value.body.owner == caller
    ensures s.response.Ok? ==>
              var stored := FindById(t, id).value;
              && stored.body.owner == caller
              && s.response == Ok(200, stored.(body := stored.body.(content := content.value)))
              && |s.table| == |t|
    ensures s.response.Ok? && UniqueIds(t) ==>
              && UniqueIds(s.table)
              && forall e :: e in s.table <==> e == s.response.value || (e in t && e.id != id)
  {
    if MissingText(content) || !ValidObjectId(id, isValidObjectId) then Step(Err(400), t)
    else match IndexOf(t, id)
      case None => Step(Err(400), t)
      case Some(i) =>
        if t[i].body.owner != caller then Step(Err(403), t)
        else
          var d := t[i].(body := t[i].body.(content := content.value));
          assert UniqueIds(t) ==> UniqueIds(t[i := d]) && forall e :: e in t[i := d] <==> e == d || (e in t && e.id != id) by {
            if UniqueIds(t) { ReplaceDoc(t, i, d); }
          }
          Step(Ok(200, d), t[i := d])
  }

  /** The delete step shared by both versions of deleteTweet: remove the
      document whose id is `key`, or fail with 500 when there is none. */
  function DeleteByKey(t: seq<Doc<Tweet>>, key: Id): (s: Step<Tweet, ()>)
    ensures s.response.Ok? <==> key in Ids(t)
    ensures s.response.Err? ==> s == Step(Err(500), t)
    ensures s.response.Ok? ==> s.response.status == 200 && |s.table| == |t| - 1
    ensures s.response.Ok? && UniqueIds(t) ==>
              && UniqueIds(s.table)
              && forall e :: e in s.table <==> e in t && e.id != key
  {
    match IndexOf(t, key)
    case None => Step(Err(500), t)
    case Some(i) =>
      assert UniqueIds(t) ==> UniqueIds(RemoveAt(t, i)) && forall e :: e in RemoveAt(t, i) <==> e in t && e.id != key by {
        if UniqueIds(t) { RemoveAtDoc(t, i); }
      }
      Step(Ok(200, ()), RemoveAt(t, i))
  }

  /** deleteTweet as written: after checking the tweet `id` (400 malformed,
      400 absent, 403 not the owner) it deletes the document whose id is the
      CALLER's id, so the tweet survives and, with no such document, the
      answer is 500. */
  function Delete(t: seq<Doc<Tweet>>, id: Id, caller: Id, isValidObjectId: Id -> bool): (s: Step<Tweet, ()>)
    ensures !ValidObjectId(id, isValidObjectId) || id !in Ids(t) ==> s == Step(Err(400), t)
    ensures s.response == Err(403) <==>
              ValidObjectId(id, isValidObjectId) && id in Ids(t) && FindById(t, id).value.body.owner != caller
    ensures ValidObjectId(id, isValidObjectId) && id in Ids(t) && FindById(t, id).value.body.owner == caller ==>
              s == DeleteByKey(t, caller)
    ensures s.response.Err? ==> s.table == t
  {
    if !ValidObjectId(id, isValidObjectId) then Step(Err(400), t)
    else match FindById(t, id)
      case None => Step(Err(400), t)
      case Some(d) =>
        if d.body.owner != caller then Step(Err(403), t)
        else DeleteByKey(t, caller)
  }

  /** The input that shows it: user "u1" deletes their own tweet "t1"; no
      document has the id "u1", so the answer is 500 and the tweet is kept. */
  lemma DeleteOwnTweetFails()
    ensures var t := [Doc("t1", 0, Tweet("hello", "u1"))];
            Delete(t, "t1", "u1", (x: Id) => true) == Step(Err(500), t)
  {
    var t := [Doc("t1", 0, Tweet("hello", "u1"))];
    assert "u1" != "t1" by { assert "u1"[0] != "t1"[0]; }
    assert "u1" !in Ids(t);
  }

  /** As written, deleting a tweet whose id differs from the caller's never
      removes that tweet, whatever the answer. */
  lemma DeleteKeepsTweet(t: seq<Doc<Tweet>>, id: Id, caller: Id, isValidObjectId: Id -> bool)
    requires UniqueIds(t) && id in Ids(t) && id != caller
    ensures id in Ids(Delete(t, id, caller, isValidObjectId).table)
  {
    var s := Delete(t, id, caller, isValidObjectId);
    var d := FindById(t, id).value;
    if s.response.Ok? {
      assert d in s.table;
    }
  }

  /** deleteTweet as intended: the checks of the handler, then the tweet `id`
      itself is removed. */
  function DeleteById(t: seq<Doc<Tweet>>, id: Id, caller: Id, isValidObjectId: Id -> bool): (s: Step<Tweet, ()>)
    ensures s.response.Err? ==> s.table == t
    ensures !ValidObjectId(id, isValidObjectId) || id !in Ids(t) ==> s.response == Err(400)
    ensures s.response == Err(403) <==>
              ValidObjectId(id, isValidObjectId) && id in Ids(t) && FindById(t, id).value.body.owner != caller
    ensures s.response.Ok? <==>
              ValidObjectId(id, isValidObjectId) && id in Ids(t) && FindById(t, id).value.body.owner == caller
    ensures s.response.Ok? ==> s.response.status == 200 && |s.table| == |t| - 1
    ensures s.response.Ok? && UniqueIds(t) ==>
              && UniqueIds(s.table)
              && id !in Ids(s.table)
              && forall e :: e in s.table <==> e in t && e.id != id
  {
    if !ValidObjectId(id, isValidObjectId) then Step(Err(400), t)
    else match FindById(t, id)
      case None => Step(Err(400), t)
      case Some(d) =>
        if d.body.owner != caller then Step(Err(403), t)
        else
          var s := DeleteByKey(t, id);
          assert UniqueIds(t) ==> id !in Ids(s.table) by {
            if UniqueIds(t) {
              forall e | e in s.table ensures e.id != id { }
            }
          }
          s
  }

  /** The owner of a tweet can always delete it with the corrected handler,
      and afterwards it can no longer be found. */
  lemma OwnerDeletesOwnTweet(t: seq<Doc<Tweet>>, i: nat, isValidObjectId: Id -> bool)
    requires UniqueIds(t) && i < |t| && ValidObjectId(t[i].id, isValidObjectId)
    ensures var s := DeleteById(t, t[i].id, t[i].body.owner, isValidObjectId);
            && s.response == Ok(200, ())
            && FindById(s.table, t[i].id) == None
  {
    FindByIdUnique(t, i);
  }

  /** getUserTweet: 400 for a missing or malformed user id; otherwise the
      tweets owned by that user, kept only when the user exists (the user
      lookup is unwound, which drops tweets without a matching user). */
  function UserTweets(t: seq<Doc<Tweet>>, userId: Id, users: set<Id>, isValidObjectId: Id -> bool): (r: Response<seq<Doc<Tweet>>>)
    ensures !ValidObjectId(userId, isValidObjectId) <==> r == Err(400)
    ensures r.Ok? ==> r.status == 200
    ensures r.Ok? ==> forall d :: d in r.value <==> d in t && d.body.owner == userId && userId in users
    ensures r.Ok? ==> forall d :: multiset(r.value)[d] ==
                        if d.body.owner == userId && userId in users then multiset(t)[d] else 0
  {
    if !ValidObjectId(userId, isValidObjectId) then Err(400)
    else if userId !in users then Ok(200, [])
    else
      FilterCounts(t, (d: Doc<Tweet>) => d.body.owner == userId);
      Ok(200, Filter(t, (d: Doc<Tweet>) => d.body.owner == userId))
  }

  /** The Tweet collection. */
  class TweetStore {
    var tweets: seq<Doc<Tweet>>

    ghost predicate Valid()
      reads this
    {
      UniqueIds(tweets)
    }

    constructor ()
      ensures Valid() && tweets == []
    {
      tweets := [];
    }

    /** createTweet. */
    method CreateTweet(content: Option<string>, caller: Id, now: int) returns (r: Response<Doc<Tweet>>)
      requires Valid()
      modifies this
      ensures Valid()
      ensures Step(r, tweets) == Create(old(tweets), content, caller, now)
    {
      if MissingText(content) {
        return Err(400);
      }
      var d := Doc(FreshId(tweets), now, Tweet(content.value, caller));
      AppendDoc(tweets, d);
      tweets := tweets + [d];
      r := Ok(201, d);
    }

    /** updateTweet. */
    method UpdateTweet(id: Id, content: Option<string>, caller: Id, isValidObjectId: Id -> bool) returns (r: Response<Doc<Tweet>>)
      requires Valid()
      modifies this
      ensures Valid()
      ensures Step(r, tweets) == Update(old(tweets), id, content, caller, isValidObjectId)
    {
      if MissingText(content) || !ValidObjectId(id, isValidObjectId) {
        return Err(400);
      }
      var existing := IndexOf(tweets, id);
      if existing.None? {
        return Err(400);
      }
      var i := existing.value;
      if tweets[i].body.owner != caller {
        return Err(403);
      }
      var d := tweets[i].(body := tweets[i].body.(content := content.value));
      ReplaceDoc(tweets, i, d);
      tweets := tweets[i := d];
      r := Ok(200, d);
    }

    /** deleteTweet as written: the delete is keyed by the caller's id. */
    method DeleteTweetAsWritten(id: Id, caller: Id, isValidObjectId: Id -> bool) returns (r: Response<()>)
      requires Valid()
      modifies this
      ensures Valid()
      ensures Step(r, tweets) == Delete(old(tweets), id, caller, isValidObjectId)
    {
      if !ValidObjectId(id, isValidObjectId) {
        return Err(400);
      }
      var found := FindById(tweets, id);
      if found.None? {
        return Err(400);
      }
      if found.value.body.owner != caller {
        return Err(403);
      }
      var keyed := IndexOf(tweets, caller);
      if keyed.None? {
        return Err(500);
      }
      RemoveAtDoc(tweets, keyed.value);
      tweets := RemoveAt(tweets, keyed.value);
      r := Ok(200, ());
    }

    /** deleteTweet, with the tweet itself removed as intended. */
    method DeleteTweet(id: Id, caller: Id, isValidObjectId: Id -> bool) returns (r: Response<()>)
      requires Valid()
      modifies this
      ensures Valid()
      ensures Step(r, tweets) == DeleteById(old(tweets), id, caller, isValidObjectId)
    {
      if !ValidObjectId(id, isValidObjectId) {
        return Err(400);
      }
      var found := FindById(tweets, id);
      if found.None? {
        return Err(400);
      }
      if found.value.body.owner != caller {
        return Err(403);
      }
      var existing := IndexOf(tweets, id);
      RemoveAtDoc(tweets, existing.value);
      tweets := RemoveAt(tweets, existing.value);
      r := Ok(200, ());
    }
  }
}
