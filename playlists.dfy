/** The playlist controller: playlists are created, read, edited, deleted,
    and videos are added to (`$addToSet`) and removed from (`$pull`) a
    playlist's `videos` list. A non-empty id that is not a well-formed
    ObjectId makes the store's id cast throw, which the error handler answers
    with 500. */
module Playlists {
  import opened Common
  import opened Tables

  /** A Playlist document. */
  datatype Playlist = Playlist(name: string, description: string, owner: Id, videos: seq<Id>)

  /** No video id occurs twice. */
  ghost predicate NoDuplicates(v: seq<Id>) {
    forall i, j :: 0 <= i < j < |v| ==> v[i] != v[j]
  }

  /** `$addToSet: {videos: x}`: append `x` unless it is already a member. */
  function AddToSet(v: seq<Id>, x: Id): (r: seq<Id>)
    ensures forall y :: y in r <==> y in v || y == x
    ensures x in v ==> r == v
    ensures x !in v ==> r == v + [x]
    ensures NoDuplicates(v) ==> NoDuplicates(r)
  {
    if x in v then v else v + [x]
  }

  /** Adding a member a second time leaves the list as the first add left it. */
  lemma AddToSetIdempotent(v: seq<Id>, x: Id)
    ensures AddToSet(AddToSet(v, x), x) == AddToSet(v, x)
  {
  }

  /** `$pull: {videos: x}`: drop every occurrence of `x`, keeping the rest in
      order. */
  function Pull(v: seq<Id>, x: Id): (r: seq<Id>)
    ensures forall y :: y in r <==> y in v && y != x
    ensures |r| <= |v|
  {
    Filter(v, (y: Id) => y != x)
  }

  /** `$pull` removes every occurrence of `x` and keeps every other entry as
      often as it was there. */
  lemma {:induction false} PullCounts(v: seq<Id>, x: Id)
    ensures multiset(Pull(v, x))[x] == 0
    ensures forall y :: y != x ==> multiset(Pull(v, x))[y] == multiset(v)[y]
  {
    if v != [] {
      PullCounts(v[1..], x);
      assert v == [v[0]] + v[1..];
      assert Pull(v, x) == (if v[0] != x then [v[0]] else []) + Pull(v[1..], x);
    }
  }

  /** `$pull` keeps the order: pulling from a concatenation is pulling from
      each part; and a list without `x` is left unchanged. */
  lemma PullKeepsOrder(a: seq<Id>, b: seq<Id>, x: Id)
    ensures Pull(a + b, x) == Pull(a, x) + Pull(b, x)
    ensures x !in a ==> Pull(a, x) == a
  {
    FilterConcat(a, b, (y: Id) => y != x);
    if x !in a {
      FilterAll(a, (y: Id) => y != x);
    }
  }

  /** `$pull` keeps a duplicate-free list duplicate-free. */
  lemma {:induction false} PullNoDuplicates(v: seq<Id>, x: Id)
    requires NoDuplicates(v)
    ensures NoDuplicates(Pull(v, x))
  {
    if v != [] {
      PullNoDuplicates(v[1..], x);
      var rest := Pull(v[1..], x);
      assert v == [v[0]] + v[1..];
      assert Pull(v, x) == (if v[0] != x then [v[0]] else []) + rest;
      assert v[0] !in v[1..];
      assert v[0] !in rest;
    }
  }

  /** Pulling what was just added gives the list as if it had been pulled
      without the add. */
  lemma PullAfterAdd(v: seq<Id>, x: Id)
    ensures Pull(AddToSet(v, x), x) == Pull(v, x)
  {
    if x !in v {
      PullKeepsOrder(v, [x], x);
      assert Pull([x], x) == [];
    }
  }

  /** createPlaylist: 400 unless both name and description are given, 400
      without an owner; otherwise an empty playlist owned by the caller is
      appended and answered with 201. */
  function Create(t: seq<Doc<Playlist>>, name: Option<string>, description: Option<string>, caller: Id, now: int): (s: Step<Playlist, Doc<Playlist>>)
    ensures s.response.Err? <==> Absent(name) || Absent(description) || MissingParam(caller)
    ensures s.response.Err? ==> s == Step(Err(400), t)
    ensures s.response.Ok? ==> && s.response.status == 201
                               && s.table == t + [s.response.value]
                               && s.response.value.id !in Ids(t)
                               && s.response.value.body == Playlist(name.value, description.value, caller, [])
    ensures UniqueIds(t) ==> UniqueIds(s.table)
  {
    if Absent(name) || Absent(description) || MissingParam(caller) then Step(Err(400), t)
    else
      var d := Doc(FreshId(t), now, Playlist(name.value, description.value, caller, []));
      assert UniqueIds(t) ==> UniqueIds(t + [d]) by { if UniqueIds(t) { AppendDoc(t, d); } }
      Step(Ok(201, d), t + [d])
  }

  /** getPlaylistById: 400 without an id, 500 for a malformed one, 404 when
      absent, otherwise the playlist. */
  function PlaylistById(t: seq<Doc<Playlist>>, playlistId: Id, isValidObjectId: Id -> bool): (r: Response<Doc<Playlist>>)
    ensures MissingParam(playlistId) ==> r == Err(400)
    ensures !MissingParam(playlistId) && !isValidObjectId(playlistId) ==> r == Err(500)
    ensures ValidObjectId(playlistId, isValidObjectId) && playlistId !in Ids(t) ==> r == Err(404)
    ensures r.Ok? <==> ValidObjectId(playlistId, isValidObjectId) && playlistId in Ids(t)
    ensures r.Ok? ==> r.status == 200 && r.value in t && r.value.id == playlistId
  {
    if MissingParam(playlistId) then Err(400)
    else if !isValidObjectId(playlistId) then Err(500)
    else match FindById(t, playlistId)
      case None => Err(404)
      case Some(d) => Ok(200, d)
  }

  /** getUserPlaylists: 400 without a user id, 500 for a malformed one,
      otherwise exactly that user's playlists, in collection order. */
  function UserPlaylists(t: seq<Doc<Playlist>>, userId: Id, isValidObjectId: Id -> bool): (r: Response<seq<Doc<Playlist>>>)
    ensures MissingParam(userId) ==> r == Err(400)
    ensures !MissingParam(userId) && !isValidObjectId(userId) ==> r == Err(500)
    ensures r.Ok? <==> ValidObjectId(userId, isValidObjectId)
    ensures r.Ok? ==> r.status == 200 && forall d :: d in r.value <==> d in t && d.body.owner == userId
    ensures r.Ok? ==> forall d :: multiset(r.value)[d] == if d.body.owner == userId then multiset(t)[d] else 0
  {
    if MissingParam(userId) then Err(400)
    else if !isValidObjectId(userId) then Err(500)
    else
      FilterCounts(t, (d: Doc<Playlist>) => d.body.owner == userId);
      Ok(200, Filter(t, (d: Doc<Playlist>) => d.body.owner == userId))
  }

  /** The playlist with `name` and `description` set as `$set` sets them: a
      field that was not sent keeps its value, a field that was sent (even
      empty) replaces it. */
  function Edited(p: Playlist, name: Option<string>, description: Option<string>): (q: Playlist)
    ensures q.owner == p.owner && q.videos == p.videos
    ensures q.name == if name.Some? then name.value else p.name
    ensures q.description == if description.Some? then description.value else p.description
  {
    p.(name := if name.Some? then name.value else p.name,
       description := if description.Some? then description.value else p.description)
  }

  /** updatePlaylist: 400 only when neither name nor description is given,
      then 400 without an id, 500 for a malformed id, 404 when absent;
      otherwise the fields are set. Anyone may edit any playlist: the handler
      makes no ownership check. */
  function Update(t: seq<Doc<Playlist>>, playlistId: Id, name: Option<string>, description: Option<string>,
                  isValidObjectId: Id -> bool): (s: Step<Playlist, Doc<Playlist>>)
    ensures s.response.Err? ==> s.table == t
    ensures (Absent(name) && Absent(description)) || MissingParam(playlistId) ==> s.response == Err(400)
    ensures !(Absent(name) && Absent(description)) && !MissingParam(playlistId) && !isValidObjectId(playlistId) ==>
              s.response == Err(500)
    ensures !(Absent(name) && Absent(description)) && ValidObjectId(playlistId, isValidObjectId) && playlistId !in Ids(t) ==>
              s.response == Err(404)
    ensures s.response.Ok? <==>
              !(Absent(name) && Absent(description)) && ValidObjectId(playlistId, isValidObjectId) && playlistId in Ids(t)
    ensures s.response.Ok? ==>
              var stored := FindById(t, playlistId).value;
              && s.response == Ok(200, stored.(body := Edited(stored.body, name, description)))
              && |s.table| == |t|
    ensures s.response.Ok? && UniqueIds(t) ==>
              && UniqueIds(s.table)
              && forall e :: e in s.table <==> e == s.response.value || (e in t && e.id != playlistId)
  {
    if (Absent(name) && Absent(description)) || MissingParam(playlistId) then Step(Err(400), t)
    else if !isValidObjectId(playlistId) then Step(Err(500), t)
    else match IndexOf(t, playlistId)
      case None => Step(Err(404), t)
      case Some(i) =>
        var d := t[i].(body := Edited(t[i].body, name, description));
        assert UniqueIds(t) ==> UniqueIds(t[i := d]) && forall e :: e in t[i := d] <==> e == d || (e in t && e.id != playlistId) by {
          if UniqueIds(t) { ReplaceDoc(t, i, d); }
        }
        Step(Ok(200, d), t[i := d])
  }

  /** deletePlaylist: 400 without an id, 500 for a malformed one, 404 when
      absent; otherwise exactly that playlist is removed. */
  function Delete(t: seq<Doc<Playlist>>, playlistId: Id, isValidObjectId: Id -> bool): (s: Step<Playlist, ()>)
    ensures s.response.Err? ==> s.table == t
    ensures MissingParam(playlistId) ==> s.response == Err(400)
    ensures !MissingParam(playlistId) && !isValidObjectId(playlistId) ==> s.response == Err(500)
    ensures ValidObjectId(playlistId, isValidObjectId) && playlistId !in Ids(t) ==> s.response == Err(404)
    ensures s.response.Ok? <==> ValidObjectId(playlistId, isValidObjectId) && playlistId in Ids(t)
    ensures s.response.Ok? ==> s.response.status == 200 && |s.table| == |t| - 1
    ensures s.response.Ok? && UniqueIds(t) ==>
              && UniqueIds(s.table)
              && forall e :: e in s.table <==> e in t && e.id != playlistId
  {
    if MissingParam(playlistId) then Step(Err(400), t)
    else if !isValidObjectId(playlistId) then Step(Err(500), t)
    else match IndexOf(t, playlistId)
      case None => Step(Err(404), t)
      case Some(i) =>
        assert UniqueIds(t) ==> UniqueIds(RemoveAt(t, i)) && forall e :: e in RemoveAt(t, i) <==> e in t && e.id != playlistId by {
          if UniqueIds(t) { RemoveAtDoc(t, i); }
        }
        Step(Ok(200, ()), RemoveAt(t, i))
  }

  /** addVideoToPlaylist (`add`) and removeVideoFromPlaylist (`!add`): 400
      without a video id, then 400 without a playlist id, 500 for a malformed
      playlist id, 404 when the playlist is absent; otherwise its `videos`
      list is updated by `$addToSet` or `$pull` and nothing else changes. */
  function ChangeVideos(t: seq<Doc<Playlist>>, playlistId: Id, videoId: Option<string>, add: bool,
                        isValidObjectId: Id -> bool): (s: Step<Playlist, Doc<Playlist>>)
    ensures s.response.Err? ==> s.table == t
    ensures Absent(videoId) || MissingParam(playlistId) ==> s.response == Err(400)
    ensures !Absent(videoId) && !MissingParam(playlistId) && !isValidObjectId(playlistId) ==> s.response == Err(500)
    ensures !Absent(videoId) && ValidObjectId(playlistId, isValidObjectId) && playlistId !in Ids(t) ==> s.response == Err(404)
    ensures s.response.Ok? <==> !Absent(videoId) && ValidObjectId(playlistId, isValidObjectId) && playlistId in Ids(t)
    ensures s.response.Ok? ==>
              var stored := FindById(t, playlistId).value;
              var videos := if add then AddToSet(stored.body.videos, videoId.value) else Pull(stored.body.videos, videoId.value);
              && s.response == Ok(200, stored.(body := stored.body.(videos := videos)))
              && |s.table| == |t|
    ensures s.response.Ok? && UniqueIds(t) ==>
              && UniqueIds(s.table)
              && forall e :: e in s.table <==> e == s.response.value || (e in t && e.id != playlistId)
  {
    if Absent(videoId) || MissingParam(playlistId) then Step(Err(400), t)
    else if !isValidObjectId(playlistId) then Step(Err(500), t)
    else match IndexOf(t, playlistId)
      case None => Step(Err(404), t)
      case Some(i) =>
        var v := t[i].body.videos;
        var d := t[i].(body := t[i].body.(videos := if add then AddToSet(v, videoId.value) else Pull(v, videoId.value)));
        assert UniqueIds(t) ==> UniqueIds(t[i := d]) && forall e :: e in t[i := d] <==> e == d || (e in t && e.id != playlistId) by {
          if UniqueIds(t) { ReplaceDoc(t, i, d); }
        }
        Step(Ok(200, d), t[i := d])
  }

  /** Sending the same add twice leaves the collection as the first add left
      it, and answers the same. */
  lemma AddVideoTwice(t: seq<Doc<Playlist>>, playlistId: Id, videoId: Option<string>, isValidObjectId: Id -> bool)
    requires UniqueIds(t)
    ensures var s1 := ChangeVideos(t, playlistId, videoId, true, isValidObjectId);
            ChangeVideos(s1.table, playlistId, videoId, true, isValidObjectId) == s1
  {
    var s1 := ChangeVideos(t, playlistId, videoId, true, isValidObjectId);
    if s1.response.Ok? {
      var i := IndexOf(t, playlistId).value;
      FindByIdUnique(t, i);
      FindByIdUnique(s1.table, i);
      AddToSetIdempotent(t[i].body.videos, videoId.value);
      assert s1.table[i := s1.table[i]] == s1.table;
    }
  }

  /** A playlist whose `videos` list has no duplicates keeps it so through
      any add or remove. */
  lemma ChangeVideosKeepsNoDuplicates(t: seq<Doc<Playlist>>, playlistId: Id, videoId: Option<string>, add: bool,
                                      isValidObjectId: Id -> bool)
    requires UniqueIds(t) && forall d :: d in t ==> NoDuplicates(d.body.videos)
    ensures forall d :: d in ChangeVideos(t, playlistId, videoId, add, isValidObjectId).table ==> NoDuplicates(d.body.videos)
  {
    var s := ChangeVideos(t, playlistId, videoId, add, isValidObjectId);
    if s.response.Ok? && !add {
      PullNoDuplicates(FindById(t, playlistId).value.body.videos, videoId.value);
    }
  }

  /** The Playlist collection. */
  class PlaylistStore {
    var playlists: seq<Doc<Playlist>>

    ghost predicate Valid()
      reads this
    {
      UniqueIds(playlists)
    }

    constructor ()
      ensures Valid() && playlists == []
    {
      playlists := [];
    }

    /** createPlaylist. */
    method CreatePlaylist(name: Option<string>, description: Option<string>, caller: Id, now: int)
      returns (r: Response<Doc<Playlist>>)
      requires Valid()
      modifies this
      ensures Valid()
      ensures Step(r, playlists) == Create(old(playlists), name, description, caller, now)
    {
      if Absent(name) || Absent(description) || MissingParam(caller) {
        return Err(400);
      }
      var d := Doc(FreshId(playlists), now, Playlist(name.value, description.value, caller, []));
      AppendDoc(playlists, d);
      playlists := playlists + [d];
      r := Ok(201, d);
    }

    /** Replaces the playlist at `i` by `d`, which keeps its id. */
    method Put(i: nat, d: Doc<Playlist>)
      requires Valid() && i < |playlists| && d.id == playlists[i].id
      modifies this
      ensures Valid() && playlists == old(playlists)[i := d]
    {
      ReplaceDoc(playlists, i, d);
      playlists := playlists[i := d];
    }

    /** updatePlaylist. */
    method UpdatePlaylist(playlistId: Id, name: Option<string>, description: Option<string>, isValidObjectId: Id -> bool)
      returns (r: Response<Doc<Playlist>>)
      requires Valid()
      modifies this
      ensures Valid()
      ensures Step(r, playlists) == Update(old(playlists), playlistId, name, description, isValidObjectId)
    {
      if (Absent(name) && Absent(description)) || MissingParam(playlistId) {
        return Err(400);
      }
      if !isValidObjectId(playlistId) {
        return Err(500);
      }
      var existing := IndexOf(playlists, playlistId);
      if existing.None? {
        return Err(404);
      }
      var i := existing.value;
      var d := playlists[i].(body := Edited(playlists[i].body, name, description));
      Put(i, d);
      r := Ok(200, d);
    }

    /** deletePlaylist. */
    method DeletePlaylist(playlistId: Id, isValidObjectId: Id -> bool) returns (r: Response<()>)
      requires Valid()
      modifies this
      ensures Valid()
      ensures Step(r, playlists) == Delete(old(playlists), playlistId, isValidObjectId)
    {
      if MissingParam(playlistId) {
        return Err(400);
      }
      if !isValidObjectId(playlistId) {
        return Err(500);
      }
      var existing := IndexOf(playlists, playlistId);
      if existing.None? {
        return Err(404);
      }
      RemoveAtDoc(playlists, existing.value);
      playlists := RemoveAt(playlists, existing.value);
      r := Ok(200, ());
    }

    /** addVideoToPlaylist (`add`) and removeVideoFromPlaylist (`!add`). */
    method ChangeVideosOf(playlistId: Id, videoId: Option<string>, add: bool, isValidObjectId: Id -> bool)
      returns (r: Response<Doc<Playlist>>)
      requires Valid()
      modifies this
      ensures Valid()
      ensures Step(r, playlists) == ChangeVideos(old(playlists), playlistId, videoId, add, isValidObjectId)
    {
      if Absent(videoId) || MissingParam(playlistId) {
        return Err(400);
      }
      if !isValidObjectId(playlistId) {
        return Err(500);
      }
      var existing := IndexOf(playlists, playlistId);
      if existing.None? {
        return Err(404);
      }
      var i := existing.value;
      var v := playlists[i].body.videos;
      var videos := if add then AddToSet(v, videoId.value) else Pull(v, videoId.value);
      var d := playlists[i].(body := playlists[i].body.(videos := videos));
      Put(i, d);
      r := Ok(200, d);
    }
  }
}
