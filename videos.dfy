/** The video controller: videos are created from two uploads, edited
    (re-uploading both files) and deleted by their owner, fetched (which
    counts a view), and listed. A non-empty id that is not a well-formed
    ObjectId makes the store's id cast throw, which the error handler answers
    with 500. Uploads are outcomes given as parameters; the destroy requests
    sent to the media host are returned with the new state. */
module Videos {
  import opened Common
  import opened Tables
  import opened Sorting
  import opened Cloudinary

  /** A Video document. `title` and `description` may be missing (only one
      of them is required); `channel`, `playlist` and `category` are the
      fields the listings compare. */
  datatype Video = Video(
    videoFile: string,
    thumbnail: string,
    title: Option<string>,
    description: Option<string>,
    duration: int,
    views: int,
    isPublished: bool,
    owner: Id,
    channel: Option<string>,
    playlist: Option<string>,
    category: Option<string>,
    tags: seq<string>)

  /** A step that also reports the destroy requests sent to the media host. */
  datatype Outcome<+R> = Outcome(response: Response<R>, table: seq<Doc<Video>>, destroyed: seq<Destroy>)

  /** The video `Video.create` writes: both uploaded URLs (a falsy thumbnail
      URL stored as ""), the upload's duration, no views, unpublished, owned
      by the caller. */
  function NewVideo(videoFile: Upload, thumbnail: Upload, title: Option<string>, description: Option<string>, caller: Id): (v: Video)
    ensures v.videoFile == videoFile.url && v.thumbnail == thumbnail.url && v.duration == videoFile.duration
    ensures v.views == 0 && !v.isPublished && v.owner == caller
    ensures v.title == title && v.description == description
  {
    Video(videoFile.url, thumbnail.url, title, description, videoFile.duration, 0, false, caller, None, None, None, [])
  }

  /** createVideo: 400 when title and description are both missing, 400
      without a video file path; both files are uploaded (a missing path
      uploads nothing), and 400 when either upload gave nothing; otherwise the
      new video is appended and answered with 201. */
  function Create(t: seq<Doc<Video>>, title: Option<string>, description: Option<string>,
                  videoPath: Option<string>, thumbnailPath: Option<string>,
                  videoAnswer: Option<Upload>, thumbnailAnswer: Option<Upload>,
                  caller: Id, now: int): (s: Step<Video, Doc<Video>>)
    ensures (Absent(title) && Absent(description)) || Absent(videoPath) ==> s == Step(Err(400), t)
    ensures s.response.Err? ==> s == Step(Err(400), t)
    ensures s.response.Ok? <==>
              && !(Absent(title) && Absent(description))
              && UploadOnCloudinary(videoPath, videoAnswer).Some?
              && UploadOnCloudinary(thumbnailPath, thumbnailAnswer).Some?
    ensures s.response.Ok? ==>
              && s.response.status == 201
              && s.table == t + [s.response.value]
              && s.response.value.id !in Ids(t)
              && s.response.value.createdAt == now
              && s.response.value.body == NewVideo(videoAnswer.value, thumbnailAnswer.value, title, description, caller)
    ensures UniqueIds(t) ==> UniqueIds(s.table)
  {
    if (Absent(title) && Absent(description)) || Absent(videoPath) then Step(Err(400), t)
    else
      var videoFile := UploadOnCloudinary(videoPath, videoAnswer);
      var thumbnail := UploadOnCloudinary(thumbnailPath, thumbnailAnswer);
      if videoFile.None? || thumbnail.None? then Step(Err(400), t)
      else
        var d := Doc(FreshId(t), now, NewVideo(videoFile.value, thumbnail.value, title, description, caller));
        assert UniqueIds(t) ==> UniqueIds(t + [d]) by { if UniqueIds(t) { AppendDoc(t, d); } }
        Step(Ok(201, d), t + [d])
  }

  /** Without a thumbnail no video can be created, whatever the host answers:
      the upload helper gives nothing for a missing path. */
  lemma CreateNeedsThumbnail(t: seq<Doc<Video>>, title: Option<string>, description: Option<string>,
                             videoPath: Option<string>, videoAnswer: Option<Upload>, thumbnailAnswer: Option<Upload>,
                             caller: Id, now: int)
    ensures Create(t, title, description, videoPath, None, videoAnswer, thumbnailAnswer, caller, now) == Step(Err(400), t)
  {
  }

  /** The destroy requests for a video's stored files, video file first; a
      file with an empty URL is skipped. */
  function OldAssets(v: Video): (r: seq<Destroy>)
    ensures |r| == (if v.videoFile != "" then 1 else 0) + (if v.thumbnail != "" then 1 else 0)
    ensures v.videoFile != "" ==> r[0] == DeleteFromCloudinary(Some(v.videoFile)).value
    ensures v.thumbnail != "" ==> r[|r| - 1] == DeleteFromCloudinary(Some(v.thumbnail)).value
  {
    var first := if v.videoFile != "" then [DestroyOf(v.videoFile)] else [];
    var second := if v.thumbnail != "" then [DestroyOf(v.thumbnail)] else [];
    first + second
  }

  /** The destroy request `deleteFromCloudinary` sends for a stored URL. */
  function DestroyOf(url: string): (d: Destroy)
    requires url != ""
    ensures DeleteFromCloudinary(Some(url)) == Some(d)
  {
    assert !Absent(Some(url));
    DeleteFromCloudinary(Some(url)).value
  }

  /** The video after updateVideo's `$set`: both new URLs; a title or
      description that was not sent keeps its value. */
  function Replaced(v: Video, title: Option<string>, description: Option<string>, videoFile: Upload, thumbnail: Upload): (w: Video)
    ensures w.videoFile == videoFile.url && w.thumbnail == thumbnail.url
    ensures w.title == (if title.Some? then title else v.title)
    ensures w.description == (if description.Some? then description else v.description)
    ensures w.(videoFile := v.videoFile, thumbnail := v.thumbnail, title := v.title, description := v.description) == v
  {
    v.(videoFile := videoFile.url, thumbnail := thumbnail.url,
       title := if title.Some? then title else v.title,
       description := if description.Some? then description else v.description)
  }

  /** The checks updateVideo makes before it touches the media host: an id,
      a title or description, a well-formed id of an existing video owned by
      the caller, and an uploaded file path. */
  ghost predicate UpdateAdmitted(t: seq<Doc<Video>>, id: Id, title: Option<string>, description: Option<string>,
                                 filesPath: Option<string>, caller: Id, isValidObjectId: Id -> bool) {
    && ValidObjectId(id, isValidObjectId)
    && !(Absent(title) && Absent(description))
    && id in Ids(t)
    && FindById(t, id).value.body.owner == caller
    && !Absent(filesPath)
  }

  /** updateVideo: 400 without an id, 400 when title and description are both
      missing, 500 for a malformed id, 404 when absent, 403 when the caller is
      not the owner, 400 without a file path (the same `req.files.path` serves
      for both files). Then the stored files are destroyed, both files are
      uploaded from that path, and 400 when an upload gave nothing — with the
      record unchanged; otherwise the fields are set. */
  function Update(t: seq<Doc<Video>>, id: Id, title: Option<string>, description: Option<string>,
                  filesPath: Option<string>, videoAnswer: Option<Upload>, thumbnailAnswer: Option<Upload>,
                  caller: Id, isValidObjectId: Id -> bool): (o: Outcome<Doc<Video>>)
    ensures o.response.Err? ==> o.table == t
    ensures MissingParam(id) || (Absent(title) && Absent(description)) ==> o == Outcome(Err(400), t, [])
    ensures !MissingParam(id) && !(Absent(title) && Absent(description)) && !isValidObjectId(id) ==>
              o == Outcome(Err(500), t, [])
    ensures ValidObjectId(id, isValidObjectId) && !(Absent(title) && Absent(description)) && id !in Ids(t) ==>
              o == Outcome(Err(404), t, [])
    ensures o.response == Err(403) <==>
              && ValidObjectId(id, isValidObjectId) && !(Absent(title) && Absent(description)) && id in Ids(t)
              && FindById(t, id).value.body.owner != caller
    ensures && ValidObjectId(id, isValidObjectId) && !(Absent(title) && Absent(description)) && id in Ids(t)
            && FindById(t, id).value.body.owner == caller && Absent(filesPath) ==>
              o == Outcome(Err(400), t, [])
    ensures !UpdateAdmitted(t, id, title, description, filesPath, caller, isValidObjectId) ==> o.response.Err? && o.destroyed == []
    ensures UpdateAdmitted(t, id, title, description, filesPath, caller, isValidObjectId) ==>
              o.destroyed == OldAssets(FindById(t, id).value.body)
    ensures o.response.Ok? <==>
              UpdateAdmitted(t, id, title, description, filesPath, caller, isValidObjectId) && videoAnswer.Some? && thumbnailAnswer.Some?
    ensures UpdateAdmitted(t, id, title, description, filesPath, caller, isValidObjectId) && !(videoAnswer.Some? && thumbnailAnswer.Some?) ==>
              o.response == Err(400)
    ensures o.response.Ok? ==>
              var stored := FindById(t, id).value;
              && o.response == Ok(200, stored.(body := Replaced(stored.body, title, description, videoAnswer.value, thumbnailAnswer.value)))
              && |o.table| == |t|
    ensures o.response.Ok? && UniqueIds(t) ==>
              && UniqueIds(o.table)
              && forall e :: e in o.table <==> e == o.response.value || (e in t && e.id != id)
  {
    if MissingParam(id) || (Absent(title) && Absent(description)) then Outcome(Err(400), t, [])
    else if !isValidObjectId(id) then Outcome(Err(500), t, [])
    else match IndexOf(t, id)
      case None => Outcome(Err(404), t, [])
      case Some(i) =>
        if t[i].body.owner != caller then Outcome(Err(403), t, [])
        else if Absent(filesPath) then Outcome(Err(400), t, [])
        else
          var destroyed := OldAssets(t[i].body);
          var videoFile := UploadOnCloudinary(filesPath, videoAnswer);
          var thumbnail := UploadOnCloudinary(filesPath, thumbnailAnswer);
          if videoFile.None? || thumbnail.None? then Outcome(Err(400), t, destroyed)
          else
            var d := t[i].(body := Replaced(t[i].body, title, description, videoFile.value, thumbnail.value));
            assert UniqueIds(t) ==> UniqueIds(t[i := d]) && forall e :: e in t[i := d] <==> e == d || (e in t && e.id != id) by {
              if UniqueIds(t) { ReplaceDoc(t, i, d); }
            }
            Outcome(Ok(200, d), t[i := d], destroyed)
  }

  /** When an upload fails after the checks, the stored files have already
      been destroyed while the record still points at them. */
  lemma FailedUploadLeavesDanglingFiles(t: seq<Doc<Video>>, i: nat, filesPath: Option<string>, title: Option<string>,
                                        isValidObjectId: Id -> bool)
    requires UniqueIds(t) && i < |t| && ValidObjectId(t[i].id, isValidObjectId)
    requires !Absent(filesPath) && !Absent(title) && t[i].body.videoFile != ""
    ensures var o := Update(t, t[i].id, title, None, filesPath, None, None, t[i].body.owner, isValidObjectId);
            && o.response == Err(400)
            && o.table == t
            && o.destroyed[0] == DeleteFromCloudinary(Some(t[i].body.videoFile)).value
  {
    FindByIdUnique(t, i);
  }

  /** deleteVideo: 400 without an id, 500 for a malformed one, 400 when
      absent, 403 when the caller is not the owner; otherwise the stored files
      are destroyed and exactly that video is removed. */
  function Delete(t: seq<Doc<Video>>, id: Id, caller: Id, isValidObjectId: Id -> bool): (o: Outcome<()>)
    ensures o.response.Err? ==> o.table == t && o.destroyed == []
    ensures MissingParam(id) ==> o.response == Err(400)
    ensures !MissingParam(id) && !isValidObjectId(id) ==> o.response == Err(500)
    ensures ValidObjectId(id, isValidObjectId) && id !in Ids(t) ==> o.response == Err(400)
    ensures o.response == Err(403) <==>
              ValidObjectId(id, isValidObjectId) && id in Ids(t) && FindById(t, id).value.body.owner != caller
    ensures o.response.Ok? <==>
              ValidObjectId(id, isValidObjectId) && id in Ids(t) && FindById(t, id).value.body.owner == caller
    ensures o.response.Ok? ==>
              && o.response.status == 200
              && o.destroyed == OldAssets(FindById(t, id).value.body)
              && |o.table| == |t| - 1
    ensures o.response.Ok? && UniqueIds(t) ==>
              && UniqueIds(o.table)
              && forall e :: e in o.table <==> e in t && e.id != id
  {
    if MissingParam(id) then Outcome(Err(400), t, [])
    else if !isValidObjectId(id) then Outcome(Err(500), t, [])
    else match IndexOf(t, id)
      case None => Outcome(Err(400), t, [])
      case Some(i) =>
        if t[i].body.owner != caller then Outcome(Err(403), t, [])
        else
          assert UniqueIds(t) ==> UniqueIds(RemoveAt(t, i)) && forall e :: e in RemoveAt(t, i) <==> e in t && e.id != id by {
            if UniqueIds(t) { RemoveAtDoc(t, i); }
          }
          Outcome(Ok(200, ()), RemoveAt(t, i), OldAssets(t[i].body))
  }

  /** getVideo: 400 without an id, 500 for a malformed one, 400 when absent;
      otherwise the video's `views` grows by exactly one, nothing else
      changes, and the updated video is answered. */
  function View(t: seq<Doc<Video>>, id: Id, isValidObjectId: Id -> bool): (s: Step<Video, Doc<Video>>)
    ensures s.response.Err? ==> s.table == t
    ensures MissingParam(id) ==> s.response == Err(400)
    ensures !MissingParam(id) && !isValidObjectId(id) ==> s.response == Err(500)
    ensures s.response.Ok? <==> ValidObjectId(id, isValidObjectId) && id in Ids(t)
    ensures ValidObjectId(id, isValidObjectId) && id !in Ids(t) ==> s.response == Err(400)
    ensures s.response.Ok? ==>
              var stored := FindById(t, id).value;
              && s.response == Ok(200, stored.(body := stored.body.(views := stored.body.views + 1)))
              && |s.table| == |t|
    ensures s.response.Ok? && UniqueIds(t) ==>
              && UniqueIds(s.table)
              && forall e :: e in s.table <==> e == s.response.value || (e in t && e.id != id)
  {
    if MissingParam(id) then Step(Err(400), t)
    else if !isValidObjectId(id) then Step(Err(500), t)
    else match IndexOf(t, id)
      case None => Step(Err(400), t)
      case Some(i) =>
        var d := t[i].(body := t[i].body.(views := t[i].body.views + 1));
        assert UniqueIds(t) ==> UniqueIds(t[i := d]) && forall e :: e in t[i := d] <==> e == d || (e in t && e.id != id) by {
          if UniqueIds(t) { ReplaceDoc(t, i, d); }
        }
        Step(Ok(200, d), t[i := d])
  }

  /** The numeric sort keys of a video: `createdAt`, `views` and `duration`. */
  function SortKey(sortBy: string): Option<Doc<Video> -> int> {
    if sortBy == "createdAt" then Some(CreatedAt)
    else if sortBy == "views" then Some((d: Doc<Video>) => d.body.views)
    else if sortBy == "duration" then Some((d: Doc<Video>) => d.body.duration)
    else None
  }

  /** The sort field getAllVideos uses: `sortBy`, or `createdAt` when it is
      missing. */
  function SortField(sortBy: Option<string>): (f: string)
    ensures Absent(sortBy) ==> f == "createdAt"
    ensures !Absent(sortBy) ==> f == sortBy.value
  {
    if Absent(sortBy) then "createdAt" else sortBy.value
  }

  /** getAllVideos: the published videos (matching `query` by the text index
      when one is sent), sorted on the sort field, descending exactly when
      `sortType` is "desc". Sorting on a field without a numeric key is not
      modelled and keeps the collection order. */
  function AllVideos(t: seq<Doc<Video>>, query: Option<string>, sortBy: Option<string>, sortType: Option<string>,
                     textMatches: (string, Doc<Video>) -> bool): (r: Response<seq<Doc<Video>>>)
    ensures r.Ok? && r.status == 200
    ensures forall d :: d in r.value <==> d in t && d.body.isPublished && (Absent(query) || textMatches(query.value, d))
    ensures multiset(r.value) ==
              multiset(Filter(t, (d: Doc<Video>) => d.body.isPublished && (Absent(query) || textMatches(query.value, d))))
    ensures SortKey(SortField(sortBy)).Some? && sortType == Some("desc") ==>
              SortedDesc(r.value, SortKey(SortField(sortBy)).value)
    ensures SortKey(SortField(sortBy)).Some? && sortType != Some("desc") ==>
              SortedAsc(r.value, SortKey(SortField(sortBy)).value)
    ensures Absent(sortBy) && Absent(sortType) ==>
              forall i, j :: 0 <= i < j < |r.value| ==> r.value[i].createdAt <= r.value[j].createdAt
  {
    var matching := Filter(t, (d: Doc<Video>) => d.body.isPublished && (Absent(query) || textMatches(query.value, d)));
    match SortKey(SortField(sortBy))
    case None => Ok(200, matching)
    case Some(key) => Ok(200, SortOn(matching, key, sortType == Some("desc")))
  }

  /** `$sort: {key: -1}` when `desc`, `$sort: {key: 1}` otherwise. */
  function SortOn(s: seq<Doc<Video>>, key: Doc<Video> -> int, desc: bool): (r: seq<Doc<Video>>)
    ensures forall d :: d in r <==> d in s
    ensures multiset(r) == multiset(s)
    ensures desc ==> SortedDesc(r, key)
    ensures !desc ==> SortedAsc(r, key)
  {
    var r := if desc then SortDesc(s, key) else SortAsc(s, key);
    assert forall d :: d in r <==> d in multiset(r);
    assert forall d :: d in s <==> d in multiset(s);
    r
  }

  /** The published videos satisfying `p`, in collection order. */
  function Published(t: seq<Doc<Video>>, p: Doc<Video> -> bool): (r: seq<Doc<Video>>)
    ensures forall d :: d in r <==> d in t && d.body.isPublished && p(d)
    ensures forall d :: multiset(r)[d] == if d.body.isPublished && p(d) then multiset(t)[d] else 0
  {
    FilterCounts(t, (d: Doc<Video>) => d.body.isPublished && p(d));
    Filter(t, (d: Doc<Video>) => d.body.isPublished && p(d))
  }

  /** getAllVideosOfAUser: 400 without a user id, otherwise exactly the
      published videos that user owns. */
  function UserVideos(t: seq<Doc<Video>>, id: Id): (r: Response<seq<Doc<Video>>>)
    ensures MissingParam(id) <==> r == Err(400)
    ensures r.Ok? ==> r.status == 200 && forall d :: d in r.value <==> d in t && d.body.isPublished && d.body.owner == id
    ensures r.Ok? ==> forall d :: multiset(r.value)[d] == if d.body.isPublished && d.body.owner == id then multiset(t)[d] else 0
  {
    if MissingParam(id) then Err(400) else Ok(200, Published(t, (d: Doc<Video>) => d.body.owner == id))
  }

  /** getAllVideosOfAChannel: 400 without a name, otherwise exactly the
      published videos of that channel. */
  function ChannelVideos(t: seq<Doc<Video>>, name: string): (r: Response<seq<Doc<Video>>>)
    ensures MissingParam(name) <==> r == Err(400)
    ensures r.Ok? ==> r.status == 200 && forall d :: d in r.value <==> d in t && d.body.isPublished && d.body.channel == Some(name)
    ensures r.Ok? ==> forall d :: multiset(r.value)[d] ==
                        if d.body.isPublished && d.body.channel == Some(name) then multiset(t)[d] else 0
  {
    if MissingParam(name) then Err(400) else Ok(200, Published(t, (d: Doc<Video>) => d.body.channel == Some(name)))
  }

  /** getAllVideosOfAPlaylist: 400 without a name, otherwise exactly the
      published videos whose `playlist` is that name. */
  function PlaylistVideos(t: seq<Doc<Video>>, name: string): (r: Response<seq<Doc<Video>>>)
    ensures MissingParam(name) <==> r == Err(400)
    ensures r.Ok? ==> r.status == 200 && forall d :: d in r.value <==> d in t && d.body.isPublished && d.body.playlist == Some(name)
    ensures r.Ok? ==> forall d :: multiset(r.value)[d] ==
                        if d.body.isPublished && d.body.playlist == Some(name) then multiset(t)[d] else 0
  {
    if MissingParam(name) then Err(400) else Ok(200, Published(t, (d: Doc<Video>) => d.body.playlist == Some(name)))
  }

  /** getAllVideosOfACategory: 400 without a name, otherwise exactly the
      published videos of that category. */
  function CategoryVideos(t: seq<Doc<Video>>, name: string): (r: Response<seq<Doc<Video>>>)
    ensures MissingParam(name) <==> r == Err(400)
    ensures r.Ok? ==> r.status == 200 && forall d :: d in r.value <==> d in t && d.body.isPublished && d.body.category == Some(name)
    ensures r.Ok? ==> forall d :: multiset(r.value)[d] ==
                        if d.body.isPublished && d.body.category == Some(name) then multiset(t)[d] else 0
  {
    if MissingParam(name) then Err(400) else Ok(200, Published(t, (d: Doc<Video>) => d.body.category == Some(name)))
  }

  /** getAllVideosOfATag: 400 without a tag, otherwise exactly the published
      videos whose `tags` array holds that tag. */
  function TagVideos(t: seq<Doc<Video>>, tag: string): (r: Response<seq<Doc<Video>>>)
    ensures MissingParam(tag) <==> r == Err(400)
    ensures r.Ok? ==> r.status == 200 && forall d :: d in r.value <==> d in t && d.body.isPublished && tag in d.body.tags
    ensures r.Ok? ==> forall d :: multiset(r.value)[d] == if d.body.isPublished && tag in d.body.tags then multiset(t)[d] else 0
  {
    if MissingParam(tag) then Err(400) else Ok(200, Published(t, (d: Doc<Video>) => tag in d.body.tags))
  }

  /** A video that was just created is unpublished, so no listing shows it. */
  lemma CreatedVideoIsUnlisted(t: seq<Doc<Video>>, title: Option<string>, description: Option<string>,
                               videoPath: Option<string>, thumbnailPath: Option<string>,
                               videoAnswer: Option<Upload>, thumbnailAnswer: Option<Upload>, caller: Id, now: int)
    requires Create(t, title, description, videoPath, thumbnailPath, videoAnswer, thumbnailAnswer, caller, now).response.Ok?
    requires !MissingParam(caller)
    ensures var s := Create(t, title, description, videoPath, thumbnailPath, videoAnswer, thumbnailAnswer, caller, now);
            && s.response.value !in UserVideos(s.table, caller).value
            && s.response.value !in AllVideos(s.table, None, None, None, (q: string, d: Doc<Video>) => true).value
  {
  }

  /** The Video collection. */
  class VideoStore {
    var videos: seq<Doc<Video>>

    ghost predicate Valid()
      reads this
    {
      UniqueIds(videos)
    }

    constructor ()
      ensures Valid() && videos == []
    {
      videos := [];
    }

    /** Replaces the video at `i` by `d`, which keeps its id. */
    method Put(i: nat, d: Doc<Video>)
      requires Valid() && i < |videos| && d.id == videos[i].id
      modifies this
      ensures Valid() && videos == old(videos)[i := d]
    {
      ReplaceDoc(videos, i, d);
      videos := videos[i := d];
    }

    /** createVideo. */
    method CreateVideo(title: Option<string>, description: Option<string>,
                       videoPath: Option<string>, thumbnailPath: Option<string>,
                       videoAnswer: Option<Upload>, thumbnailAnswer: Option<Upload>,
                       caller: Id, now: int) returns (r: Response<Doc<Video>>)
      requires Valid()
      modifies this
      ensures Valid()
      ensures Step(r, videos) == Create(old(videos), title, description, videoPath, thumbnailPath, videoAnswer, thumbnailAnswer, caller, now)
    {
      if (Absent(title) && Absent(description)) || Absent(videoPath) {
        return Err(400);
      }
      var videoFile := UploadOnCloudinary(videoPath, videoAnswer);
      var thumbnail := UploadOnCloudinary(thumbnailPath, thumbnailAnswer);
      if videoFile.None? || thumbnail.None? {
        return Err(400);
      }
      var d := Doc(FreshId(videos), now, NewVideo(videoFile.value, thumbnail.value, title, description, caller));
      AppendDoc(videos, d);
      videos := videos + [d];
      r := Ok(201, d);
    }

    /** updateVideo. */
    method UpdateVideo(id: Id, title: Option<string>, description: Option<string>,
                       filesPath: Option<string>, videoAnswer: Option<Upload>, thumbnailAnswer: Option<Upload>,
                       caller: Id, isValidObjectId: Id -> bool) returns (r: Response<Doc<Video>>, destroyed: seq<Destroy>)
      requires Valid()
      modifies this
      ensures Valid()
      ensures Outcome(r, videos, destroyed) == Update(old(videos), id, title, description, filesPath, videoAnswer, thumbnailAnswer, caller, isValidObjectId)
    {
      destroyed := [];
      if MissingParam(id) || (Absent(title) && Absent(description)) {
        return Err(400), destroyed;
      }
      if !isValidObjectId(id) {
        return Err(500), destroyed;
      }
      var existing := IndexOf(videos, id);
      if existing.None? {
        return Err(404), destroyed;
      }
      var i := existing.value;
      if videos[i].body.owner != caller {
        return Err(403), destroyed;
      }
      if Absent(filesPath) {
        return Err(400), destroyed;
      }
      destroyed := OldAssets(videos[i].body);
      var videoFile := UploadOnCloudinary(filesPath, videoAnswer);
      var thumbnail := UploadOnCloudinary(filesPath, thumbnailAnswer);
      if videoFile.None? || thumbnail.None? {
        return Err(400), destroyed;
      }
      var d := videos[i].(body := Replaced(videos[i].body, title, description, videoFile.value, thumbnail.value));
      Put(i, d);
      r := Ok(200, d);
    }

    /** deleteVideo. */
    method DeleteVideo(id: Id, caller: Id, isValidObjectId: Id -> bool) returns (r: Response<()>, destroyed: seq<Destroy>)
      requires Valid()
      modifies this
      ensures Valid()
      ensures Outcome(r, videos, destroyed) == Delete(old(videos), id, caller, isValidObjectId)
    {
      destroyed := [];
      if MissingParam(id) {
        return Err(400), destroyed;
      }
      if !isValidObjectId(id) {
        return Err(500), destroyed;
      }
      var existing := IndexOf(videos, id);
      if existing.None? {
        return Err(400), destroyed;
      }
      var i := existing.value;
      if videos[i].body.owner != caller {
        return Err(403), destroyed;
      }
      destroyed := OldAssets(videos[i].body);
      RemoveAtDoc(videos, i);
      videos := RemoveAt(videos, i);
      r := Ok(200, ());
    }

    /** getVideo: the `$inc` of `views` in place. */
    method GetVideo(id: Id, isValidObjectId: Id -> bool) returns (r: Response<Doc<Video>>)
      requires Valid()
      modifies this
      ensures Valid()
      ensures Step(r, videos) == View(old(videos), id, isValidObjectId)
    {
      if MissingParam(id) {
        return Err(400);
      }
      if !isValidObjectId(id) {
        return Err(500);
      }
      var existing := IndexOf(videos, id);
      if existing.None? {
        return Err(400);
      }
      var i := existing.value;
      var d := videos[i].(body := videos[i].body.(views := videos[i].body.views + 1));
      Put(i, d);
      r := Ok(200, d);
    }
  }
}
