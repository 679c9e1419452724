# Youtube-Backend-API controllers in Dafny

This project models the request handlers of a video-sharing REST backend. The
backend has videos, comments, likes, tweets, playlists, subscriptions and a
dashboard, and stores everything in a document database. It also covers the
media-host helper that uploads files and derives what to destroy from an
asset URL.

Each database collection is a sequence of documents `Doc(id, createdAt, body)`
in insertion order, with distinct ids. Every handler is modelled twice:

- as a pure function from the old collection and the request to a `Step`: the
  response (`Ok(status, value)` or `Err(status)`) and the new collection;
- as a method of a store class (`LikeStore`, `CommentStore`, `TweetStore`,
  `PlaylistStore`, `VideoStore`, `SubscriptionStore`) that changes its
  collection field in place and is proved equal to the function. The
  `Put` methods of `PlaylistStore` and `VideoStore` are helpers that
  overwrite one document in place for the update handlers.

The functions' contracts state each handler's error codes in the order the
handler checks them, what it writes, and what it leaves alone. Lemmas prove
the properties that relate several calls:

- toggles flip and undo each other;
- `$addToSet` is idempotent;
- `$pull` removes every occurrence and keeps order;
- only the owner can edit or delete;
- a view adds exactly one to the owner's total views;
- the channel stats agree with the listings.

Modelling conventions:

- The caller's user id is a parameter. The authentication middleware is not
  modelled.
- Request inputs are modelled as follows:
  - a route parameter is a string, and `""` stands for a missing one;
  - a body field is an `Option<string>`;
  - "missing" means JavaScript falsiness, i.e. absent or `""`;
  - "blank" means empty after JavaScript's `trim()`.
- `isValidObjectId` is a function parameter that the model does not interpret.
- Where a handler calls `findById` without checking the id first, a non-empty
  malformed id makes the cast throw, and the error handler answers 500.
- A new document gets an id that differs from every existing one, and its
  timestamp is a parameter.
- An upload's outcome is a parameter. The destroy requests a handler sends to
  the media host are returned with the new state.
- In an update, a body field that was not sent keeps its stored value, and a
  field that was sent replaces it, even when it is empty.

## Model

| member | source | states |
|---|---|---|
| Cloudinary.UploadOnCloudinary | src/utils/cloudinary.js:10-26 | a missing or empty path gives nothing and uploads nothing; otherwise the host's answer |
| Cloudinary.LastSegment | src/utils/cloudinary.js:33 | `split("/").pop()`: a suffix of the URL with no `/`, preceded by `/` unless it is the whole URL |
| Cloudinary.BeforeFirstDot | src/utils/cloudinary.js:33 | `split(".")[0]`: a prefix with no `.`, followed by `.` unless it is the whole text |
| Cloudinary.PublicId | src/utils/cloudinary.js:33 | the public id is the last segment cut before its first dot: it contains neither `/` nor `.`, starts right after the URL's last `/` (or at its start), and ends at a `.` or at the end of the URL |
| Cloudinary.PublicIdUnique | src/utils/cloudinary.js:33 | any dot-free text placed as just described is the public id, so that description determines it |
| Cloudinary.PublicIdOfAssetUrl | src/utils/cloudinary.js:33 | the public id of `https://host/v1/abc.mp4` is `abc` |
| Cloudinary.IncludesIffOccurs | src/utils/cloudinary.js:37 | the left-to-right scan of `includes` finds a substring exactly when it occurs at some position |
| Cloudinary.ResourceType | src/utils/cloudinary.js:36-37 | "video" exactly when the URL contains ".mp4" or ".mov" anywhere, otherwise "image" |
| Cloudinary.DeleteFromCloudinary | src/utils/cloudinary.js:28-48 | no destroy for a missing URL; otherwise one destroy of the URL's public id with its resource type |
| Likes.NewLike | src/controllers/like.controller.js:29-32 | the created like sets exactly the toggled reference field and the liker |
| Likes.Toggle | src/controllers/like.controller.js:7-124 | 400 with the table unchanged for a missing or malformed id; otherwise `isLiked` is the negation of the old state, an existing like is deleted or a fresh one appended, every other like is kept, ids stay distinct |
| Likes.ToggleFlips | src/controllers/like.controller.js:14-41 | a toggle keeps at most one like per (field, target, liker) and flips whether the caller likes the target |
| Likes.ToggleTwice | src/controllers/like.controller.js:14-41 | two toggles answer opposite `isLiked`, restore the like state, and from "not liked" restore the collection itself |
| Likes.VideoLikedByUser | src/controllers/like.controller.js:158-193 | one of the caller's video likes is answered (the handler takes element 0 of an unsorted aggregate); nothing exactly when the caller has no video like |
| Likes.FirstLikeOn | src/controllers/like.controller.js:126-156 | getAllLikedVideos, and likewise getAllLikeComments and getAllLikeTweets (lines 195-261), answer one like that has the field (element 0 of an unsorted result), and nothing exactly when no like has it |
| Likes.LikesByUser | src/controllers/like.controller.js:263-337 | 400 exactly for a missing or malformed user id; otherwise exactly the likes by that user with the comment (or tweet) field present, each as often as the collection holds it (no repeats) |
| Likes.LikeStore.ToggleOn | src/controllers/like.controller.js:7-42 | the in-place toggle equals `Toggle` and keeps ids distinct and one like per pair |
| Likes.LikeStore.ToggleVideoLike | src/controllers/like.controller.js:7-42 | toggleVideoLikeAndUnlike on the `video` field |
| Likes.LikeStore.ToggleCommentLike | src/controllers/like.controller.js:44-83 | toggleVideoCommentLikeAndUnlike: the same toggle on the `comment` field |
| Likes.LikeStore.ToggleTweetLike | src/controllers/like.controller.js:85-124 | toogleVideoTweetLikeAndUnlike: the same toggle on the `tweet` field |
| Subscriptions.Toggle | src/controllers/subscription.controller.js:6-42 | 400 for a missing name before 401 for a missing caller; 200 exactly when a record `{subscription: caller, channel: name}` exists, and that record is removed; a caller who is not subscribed gets 400; every error leaves the table unchanged; nothing is ever added |
| Subscriptions.ToggleNeverSubscribes | src/controllers/subscription.controller.js:29-41 | a caller who is not subscribed gets an error, the table is unchanged, and the caller is still not subscribed |
| Subscriptions.FirstSubscriptionFails | src/controllers/subscription.controller.js:17-29 | a first subscription to "news" by "u1" answers 400 on an empty collection |
| Subscriptions.IntendedToggle | src/controllers/subscription.controller.js:17-41 | the create branch reached: when subscribed, 200 with one record fewer, only the caller's record for that channel gone and every other record kept; otherwise 201 with the record `{subscription: caller, channel: name}` appended; ids stay distinct |
| Subscriptions.IntendedToggleTwice | src/controllers/subscription.controller.js:17-41 | the intended toggle subscribes, and a second toggle answers 200 and gives the collection back |
| Subscriptions.ChannelSubscribers | src/controllers/subscription.controller.js:44-59 | 400 exactly without a name; otherwise exactly the records whose `channel` is the name, each as often as the collection holds it (no repeats) |
| Subscriptions.SubscribedChannels | src/controllers/subscription.controller.js:61-76 | 400 exactly without an id; otherwise exactly the records whose `subscriber` is the id, each as often as the collection holds it (no repeats) |
| Subscriptions.ToggleRecordNotListed | src/controllers/subscription.controller.js:66 | the listing filters on `subscriber`, a field the toggle never writes, so a toggled-in record is never listed |
| Subscriptions.SubscriptionStore.ToggleSubscriptionAsWritten | src/controllers/subscription.controller.js:6-42 | the in-place toggle equals `Toggle`, keeps ids distinct, and never grows the collection |
| Subscriptions.SubscriptionStore.ToggleSubscription | src/controllers/subscription.controller.js:17-41 | the in-place toggle equals `IntendedToggle` (removal or append as stated there) and keeps ids distinct |
| Comments.NewComment | src/controllers/comment.controller.js:183-187 | a created comment sets the content, the owner and exactly one of `video` or `twitter` |
| Comments.Add | src/controllers/comment.controller.js:172-228 | 400 for a missing or malformed target id, then 400 for a missing or blank comment; otherwise 201 and exactly one new comment by the caller is appended |
| Comments.Update | src/controllers/comment.controller.js:230-310 | 400 for a bad id or a blank comment; not found is 400 on a video but 404 on a tweet; 403 exactly when the stored owner is not the caller; success exactly for the owner's valid edit of a present comment, and then only `content` is replaced and the answer is 200 (video) or 201 (tweet); errors leave the table unchanged |
| Comments.Delete | src/controllers/comment.controller.js:312-361 | 400 for a bad id, 404 when absent, 403 exactly for a non-owner; success exactly for the owner's delete of a present comment, which removes exactly that comment; errors leave the table unchanged |
| Comments.EditByOwnerOnly | src/controllers/comment.controller.js:230-269 | after a user comments, another user's edit is refused with 403 and changes nothing, and the author's edit is stored |
| Comments.VideoComments | src/controllers/comment.controller.js:58-112 | 400 without an id, 500 for a malformed one; otherwise a newest-first reordering of the comments on that video, each exactly once |
| Comments.TweetComments | src/controllers/comment.controller.js:114-170 | 400 exactly for a missing or malformed id; otherwise a newest-first reordering of the comments on that tweet, each exactly once |
| Comments.AllComments | src/controllers/comment.controller.js:7-56 | every comment, newest first (a permutation of the collection) |
| Comments.CommentStore.AddComment | src/controllers/comment.controller.js:172-228 | the in-place insert equals `Add` and keeps ids distinct |
| Comments.CommentStore.UpdateComment | src/controllers/comment.controller.js:230-310 | the in-place `$set` of `content` equals `Update` and keeps ids distinct |
| Comments.CommentStore.DeleteComment | src/controllers/comment.controller.js:312-361 | the in-place removal equals `Delete` and keeps ids distinct |
| Tweets.AllTweets | src/controllers/tweet.controller.js:7-17 | 404 exactly on an empty collection; otherwise every tweet, newest first |
| Tweets.Create | src/controllers/tweet.controller.js:19-33 | 400 exactly for missing or blank content; otherwise 201 and one new tweet `{content, owner: caller}` is appended |
| Tweets.Update | src/controllers/tweet.controller.js:35-69 | missing or blank content, a bad id or an absent tweet is 400; 403 exactly for a non-owner; success exactly for the owner's valid edit of a present tweet, which replaces only `content` |
| Tweets.DeleteByKey | src/controllers/tweet.controller.js:84-87 | `findByIdAndDelete(key)`: 500 with nothing removed exactly when no document has the key, otherwise exactly that document is removed |
| Tweets.Delete | src/controllers/tweet.controller.js:71-92 | as written: 400 for a bad or absent id, 403 exactly for a non-owner; every error leaves the collection unchanged; an owner's request removes the document keyed by the caller's id |
| Tweets.DeleteOwnTweetFails | src/controllers/tweet.controller.js:84-87 | the owner "u1" deleting tweet "t1" gets 500 and the tweet is kept |
| Tweets.DeleteKeepsTweet | src/controllers/tweet.controller.js:77-87 | as written, a tweet whose id differs from the caller's is never removed by its own delete request |
| Tweets.DeleteById | src/controllers/tweet.controller.js:71-92 | as intended: the same checks, then exactly the tweet `id` is removed and can no longer be found |
| Tweets.OwnerDeletesOwnTweet | src/controllers/tweet.controller.js:71-92 | with the intended delete, the owner's request on an existing tweet answers 200 and the tweet is gone |
| Tweets.UserTweets | src/controllers/tweet.controller.js:94-132 | 400 exactly for a missing or malformed user id; otherwise exactly that user's tweets, each as often as the collection holds it (no repeats), and none when the user does not exist (the unwound lookup drops them) |
| Tweets.TweetStore.CreateTweet | src/controllers/tweet.controller.js:19-33 | the in-place insert equals `Create` and keeps ids distinct |
| Tweets.TweetStore.UpdateTweet | src/controllers/tweet.controller.js:35-69 | the in-place `$set` of `content` equals `Update` and keeps ids distinct |
| Tweets.TweetStore.DeleteTweetAsWritten | src/controllers/tweet.controller.js:71-92 | the in-place delete equals the as-written `Delete` |
| Tweets.TweetStore.DeleteTweet | src/controllers/tweet.controller.js:71-92 | the in-place delete equals the intended `DeleteById` |
| Playlists.AddToSet | src/controllers/playlist.controller.js:108-116 | `$addToSet`: the members afterwards are the old ones plus the video, appended only when it was not a member, and no duplicate is created |
| Playlists.AddToSetIdempotent | src/controllers/playlist.controller.js:108-116 | adding the same video twice leaves the list as one add left it |
| Playlists.Pull | src/controllers/playlist.controller.js:135-143 | `$pull`: the members afterwards are the old ones without the video |
| Playlists.PullCounts | src/controllers/playlist.controller.js:135-143 | every occurrence of the video is removed, and every other entry keeps its number of occurrences |
| Playlists.PullKeepsOrder | src/controllers/playlist.controller.js:135-143 | pulling from a concatenation is pulling from each part, and a list without the video is unchanged |
| Playlists.PullNoDuplicates | src/controllers/playlist.controller.js:135-143 | pulling keeps a duplicate-free list duplicate-free |
| Playlists.PullAfterAdd | src/controllers/playlist.controller.js:108-143 | removing a video right after adding it gives the list as if it had only been removed |
| Playlists.Create | src/controllers/playlist.controller.js:6-27 | 400 unless both name and description are given, then 400 without an owner; otherwise 201 and an empty playlist owned by the caller is appended |
| Playlists.PlaylistById | src/controllers/playlist.controller.js:45-57 | 400 without an id, 500 for a malformed one, 404 exactly when absent; otherwise that playlist |
| Playlists.UserPlaylists | src/controllers/playlist.controller.js:29-43 | 400 without a user id, 500 for a malformed one; otherwise exactly that user's playlists, each as often as the collection holds it (no repeats) |
| Playlists.Update | src/controllers/playlist.controller.js:59-84 | 400 when both name and description are missing or without an id, 500 for a malformed id, 404 when absent; otherwise the sent fields are set, whoever the caller is |
| Playlists.Delete | src/controllers/playlist.controller.js:86-98 | 400 without an id, 500 for a malformed one, 404 when absent; success exactly for a present playlist, whoever asks, and then exactly that playlist is removed and the others are kept |
| Playlists.ChangeVideos | src/controllers/playlist.controller.js:100-154 | 400 without a video id or a playlist id, 500 for a malformed playlist id, 404 when absent; otherwise only the playlist's `videos` changes, by `$addToSet` or `$pull` |
| Playlists.AddVideoTwice | src/controllers/playlist.controller.js:100-125 | sending the same add twice gives the answer and the collection of one add |
| Playlists.ChangeVideosKeepsNoDuplicates | src/controllers/playlist.controller.js:100-154 | playlists whose `videos` have no duplicates keep them so through any add or remove |
| Playlists.PlaylistStore.CreatePlaylist | src/controllers/playlist.controller.js:6-27 | the in-place insert equals `Create` and keeps ids distinct |
| Playlists.PlaylistStore.UpdatePlaylist | src/controllers/playlist.controller.js:59-84 | the in-place `$set` equals `Update` and keeps ids distinct |
| Playlists.PlaylistStore.DeletePlaylist | src/controllers/playlist.controller.js:86-98 | the in-place removal equals `Delete` and keeps ids distinct |
| Playlists.PlaylistStore.ChangeVideosOf | src/controllers/playlist.controller.js:100-154 | the in-place change of a playlist's `videos` equals `ChangeVideos` and keeps ids distinct |
| Videos.NewVideo | src/controllers/video.controller.js:37-46 | a created video has both uploaded URLs, the upload's duration, 0 views, is unpublished and is owned by the caller |
| Videos.Create | src/controllers/video.controller.js:10-51 | 400 when title and description are both missing or without a video path; succeeds exactly when both uploads give an answer, then 201 and the new video is appended; every error is 400 with the table unchanged |
| Videos.CreateNeedsThumbnail | src/controllers/video.controller.js:20-35 | without a thumbnail path the upload helper gives nothing, so createVideo always answers 400 |
| Videos.CreatedVideoIsUnlisted | src/controllers/video.controller.js:37-46 | a newly created video is unpublished, so neither the user listing nor the general listing shows it |
| Videos.OldAssets | src/controllers/video.controller.js:83-85 | one destroy per non-empty stored URL, the video file first |
| Videos.Update | src/controllers/video.controller.js:53-111 | 400 without an id or without title and description, 500 malformed, 404 absent, 403 exactly for a non-owner, 400 without a file path, none of them destroying anything; after these checks the stored files are destroyed; 200 exactly when both uploads answer, and only title, description and both URLs change |
| Videos.FailedUploadLeavesDanglingFiles | src/controllers/video.controller.js:83-93 | when an upload fails after the checks, the answer is 400 and the record is unchanged although its stored video file was already destroyed |
| Videos.Delete | src/controllers/video.controller.js:113-134 | 400 without an id, 500 malformed, 400 when absent, 403 exactly for a non-owner; otherwise the stored files are destroyed and exactly that video is removed |
| Videos.View | src/controllers/video.controller.js:136-154 | 400 without an id, 500 malformed, 400 when absent; otherwise `views` grows by exactly one, nothing else changes, and the updated video is answered |
| Videos.SortField | src/controllers/video.controller.js:169 | the sort field is `sortBy`, or `createdAt` when it is missing |
| Videos.SortOn | src/controllers/video.controller.js:168-170 | a reordering of the videos (same multiset), descending on the key when asked, otherwise ascending |
| Videos.AllVideos | src/controllers/video.controller.js:156-186 | a reordering of exactly the published videos (that match the text query when one is sent), each once, sorted on the field, descending exactly when `sortType` is "desc"; by default ascending on `createdAt` |
| Videos.Published | src/controllers/video.controller.js:196 | exactly the published videos that satisfy the given condition, each as often as the collection holds it (no repeats) |
| Videos.UserVideos | src/controllers/video.controller.js:188-212 | 400 exactly without an id; otherwise exactly the published videos of that owner, each as often as the collection holds it (no repeats) |
| Videos.ChannelVideos | src/controllers/video.controller.js:214-238 | 400 exactly without a name; otherwise exactly the published videos of that channel, each as often as the collection holds it (no repeats) |
| Videos.PlaylistVideos | src/controllers/video.controller.js:240-264 | 400 exactly without a name; otherwise exactly the published videos whose `playlist` is that name, each as often as the collection holds it (no repeats) |
| Videos.CategoryVideos | src/controllers/video.controller.js:266-287 | 400 exactly without a name; otherwise exactly the published videos of that category, each as often as the collection holds it (no repeats) |
| Videos.TagVideos | src/controllers/video.controller.js:289-310 | 400 exactly without a tag; otherwise exactly the published videos whose tags hold it, each as often as the collection holds it (no repeats) |
| Videos.VideoStore.CreateVideo | src/controllers/video.controller.js:10-51 | the in-place insert equals `Create` and keeps ids distinct |
| Videos.VideoStore.UpdateVideo | src/controllers/video.controller.js:53-111 | the in-place `$set` and the destroys equal `Update`, and ids stay distinct |
| Videos.VideoStore.DeleteVideo | src/controllers/video.controller.js:113-134 | the in-place removal and the destroys equal `Delete`, and ids stay distinct |
| Videos.VideoStore.GetVideo | src/controllers/video.controller.js:136-154 | the in-place `$inc` of `views` equals `View` and keeps ids distinct |
| Dashboard.Owned | src/controllers/dashboard.controller.js:15 | exactly the videos the given user owns, each as often as the collection holds it (no repeats) |
| Dashboard.SumOfOwnedViews | src/controllers/dashboard.controller.js:14-17 | matching the owner's videos and summing their views equals the per-video reference total |
| Dashboard.OwnerViewsReplace | src/controllers/dashboard.controller.js:14-17 | replacing one video changes an owner's total by what the old and the new video contribute |
| Dashboard.ChannelStatsOf | src/controllers/dashboard.controller.js:8-42 | the video count is the number of videos the caller owns, the subscriber count the number of subscriptions naming the caller as channel, the like count the number of likes on one of the caller's videos (each 0 exactly when there are none); the total views is the owner's reference total, 0 when there are none |
| Tables.Count | src/controllers/dashboard.controller.js:12-25 | `countDocuments`: the number of documents matching the filter, by an independent element-by-element count; 0 exactly when none matches |
| Dashboard.OwnedIds | src/controllers/dashboard.controller.js:24 | exactly the ids of the videos the caller owns |
| Dashboard.NewLikeCountsForOwner | src/controllers/dashboard.controller.js:23-25 | a first like on a video adds exactly one to the like total of the video's owner and leaves every other channel's total unchanged |
| Dashboard.ViewAddsOneToOwner | src/controllers/video.controller.js:141-147 | a view adds exactly one to the owner's total views on the dashboard and leaves every other channel's total unchanged |
| Dashboard.ChannelVideos | src/controllers/dashboard.controller.js:44-60 | exactly the caller's videos, each as often as the collection holds it (no repeats), newest first |
| Dashboard.StatsAgreeWithListings | src/controllers/dashboard.controller.js:12-21 | the video count is the length of the channel video listing, and the subscriber count is the length of the channel subscriber listing |
| Dashboard.SubscriberCount | src/controllers/dashboard.controller.js:85 | the number of subscriptions naming the user as channel, 0 exactly when there are none |
| Dashboard.Creators | src/controllers/dashboard.controller.js:74-87 | one creator per user, in user order, with the projected fields and that user's subscriber count |
| Dashboard.CreatorsAreUsers | src/controllers/dashboard.controller.js:74-98 | every creator drawn from the ranking input is a user, with that user's subscriber count |
| Dashboard.TopVideos | src/controllers/dashboard.controller.js:69-72 | at most five videos, most viewed first, drawn from the collection, none outranked by a video left out |
| Dashboard.TopCreators | src/controllers/dashboard.controller.js:74-98 | at most five entries drawn from the users' creator records, none used more often than it occurs there (a sub-multiset), each with that user's subscriber count, most subscribed first, none outranked by a user left out |
| Dashboard.DashboardStatsOf | src/controllers/dashboard.controller.js:62-117 | the sizes of the four collections; the top videos are `TopVideos` and the top creators are `TopCreators`, so both are ranked, at most five long, and drawn from the collection and the users |

## Left out

- The routes, the `jwtVerify` middleware and `req.user` are not modelled. The caller's id is a parameter.
- The healthcheck handler is not modelled. It reads uptime, the clock and the database connection state.
- The media host's network calls and the removal of temporary local files are not modelled. Upload answers are parameters, and destroys are returned as requests.
- Videos.Update: the two upload answers are independent parameters, but updateVideo uploads the same `req.files?.path` twice (video.controller.js:75 and 79). A first upload that succeeds deletes that local file (cloudinary.js:20). The second upload then fails, and its catch calls `unlinkSync` on the missing file (cloudinary.js:23), which throws. So in the program every update that passes the checks fails after the stored files were destroyed. The 200 branch the model admits is not reached there. The model does not capture this, because it does not model local files.
- Videos.VideoStore.UpdateVideo: equals `Videos.Update`, so it shares the gap about the twice-uploaded local file described in the line above.
- Pagination is not modelled. `page` and `limit` never slice a listing.
- `$lookup` joins, `populate` and `$project` are not modelled. Listings return whole documents, with one exception: `getUserTweet`'s unwind drops a user's tweets when the user does not exist.
- The `$text` search of getAllVideos is not modelled. Whether a video matches a query is a parameter.
- The Mongoose schemas in src/models are not part of this model. Required fields, type casts of body values (such as a `videoId` pushed into a playlist), defaults and schema validators are not modelled.
- Uncaught `TypeError`s are not modelled:
  - `req.files?.videoFile[0]` when the files hold no `videoFile`;
  - `trim()` on a non-string body value;
  - `req.user._id` without a user.
- Store failures are not modelled. Every database operation succeeds, so these are unreachable in the model:
  - the "null after create/update/delete" 500 answers;
  - the dashboard's catch-all 500.
- The `console.log` calls are not modelled, and neither is the response envelope beyond status and data.
- Concurrency is not modelled. Two toggles racing between the lookup and the insert are outside the model, because each request is one atomic step.
- Videos.AllVideos: sorting on a field other than `createdAt`, `views` or `duration` is not modelled. Such a sort keeps the collection order.
- Videos.UserVideos, Videos.ChannelVideos, Videos.PlaylistVideos, Videos.CategoryVideos, Videos.TagVideos: the filter of a `getAllVideosOf*` listing is taken to be applied as written, although the handler hands a `find` query to the aggregate paginator.
- Sorting: among documents with equal sort keys the database promises no order, and the model fixes one.
- Videos.UserVideos: the cast of a malformed owner id inside the listing query is not modelled.
- Dashboard.ChannelStatsOf: `views` are unbounded integers. The floating-point sums of the database are not modelled.

## Findings

| source | as written | input that shows it | evidently intended | confidence | as-written member | corrected member |
|---|---|---|---|---|---|---|
| src/controllers/tweet.controller.js:84 | after the owner check on tweet `id`, the handler deletes the document whose id is the caller's user id | user "u1" deletes their own tweet "t1" in a collection holding only that tweet: the answer is 500 and the tweet is kept | delete the tweet `id` itself, so the owner's delete answers 200 and the tweet is gone | high; not executed | Tweets.DeleteOwnTweetFails | Tweets.DeleteById |
| src/controllers/subscription.controller.js:29 | when no subscription exists, the handler throws 400 "Subscription not found" before its create branch | user "u1" subscribes to channel "news" on an empty collection: 400, nothing is created | create the subscription (201), so that a second toggle removes it again | high; not executed | Subscriptions.FirstSubscriptionFails | Subscriptions.IntendedToggle |
