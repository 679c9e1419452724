/** The media-host helpers: the null-on-missing-path contract of the upload
    helper, and the string work by which the delete helper turns an asset URL
    into the public id and resource type it asks the host to destroy. The
    uploads, destroys and scratch-file removals themselves are I/O: an upload's
    outcome is a parameter, and the destroy is returned as a request. */
module Cloudinary {
  import opened Common

  /** The part of the host's upload answer the controllers use. */
  datatype Upload = Upload(url: string, duration: int)

  /** The destroy call the delete helper would issue. */
  datatype Destroy = Destroy(publicId: string, resourceType: string)

  /** `uploadOnCloudinary(localFilePath)`, with `hostAnswer` the outcome of the
      upload (None when it threw). */
  function UploadOnCloudinary(localFilePath: Option<string>, hostAnswer: Option<Upload>): (r: Option<Upload>)
    ensures Absent(localFilePath) ==> r == None
    ensures !Absent(localFilePath) ==> r == hostAnswer
  {
    if Absent(localFilePath) then None else hostAnswer
  }

  /** `s.split("/").pop()`: the text after the last `/`, or all of `s`. */
  function LastSegment(s: string): (r: string)
    ensures '/' !in r
    ensures |r| <= |s| && r == s[|s| - |r|..]
    ensures |r| < |s| ==> s[|s| - |r| - 1] == '/'
  {
    if s == [] then ""
    else if s[|s| - 1] == '/' then ""
    else
      var init := s[..|s| - 1];
      var r := LastSegment(init) + [s[|s| - 1]];
      assert s == init + [s[|s| - 1]];
      r
  }

  /** `s.split(".")[0]`: the text before the first `.`, or all of `s`. */
  function BeforeFirstDot(s: string): (r: string)
    ensures '.' !in r
    ensures |r| <= |s| && r == s[..|r|]
    ensures |r| < |s| ==> s[|r|] == '.'
  {
    if s == [] || s[0] == '.' then ""
    else [s[0]] + BeforeFirstDot(s[1..])
  }

  /** `r` starts at position `j` of `url`, right after its last `/` (or at
      the start), and runs up to the next `.` or the end of `url`. */
  ghost predicate NameAt(url: string, r: string, j: int) {
    && 0 <= j <= |url| - |r|
    && (j == 0 || url[j - 1] == '/')
    && '/' !in url[j..]
    && url[j..j + |r|] == r
    && (j + |r| == |url| || url[j + |r|] == '.')
  }

  /** The last segment cut before its first dot sits where `NameAt` says. */
  lemma PublicIdPosition(url: string)
    ensures NameAt(url, BeforeFirstDot(LastSegment(url)), |url| - |LastSegment(url)|)
  {
    var seg := LastSegment(url);
    var r := BeforeFirstDot(seg);
    var j := |url| - |seg|;
    assert url[j..] == seg;
    assert url[j..j + |r|] == seg[..|r|];
    assert j + |r| < |url| ==> url[j + |r|] == seg[|r|];
  }

  /** The public id of an asset URL: the last path segment cut before its
      first dot. */
  function PublicId(url: string): (r: string)
    ensures r == BeforeFirstDot(LastSegment(url))
    ensures '/' !in r && '.' !in r
    ensures '.' !in LastSegment(url) ==> r == LastSegment(url)
    ensures exists j :: NameAt(url, r, j)
  {
    var seg := LastSegment(url);
    var r := BeforeFirstDot(seg);
    assert forall c :: c in r ==> c in seg;
    PublicIdPosition(url);
    r
  }

  /** Two positions that both start right after the last `/` are equal. */
  lemma SameSegmentStart(url: string, j: int, k: int)
    requires 0 <= j <= |url| && (j == 0 || url[j - 1] == '/') && '/' !in url[j..]
    requires 0 <= k <= |url| && (k == 0 || url[k - 1] == '/') && '/' !in url[k..]
    ensures j == k
  {
  }

  /** Two dot-free prefixes of `w` that both end at a `.` or at the end of
      `w` have the same length. */
  lemma SameNameEnd(w: string, a: nat, b: nat)
    requires a <= |w| && '.' !in w[..a] && (a == |w| || w[a] == '.')
    requires b <= |w| && '.' !in w[..b] && (b == |w| || w[b] == '.')
    ensures a == b
  {
  }

  /** `NameAt` pins the public id down: any dot-free name at any position
      that `NameAt` admits is the public id. */
  lemma PublicIdUnique(url: string, r: string, j: int)
    requires NameAt(url, r, j) && '.' !in r
    ensures r == PublicId(url)
  {
    var p := PublicId(url);
    var k := |url| - |LastSegment(url)|;
    PublicIdPosition(url);
    SameSegmentStart(url, j, k);
    var w := url[j..];
    assert w[..|r|] == r;
    assert w[..|p|] == p;
    SameNameEnd(w, |r|, |p|);
    assert r == w[..|r|] == p;
  }

  /** The public id of a typical asset URL is its file name without the
      extension. */
  lemma PublicIdOfAssetUrl()
    ensures PublicId("https://host/v1/abc.mp4") == "abc"
  {
    var url := "https://host/v1/abc.mp4";
    assert url[16..] == "abc.mp4" && url[15] == '/' && url[19] == '.';
    assert NameAt(url, "abc", 16);
    PublicIdUnique(url, "abc", 16);
  }

  /** `s.startsWith(t)`. */
  predicate StartsWith(s: string, t: string) {
    |t| <= |s| && s[..|t|] == t
  }

  /** `s.includes(t)`, by scanning the start positions from left to right. */
  predicate Includes(s: string, t: string)
    decreases |s|
  {
    StartsWith(s, t) || (s != [] && Includes(s[1..], t))
  }

  /** `t` occurs in `s` starting at position `i`. */
  ghost predicate OccursAt(t: string, s: string, i: int) {
    0 <= i <= |s| - |t| && s[i..i + |t|] == t
  }

  /** `t` occurs in `s` at some position: the reference meaning of `includes`. */
  ghost predicate OccursIn(t: string, s: string) {
    exists i :: OccursAt(t, s, i)
  }

  /** The scan finds `t` exactly when `t` occurs in `s`. */
  lemma {:induction false} IncludesIffOccurs(s: string, t: string)
    ensures Includes(s, t) <==> OccursIn(t, s)
  {
    if StartsWith(s, t) {
      assert OccursAt(t, s, 0);
    }
    if s != [] {
      IncludesIffOccurs(s[1..], t);
      if OccursIn(t, s[1..]) {
        var i :| OccursAt(t, s[1..], i);
        assert s[i + 1..i + 1 + |t|] == s[1..][i..i + |t|];
        assert OccursAt(t, s, i + 1);
      }
      if OccursIn(t, s) {
        var i :| OccursAt(t, s, i);
        if i > 0 {
          assert s[1..][i - 1..i - 1 + |t|] == s[i..i + |t|];
          assert OccursAt(t, s[1..], i - 1);
        }
      }
    }
  }

  /** The resource type the delete helper asks for: "video" exactly when the
      URL contains ".mp4" or ".mov" anywhere, otherwise "image". */
  function ResourceType(url: string): (r: string)
    ensures r == "video" <==> OccursIn(".mp4", url) || OccursIn(".mov", url)
    ensures r != "video" ==> r == "image"
  {
    IncludesIffOccurs(url, ".mp4");
    IncludesIffOccurs(url, ".mov");
    if Includes(url, ".mp4") || Includes(url, ".mov") then "video" else "image"
  }

  /** `deleteFromCloudinary(fileUrl)`: no destroy call for a missing URL,
      otherwise one destroy of the URL's public id with its resource type. */
  function DeleteFromCloudinary(fileUrl: Option<string>): (r: Option<Destroy>)
    ensures Absent(fileUrl) <==> r == None
    ensures r.Some? ==> r == Some(Destroy(PublicId(fileUrl.value), ResourceType(fileUrl.value)))
    ensures r.Some? ==> '/' !in r.value.publicId && '.' !in r.value.publicId
    ensures r.Some? ==> (r.value.resourceType == "video" <==>
                          OccursIn(".mp4", fileUrl.value) || OccursIn(".mov", fileUrl.value))
  {
    if Absent(fileUrl) then None
    else Some(Destroy(PublicId(fileUrl.value), ResourceType(fileUrl.value)))
  }
}
