/** Thumbnail names: the `thumbThis` rewrite of an image URL used by the
    guild certificate listing, and the guard and path of the storage trigger
    that generates a thumbnail for every uploaded image. Paths are split at
    their last '/'. */
module Thumbnails {
  import opened Wrappers
  import opened JsStrings
  import opened JsSeqs

  /** The prefix of every thumbnail's file name. */
  const THUMB_PREFIX := "thumb_"

  /** Where `thumbThis` cuts an image URL. */
  const URL_CUT := 125

  const IMAGE_TYPE_PREFIX := "image/"

  /** `thumbThis(url)`: `url.slice(0, 125)`, then "thumb_", then `url.slice(125)`. */
  function ThumbThis(url: string): (r: string)
    ensures |r| == |url| + |THUMB_PREFIX|
  {
    SliceNonNegative(url, 0, URL_CUT);
    assert |Slice(url, URL_CUT, |url|)| == |url| - Min(URL_CUT, |url|) by {
      if URL_CUT <= |url| {
        SliceNonNegative(url, URL_CUT, |url|);
      }
    }
    Slice(url, 0, URL_CUT) + THUMB_PREFIX + Slice(url, URL_CUT, |url|)
  }

  /** `thumbThis` inserts "thumb_" at position 125, or at the end of a
      shorter URL; taking those six characters out gives the URL back. */
  lemma ThumbThisInserts(url: string)
    ensures var k := Min(URL_CUT, |url|);
      && ThumbThis(url) == url[..k] + THUMB_PREFIX + url[k..]
      && |ThumbThis(url)| == |url| + |THUMB_PREFIX|
      && ThumbThis(url)[k..k + |THUMB_PREFIX|] == THUMB_PREFIX
      && ThumbThis(url)[..k] + ThumbThis(url)[k + |THUMB_PREFIX|..] == url
  {
    var k := Min(URL_CUT, |url|);
    SliceNonNegative(url, 0, URL_CUT);
    if URL_CUT <= |url| {
      SliceNonNegative(url, URL_CUT, |url|);
    } else {
      assert Slice(url, URL_CUT, |url|) == [] == url[k..];
    }
    var r := url[..k] + THUMB_PREFIX + url[k..];
    assert r[..k] == url[..k];
    assert r[k..k + |THUMB_PREFIX|] == THUMB_PREFIX;
    assert r[k + |THUMB_PREFIX|..] == url[k..];
    assert url[..k] + url[k..] == url;
  }

  predicate SlashFree(s: string) {
    forall j :: 0 <= j < |s| ==> s[j] != '/'
  }

  /** The position of the last '/' in `p`, if any. */
  function LastSlash(p: string): (r: Option<nat>)
    ensures r.Some? ==> r.value < |p| && p[r.value] == '/' && SlashFree(p[r.value + 1..])
    ensures r.None? ==> SlashFree(p)
  {
    if |p| == 0 then None
    else if p[|p| - 1] == '/' then Some(|p| - 1)
    else
      var r := LastSlash(p[..|p| - 1]);
      assert r.Some? ==> p[r.value + 1..] == p[..|p| - 1][r.value + 1..] + [p[|p| - 1]];
      r
  }

  /** `path.basename(p)`: what follows the last '/'. */
  function Basename(p: string): (r: string)
    ensures SlashFree(r)
  {
    match LastSlash(p)
    case None => p
    case Some(i) => p[i + 1..]
  }

  /** `path.dirname(p)`: what precedes the last '/', "/" for a file at the
      root and "." for a bare file name. */
  function Dirname(p: string): string {
    match LastSlash(p)
    case None => "."
    case Some(i) => if i == 0 then "/" else p[..i]
  }

  /** `path.normalize(path.join(dir, name))` for a name without '/':
      "./name" normalises to the name, and a directory that already ends in
      '/' gets no second one. */
  function JoinName(dir: string, name: string): string {
    if dir == "." then name
    else if |dir| > 0 && dir[|dir| - 1] == '/' then dir + name
    else dir + "/" + name
  }

  /** The thumbnail's path: `dir/thumb_<basename>`. */
  function ThumbFilePath(filePath: string): string {
    JoinName(Dirname(filePath), THUMB_PREFIX + Basename(filePath))
  }

  /** What the storage trigger does with an uploaded object. */
  datatype Decision =
    | NotAnImage                          // "This is not an image."
    | AlreadyThumbnail                    // "Already a Thumbnail."
    | MakeThumbnail(thumbFilePath: string) // resize and upload to this path
    | ThrowsTypeError                     // `contentType` is undefined

  /** The guard of the storage trigger: the MIME type must start with
      "image/" and the basename must not start with "thumb_". */
  function Guard(filePath: string, contentType: Option<string>): (r: Decision)
    ensures r.ThrowsTypeError? <==> contentType.None?
    ensures r.NotAnImage? <==> contentType.Some? && !StartsWith(contentType.value, IMAGE_TYPE_PREFIX)
  {
    match contentType
    case None => ThrowsTypeError
    case Some(mime) =>
      if !StartsWith(mime, IMAGE_TYPE_PREFIX) then NotAnImage
      else if StartsWith(Basename(filePath), THUMB_PREFIX) then AlreadyThumbnail
      else MakeThumbnail(ThumbFilePath(filePath))
  }

  /** The trigger goes on to make a thumbnail exactly for an image whose
      basename does not start with "thumb_", and then writes it to the
      thumbnail path. */
  lemma GuardCases(filePath: string, contentType: Option<string>)
    ensures Guard(filePath, contentType).MakeThumbnail?
      <==> contentType.Some? && StartsWith(contentType.value, IMAGE_TYPE_PREFIX)
           && !StartsWith(Basename(filePath), THUMB_PREFIX)
    ensures Guard(filePath, contentType).MakeThumbnail?
      ==> Guard(filePath, contentType).thumbFilePath == ThumbFilePath(filePath)
  {
  }

  lemma {:induction false} LastSlashOfSlashFreeSuffix(a: string, b: string)
    requires SlashFree(b)
    ensures LastSlash(a + b) == LastSlash(a)
    decreases |b|
  {
    if |b| > 0 {
      var ab := a + b;
      assert ab[..|ab| - 1] == a + b[..|b| - 1];
      assert ab[|ab| - 1] == b[|b| - 1];
      LastSlashOfSlashFreeSuffix(a, b[..|b| - 1]);
    } else {
      assert a + b == a;
    }
  }

  lemma BasenameAfterSlash(a: string, name: string)
    requires |a| > 0 && a[|a| - 1] == '/' && SlashFree(name)
    ensures Basename(a + name) == name
  {
    LastSlashOfSlashFreeSuffix(a, name);
    assert a == a[..|a| - 1] + "/";
    assert LastSlash(a) == Some(|a| - 1);
    assert (a + name)[|a|..] == name;
  }

  /** The thumbnail's basename is "thumb_" followed by the original basename. */
  lemma ThumbBasename(filePath: string)
    ensures Basename(ThumbFilePath(filePath)) == THUMB_PREFIX + Basename(filePath)
  {
    var dir, name := Dirname(filePath), THUMB_PREFIX + Basename(filePath);
    assert SlashFree(name);
    if dir == "." {
      assert LastSlash(name) == None;
    } else if |dir| > 0 && dir[|dir| - 1] == '/' {
      BasenameAfterSlash(dir, name);
    } else {
      assert dir + "/" + name == (dir + "/") + name;
      BasenameAfterSlash(dir + "/", name);
    }
  }

  /** When the uploaded thumbnail fires the trigger again, with any content
      type, the guard stops: no thumbnail of a thumbnail is made. */
  lemma ThumbnailDoesNotRetrigger(filePath: string, contentType: Option<string>)
    ensures !Guard(ThumbFilePath(filePath), contentType).MakeThumbnail?
    ensures contentType.Some? && StartsWith(contentType.value, IMAGE_TYPE_PREFIX)
      ==> Guard(ThumbFilePath(filePath), contentType) == AlreadyThumbnail
  {
    ThumbBasename(filePath);
    var b := THUMB_PREFIX + Basename(filePath);
    assert b[..|THUMB_PREFIX|] == THUMB_PREFIX;
  }
}
