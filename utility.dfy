/**
 * The helpers every handler uses: the first value of a request parameter
 * and the media type of a file extension.
 */
module Utility {
  import opened Common
  import opened Text

  /**
   * A `NameValueCollection`: the (key, value) pairs in the order they were
   * added. Keys are compared ignoring case, as the collection's default
   * comparer does.
   */
  type Params = seq<(string, string)>

  predicate KeyAt(ps: Params, key: string, i: int)
    requires 0 <= i < |ps|
  {
    EqualsIgnoreCase(ps[i].0, key)
  }

  predicate NoKeyBefore(ps: Params, key: string, n: int)
    requires n <= |ps|
  {
    forall j :: 0 <= j < n ==> !KeyAt(ps, key, j)
  }

  /**
   * `GetFirstValue`: the first value added under `key`, or null when the
   * key was never added. (`Add` always stores a value, so a key that is
   * present always has at least one.)
   */
  function GetFirstValue(ps: Params, key: string): (r: Option<string>)
    ensures r.None? <==> NoKeyBefore(ps, key, |ps|)
    ensures r.Some? ==> exists i | 0 <= i < |ps| :: KeyAt(ps, key, i) && ps[i].1 == r.value && NoKeyBefore(ps, key, i)
    decreases |ps|
  {
    if ps == [] then None
    else if EqualsIgnoreCase(ps[0].0, key) then
      assert KeyAt(ps, key, 0) && NoKeyBefore(ps, key, 0);
      Some(ps[0].1)
    else
      var r := GetFirstValue(ps[1..], key);
      assert forall j :: 1 <= j < |ps| ==> (KeyAt(ps, key, j) <==> KeyAt(ps[1..], key, j - 1));
      if r.Some? then
        var i :| 0 <= i < |ps[1..]| && KeyAt(ps[1..], key, i) && ps[1..][i].1 == r.value && NoKeyBefore(ps[1..], key, i);
        assert KeyAt(ps, key, i + 1) && NoKeyBefore(ps, key, i + 1);
        r
      else r
  }

  /** Adding a pair never changes the first value of a key that was already present. */
  lemma {:induction false} GetFirstValueAdd(ps: Params, k: string, v: string, key: string)
    ensures GetFirstValue(ps + [(k, v)], key) ==
      if GetFirstValue(ps, key).Some? then GetFirstValue(ps, key)
      else if EqualsIgnoreCase(k, key) then Some(v) else None
    decreases |ps|
  {
    if ps != [] {
      assert (ps + [(k, v)])[1..] == ps[1..] + [(k, v)];
      GetFirstValueAdd(ps[1..], k, v, key);
    }
  }

  /** The media type of a lower-case extension without its dot (the `switch` of `GetMime`). */
  function MimeOfLower(ext: string): (r: string)
    ensures r == "application/octet-stream" <==> ext !in KnownExtensions
  {
    if ext == "txt" then "text/plain"
    else if ext == "html" || ext == "htm" then "text/html"
    else if ext == "css" then "text/css"
    else if ext == "gif" then "image/gif"
    else if ext == "jpeg" || ext == "jpg" then "image/jpeg"
    else if ext == "js" then "application/x-javascript"
    else if ext == "png" then "image/png"
    else if ext == "mp3" then "audio/mpeg"
    else if ext == "mp4" || ext == "m4v" then "video/mp4"
    else if ext == "mov" then "video/quicktime"
    else if ext == "mpeg" || ext == "mpg" then "video/mpeg"
    else if ext == "3gp" || ext == "3gpp" then "video/3gpp"
    else if ext == "flv" then "video/x-flv"
    else if ext == "ts" || ext == "avi" then "video/x-msvideo"
    else if ext == "wmv" then "video/x-ms-wmv"
    else if ext == "webm" then "video/webm"
    else if ext == "ogg" then "audio/ogg"
    else if ext == "ogv" then "video/ogg"
    else "application/octet-stream"
  }

  /** The extensions `GetMime` recognises, lower case. */
  const KnownExtensions: set<string> :=
    {"txt", "html", "htm", "css", "gif", "jpeg", "jpg", "js", "png", "mp3", "mp4", "mov",
     "mpeg", "mpg", "3gp", "3gpp", "flv", "ts", "avi", "wmv", "m4v", "webm", "ogg", "ogv"}

  /**
   * `GetMime`: one leading dot is dropped and the rest is compared ignoring
   * case; an unknown extension is `application/octet-stream`. The caller
   * must pass a non-empty extension (the first character is read).
   */
  function GetMime(fileType: string): (r: string)
    requires |fileType| > 0
    ensures r == "application/octet-stream" <==>
      ToLower(if fileType[0] == '.' then fileType[1..] else fileType) !in KnownExtensions
  {
    var ext := if fileType[0] == '.' then fileType[1..] else fileType;
    MimeOfLower(ToLower(ext))
  }

  /** A leading dot makes no difference. */
  lemma GetMimeDot(ext: string)
    requires |ext| > 0 && ext[0] != '.'
    ensures GetMime("." + ext) == GetMime(ext)
  {
    assert ("." + ext)[1..] == ext;
  }

  /** Case makes no difference. */
  lemma GetMimeIgnoresCase(ext: string)
    requires |ext| > 0
    ensures GetMime(ToLower(ext)) == GetMime(ext)
  {
    var e := ToLower(ext);
    assert e[0] == '.' <==> ext[0] == '.';
    var a := if e[0] == '.' then e[1..] else e;
    var b := if ext[0] == '.' then ext[1..] else ext;
    assert ToLower(a) == ToLower(b);
  }

  /** Thumbnails are served as JPEG images. */
  lemma GetMimeJpg()
    ensures GetMime(".jpg") == "image/jpeg"
  {
    assert ".jpg"[1..] == "jpg";
    assert ToLower("jpg") == "jpg";
  }
}
