/**
 * `ThumbnailHandler`: serves the thumbnails the thumbnail stage writes.
 * The request path is `/thumbs/<file>`; the file must be named
 * `thumbnail-<id>_<number>.jpg`, and it is looked up in the working
 * directory of job `<id>`.
 */
module ThumbnailServing {
  import opened Common
  import opened Text
  import opened Utility
  import Jobs

  const NotFound: string := "Thumbnail not found"
  const NamePrefix: string := "thumbnail-"
  const NameSuffix: string := ".jpg"

  /** `[0-9]+` */
  predicate IsNumeral(s: string) { |s| > 0 && AllDigits(s) }

  /** `body` spells `thumbnail-<id>_<digits>.jpg`, with `id` and `digits` of the pattern's classes. */
  predicate ThumbShape(body: string, id: string, digits: string)
  {
    body == NamePrefix + id + "_" + digits + NameSuffix && IsIdText(id) && IsNumeral(digits)
  }

  /**
   * The job id the pattern `^thumbnail-([a-zA-Z0-9_-]+)_[0-9]+\.jpg$`
   * captures in `file`, or `None` when it does not match. The group is
   * greedy and may hold '_' itself, so it reaches up to the last '_'.
   */
  function ThumbId(file: string): (r: Option<string>)
    ensures r.Some? ==> exists digits :: ThumbShape(Anchored(file), r.value, digits)
  {
    var body := Anchored(file);
    if |body| < |NamePrefix| + |NameSuffix| || body[..|NamePrefix|] != NamePrefix || body[|body| - |NameSuffix|..] != NameSuffix then None
    else
      var mid := body[|NamePrefix|..|body| - |NameSuffix|];
      var u := LastIndexOfChar(mid, '_');
      if u < 0 || !IsIdText(mid[..u]) || !IsNumeral(mid[u + 1..]) then None
      else
        assert mid == mid[..u] + "_" + mid[u + 1..];
        SplitName(body, mid[..u], mid[u + 1..]);
        assert ThumbShape(body, mid[..u], mid[u + 1..]);
        Some(mid[..u])
  }

  /** A name cut at both ends and at an underscore is rebuilt from its pieces. */
  lemma SplitName(body: string, id: string, digits: string)
    requires |body| >= |NamePrefix| + |NameSuffix| && body[..|NamePrefix|] == NamePrefix && body[|body| - |NameSuffix|..] == NameSuffix
    requires body[|NamePrefix|..|body| - |NameSuffix|] == id + "_" + digits
    ensures body == NamePrefix + id + "_" + digits + NameSuffix
  {
    assert body == body[..|NamePrefix|] + body[|NamePrefix|..|body| - |NameSuffix|] + body[|body| - |NameSuffix|..];
  }

  /** A digit is not '_', so the last '_' of `id_digits` is the one after `id`. */
  lemma {:induction false} LastUnderscore(id: string, digits: string)
    requires AllDigits(digits)
    ensures LastIndexOfChar(id + "_" + digits, '_') == |id|
    decreases |digits|
  {
    var s := id + "_" + digits;
    if digits != [] {
      var d := digits[..|digits| - 1];
      assert s[..|s| - 1] == id + "_" + d;
      assert IsDigit(digits[|digits| - 1]);
      LastUnderscore(id, d);
    }
  }

  /**
   * The match is exact: whenever the name has the pattern's shape, the
   * captured id is the one it was built from. With the ensures of
   * `ThumbId` this makes the capture a function of the name, and the
   * match an if-and-only-if.
   */
  lemma ThumbIdUnique(file: string, id: string, digits: string)
    requires ThumbShape(Anchored(file), id, digits)
    ensures ThumbId(file) == Some(id)
  {
    var body := Anchored(file);
    var mid := body[|NamePrefix|..|body| - |NameSuffix|];
    assert body[..|NamePrefix|] == NamePrefix;
    assert body[|body| - |NameSuffix|..] == NameSuffix;
    assert mid == id + "_" + digits;
    LastUnderscore(id, digits);
    assert mid[..|id|] == id && mid[|id| + 1..] == digits;
  }

  /** An id holding '_' is captured whole. */
  lemma GreedyCapture()
    ensures ThumbId("thumbnail-a_b_7.jpg") == Some("a_b")
  {
    var file := "thumbnail-a_b_7.jpg";
    assert Anchored(file) == file;
    assert IsDigit('7') && IsIdChar('a') && IsIdChar('_') && IsIdChar('b');
    assert file == NamePrefix + "a_b" + "_" + "7" + NameSuffix;
    ThumbIdUnique(file, "a_b", "7");
  }

  /**
   * Where a thumbnail request for `path` is looked up, or `None` when the
   * path is too short or the name has the wrong shape; `path[8..]` drops
   * `/thumbs/`.
   */
  function ThumbFile(path: string, cfg: Config): (r: Option<(string, string)>)
    ensures r.Some? ==> 9 <= |path| && ThumbId(path[8..]).Some? && r.value.1 == path[8..]
    ensures r.Some? ==> r.value.0 == cfg.workingDir + [Sep] + ThumbId(path[8..]).value + [Sep] + path[8..]
    ensures r.None? ==> |path| < 9 || ThumbId(path[8..]).None?
  {
    if |path| < 9 then None
    else
      var file := path[8..];
      match ThumbId(file)
      case None => None
      case Some(id) => Some((cfg.workingDir + [Sep] + id + [Sep] + file, file))
  }

  /** A matched name holds '.', so its extension is not empty. */
  lemma MatchedHasDot(file: string)
    requires ThumbId(file).Some?
    ensures '.' in file
  {
    var digits :| ThumbShape(Anchored(file), ThumbId(file).value, digits);
    var body := Anchored(file);
    assert body[|body| - 4] == '.';
    assert file[|body| - 4] == '.';
  }

  /**
   * `HandleGet` (and, with `head`, `HandleHead`): 404 "Thumbnail not
   * found" for a short path, a name of the wrong shape or a file that is
   * not on `disk`; otherwise the file with the content type of its
   * extension.
   */
  function HandleGet(path: string, cfg: Config, disk: set<string>, head: bool): (r: Response)
    ensures r.code == 200 <==> ThumbFile(path, cfg).Some? && ThumbFile(path, cfg).value.0 in disk
    ensures r.code != 200 ==> r == Response(404, Text(NotFound))
    ensures r.code == 200 ==>
      var (filePath, file) := ThumbFile(path, cfg).value;
      r.body == if head then FileHead(filePath, GetMime(FileExtension(file))) else File(filePath, GetMime(FileExtension(file)))
  {
    match ThumbFile(path, cfg)
    case None => Response(404, Text(NotFound))
    case Some((filePath, file)) =>
      if filePath !in disk then Response(404, Text(NotFound))
      else
        MatchedHasDot(file);
        var mime := GetMime(FileExtension(file));
        Response(200, if head then FileHead(filePath, mime) else File(filePath, mime))
  }

  /** `HandlePost`: there is nothing to post. */
  function HandlePost(): (r: Response)
    ensures r.code == 404 && r.body == Text("404 Page Not Found")
  {
    Response(404, Text("404 Page Not Found"))
  }

  /**
   * Every thumbnail URL a job lists outside move mode leads back to the
   * job: for a token of the id pattern, the request path resolves to that
   * token, and the file is looked up in the job's working directory.
   */
  lemma ThumbUrlResolves(cfg: Config, token: string, x: nat)
    requires !MoveMode(cfg) && IsIdText(token)
    ensures var path := Jobs.ThumbUrl(cfg, token, x);
      && ThumbFile(path, cfg) == Some((Jobs.WorkingDirectory(cfg.workingDir, token) + Jobs.ThumbName(token, x),
                                       Jobs.ThumbName(token, x)))
  {
    var name := Jobs.ThumbName(token, x);
    assert ("/thumbs/" + name)[8..] == name;
    ThumbNameShape(token, x);
    ThumbIdUnique(name, token, "000" + IntToString(x));
    JobDirectory(cfg.workingDir, token, name);
  }

  /** The directory the handler looks in is the job's working directory. */
  lemma JobDirectory(root: string, token: string, name: string)
    requires IsIdText(token)
    ensures root + [Sep] + token + [Sep] + name == Jobs.WorkingDirectory(root, token) + name
  {
    assert IsIdChar(token[|token| - 1]);
  }

  /** A thumbnail name a job writes has the pattern's shape, and no line feed to strip. */
  lemma ThumbNameShape(token: string, x: nat)
    requires IsIdText(token)
    ensures ThumbShape(Jobs.ThumbName(token, x), token, "000" + IntToString(x))
    ensures Anchored(Jobs.ThumbName(token, x)) == Jobs.ThumbName(token, x)
  {
    var name := Jobs.ThumbName(token, x);
    var digits := "000" + IntToString(x);
    assert name == NamePrefix + token + "_" + digits + NameSuffix;
    assert name[|name| - 1] == 'g';
    assert IsNumeral(digits) by {
      assert forall i :: 0 <= i < |digits| ==> digits[i] == if i < 3 then '0' else IntToString(x)[i - 3];
    }
  }
}
