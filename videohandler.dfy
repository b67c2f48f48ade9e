/**
 * `VideoHandler`: serves transcoded files under `/videos/<file>`. The
 * file must be named `<stem>.<extension>`; the pattern's id group is a
 * single repeated character, so only the last character of the stem is
 * captured, and that character names the directory the file is looked up
 * in.
 */
module VideoServing {
  import opened Common
  import opened Text
  import opened Utility

  const NotFound: string := "Video not found"

  /** `body` spells `<stem>.<ext>` with `stem` of `[a-zA-Z0-9_-]+` and `ext` of `[a-zA-Z0-9]+`. */
  predicate VideoShape(body: string, stem: string, ext: string)
  {
    body == stem + "." + ext && IsIdText(stem) && IsAlnumText(ext)
  }

  /**
   * What `^([a-zA-Z0-9_-])+\.[a-zA-Z0-9]+$` captures in `file`: the last
   * repetition of the one-character group, that is the character just
   * before the '.', or `None` when the name does not match.
   */
  function VideoCapture(file: string): (r: Option<char>)
    ensures r.Some? ==> exists stem, ext :: VideoShape(Anchored(file), stem, ext) && r.value == stem[|stem| - 1]
  {
    var body := Anchored(file);
    var k := LastIndexOfChar(body, '.');
    if k < 0 || !IsIdText(body[..k]) || !IsAlnumText(body[k + 1..]) then None
    else
      SplitAtDot(body, k);
      Some(body[k - 1])
  }

  /** Cutting a name at a '.' between a stem and an extension of the pattern's classes. */
  lemma SplitAtDot(body: string, k: int)
    requires 0 <= k < |body| && body[k] == '.' && IsIdText(body[..k]) && IsAlnumText(body[k + 1..])
    ensures VideoShape(body, body[..k], body[k + 1..]) && body[..k][|body[..k]| - 1] == body[k - 1]
  {
    assert body == body[..k] + "." + body[k + 1..];
  }

  /** A stem of id characters holds no '.', so the last '.' is the one after it. */
  lemma {:induction false} LastDot(stem: string, ext: string)
    requires IsAlnumText(ext) || ext == []
    ensures LastIndexOfChar(stem + "." + ext, '.') == |stem|
    decreases |ext|
  {
    var s := stem + "." + ext;
    if ext != [] {
      var e := ext[..|ext| - 1];
      assert s[..|s| - 1] == stem + "." + e;
      assert IsLetterOrDigit(ext[|ext| - 1]);
      assert e == [] || IsAlnumText(e) by {
        assert forall i :: 0 <= i < |e| ==> e[i] == ext[i];
      }
      LastDot(stem, e);
    }
  }

  /** The match is exact: a name of the pattern's shape captures the last character of its stem. */
  lemma VideoCaptureUnique(file: string, stem: string, ext: string)
    requires VideoShape(Anchored(file), stem, ext)
    ensures VideoCapture(file) == Some(stem[|stem| - 1])
  {
    var body := Anchored(file);
    LastDot(stem, ext);
    assert body[..|stem|] == stem && body[|stem| + 1..] == ext;
  }

  /**
   * The path a request for `path` is looked up at, and the file name, or
   * `None` when the path is too short or the name does not match;
   * `path[8..]` drops `/videos/`.
   */
  function VideoFile(path: string, cfg: Config): (r: Option<(string, string)>)
    ensures r.Some? ==> 9 <= |path| && VideoCapture(path[8..]).Some? && r.value.1 == path[8..]
    ensures r.Some? ==> r.value.0 == cfg.workingDir + [Sep] + [VideoCapture(path[8..]).value] + [Sep] + path[8..]
    ensures r.None? ==> |path| < 9 || VideoCapture(path[8..]).None?
  {
    if |path| < 9 then None
    else
      var file := path[8..];
      match VideoCapture(file)
      case None => None
      case Some(c) => Some((cfg.workingDir + [Sep] + [c] + [Sep] + file, file))
  }

  /** A matched name holds '.', so its extension is not empty. */
  lemma MatchedHasDot(file: string)
    requires VideoCapture(file).Some?
    ensures '.' in file
  {
    var body := Anchored(file);
    var stem, ext :| VideoShape(body, stem, ext) && VideoCapture(file).value == stem[|stem| - 1];
    assert body[|stem|] == '.';
    assert file[|stem|] == '.';
  }

  /**
   * `HandleGet`: 404 "Video not found" for a short path, a name that does
   * not match or a file that is not on `disk`; otherwise the file with the
   * content type of its extension.
   */
  function HandleGet(path: string, cfg: Config, disk: set<string>): (r: Response)
    ensures r.code == 200 <==> VideoFile(path, cfg).Some? && VideoFile(path, cfg).value.0 in disk
    ensures r.code != 200 ==> r == Response(404, Text(NotFound))
    ensures r.code == 200 ==>
      var (filePath, file) := VideoFile(path, cfg).value;
      r.body == File(filePath, GetMime(FileExtension(file)))
  {
    match VideoFile(path, cfg)
    case None => Response(404, Text(NotFound))
    case Some((filePath, file)) =>
      if filePath !in disk then Response(404, Text(NotFound))
      else
        MatchedHasDot(file);
        Response(200, File(filePath, GetMime(FileExtension(file))))
  }

  /**
   * `HandleHead`: like `HandleGet`, but only a name that does not match
   * gets the "Video not found" text; a short path and a missing file get
   * a bare 404.
   */
  function HandleHead(path: string, cfg: Config, disk: set<string>): (r: Response)
    ensures r.code == 200 <==> VideoFile(path, cfg).Some? && VideoFile(path, cfg).value.0 in disk
    ensures |path| < 9 ==> r == Response(404, NoBody)
    ensures |path| >= 9 && VideoCapture(path[8..]).None? ==> r == Response(404, Text(NotFound))
    ensures VideoFile(path, cfg).Some? && VideoFile(path, cfg).value.0 !in disk ==> r == Response(404, NoBody)
    ensures r.code == 200 ==>
      var (filePath, file) := VideoFile(path, cfg).value;
      r.body == FileHead(filePath, GetMime(FileExtension(file)))
  {
    if |path| < 9 then Response(404, NoBody)
    else
      match VideoFile(path, cfg)
      case None => Response(404, Text(NotFound))
      case Some((filePath, file)) =>
        if filePath !in disk then Response(404, NoBody)
        else
          MatchedHasDot(file);
          Response(200, FileHead(filePath, GetMime(FileExtension(file))))
  }

  // ------------------------------------------------------------ finding

  /** The stem of a published name, `<token>_<taskId>`, is of id characters. */
  lemma PublishedStem(token: string, taskId: string)
    requires IsIdText(token) && IsIdText(taskId)
    ensures IsIdText(token + "_" + taskId)
  {
    var stem := token + "_" + taskId;
    assert forall i :: 0 <= i < |stem| ==> stem[i] == if i < |token| then token[i] else if i == |token| then '_' else taskId[i - |token| - 1];
  }

  /** A name ending in a letter or digit is its own anchored body. */
  lemma AnchoredPlain(stem: string, ext: string)
    requires IsAlnumText(ext)
    ensures Anchored(stem + "." + ext) == stem + "." + ext
  {
    var file := stem + "." + ext;
    assert file[|file| - 1] == ext[|ext| - 1];
  }

  /**
   * The name a task publishes, `<token>_<taskId>.<extension>`, lives in the
   * job's working directory, but the handler looks it up in the directory
   * named by the last character of the task id.
   */
  lemma PublishedNameMissesJob(cfg: Config, token: string, taskId: string, ext: string)
    requires IsIdText(token) && IsIdText(taskId) && IsAlnumText(ext)
    ensures var file := token + "_" + taskId + "." + ext;
      && VideoFile("/videos/" + file, cfg) == Some((cfg.workingDir + [Sep] + [taskId[|taskId| - 1]] + [Sep] + file, file))
      && (token != [taskId[|taskId| - 1]] ==> VideoFile("/videos/" + file, cfg).value.0 != cfg.workingDir + [Sep] + token + [Sep] + file)
  {
    var file := token + "_" + taskId + "." + ext;
    var c := taskId[|taskId| - 1];
    assert ("/videos/" + file)[8..] == file;
    PublishedCapture(token, taskId, ext);
    if token != [c] {
      DirectoriesDiffer(cfg.workingDir, [c], token, file);
    }
  }

  /** A published name captures the last character of its task id. */
  lemma PublishedCapture(token: string, taskId: string, ext: string)
    requires IsIdText(token) && IsIdText(taskId) && IsAlnumText(ext)
    ensures VideoCapture(token + "_" + taskId + "." + ext) == Some(taskId[|taskId| - 1])
  {
    var stem := token + "_" + taskId;
    PublishedStem(token, taskId);
    AnchoredPlain(stem, ext);
    VideoCaptureUnique(stem + "." + ext, stem, ext);
    assert stem[|stem| - 1] == taskId[|taskId| - 1];
  }

  /** Two lookups in different one-level directories are different paths. */
  lemma DirectoriesDiffer(w: string, a: string, b: string, file: string)
    requires |a| == 1 && IsIdText(b) && a != b
    ensures w + [Sep] + a + [Sep] + file != w + [Sep] + b + [Sep] + file
  {
    var x, y := w + [Sep] + a + [Sep] + file, w + [Sep] + b + [Sep] + file;
    if |b| == 1 {
      assert x[|w| + 1] == a[0] && y[|w| + 1] == b[0];
    } else {
      assert |x| != |y|;
    }
  }

  /**
   * The evidently intended capture, `^([a-zA-Z0-9_-]+)_[a-zA-Z0-9-]+\.[a-zA-Z0-9]+$`:
   * the stem up to its last '_', which is the job token of a published name.
   */
  function IntendedToken(file: string): (r: Option<string>)
    ensures r.Some? ==> IsIdText(r.value)
  {
    var body := Anchored(file);
    var k := LastIndexOfChar(body, '.');
    if k < 0 || !IsIdText(body[..k]) || !IsAlnumText(body[k + 1..]) then None
    else
      var stem := body[..k];
      var u := LastIndexOfChar(stem, '_');
      if u < 1 || u + 1 >= |stem| then None
      else
        assert forall i :: 0 <= i < u ==> stem[..u][i] == stem[i];
        Some(stem[..u])
  }

  /** The corrected lookup: the file under the working directory of its job. */
  function IntendedVideoFile(path: string, cfg: Config): (r: Option<(string, string)>)
    ensures r.Some? ==> 9 <= |path| && IntendedToken(path[8..]).Some? && r.value.1 == path[8..]
    ensures r.Some? ==> r.value.0 == cfg.workingDir + [Sep] + IntendedToken(path[8..]).value + [Sep] + path[8..]
    ensures r.None? ==> |path| < 9 || IntendedToken(path[8..]).None?
  {
    if |path| < 9 then None
    else
      var file := path[8..];
      match IntendedToken(file)
      case None => None
      case Some(token) => Some((cfg.workingDir + [Sep] + token + [Sep] + file, file))
  }

  /**
   * With the corrected capture, every published name of a task id without
   * '_' is looked up in its job's directory.
   */
  lemma PublishedNameFindsJob(cfg: Config, token: string, taskId: string, ext: string)
    requires IsIdText(token) && IsIdText(taskId) && '_' !in taskId && IsAlnumText(ext)
    ensures var file := token + "_" + taskId + "." + ext;
      IntendedVideoFile("/videos/" + file, cfg) == Some((cfg.workingDir + [Sep] + token + [Sep] + file, file))
  {
    var stem := token + "_" + taskId;
    var file := stem + "." + ext;
    assert ("/videos/" + file)[8..] == file;
    PublishedStem(token, taskId);
    AnchoredPlain(stem, ext);
    IntendedTokenOf(stem, ext, token, taskId);
  }

  /** The corrected capture of `<token>_<taskId>.<ext>` is the token. */
  lemma IntendedTokenOf(stem: string, ext: string, token: string, taskId: string)
    requires stem == token + "_" + taskId && IsIdText(stem) && IsIdText(token) && IsIdText(taskId) && '_' !in taskId
    requires IsAlnumText(ext) && Anchored(stem + "." + ext) == stem + "." + ext
    ensures IntendedToken(stem + "." + ext) == Some(token)
  {
    var file := stem + "." + ext;
    LastDot(stem, ext);
    assert file[..|stem|] == stem && file[|stem| + 1..] == ext;
    UnderscoreBeforeTask(token, taskId);
    assert stem[..|token|] == token;
  }

  /** The last '_' of `token_taskId` is the one after the token when the task id has none. */
  lemma UnderscoreBeforeTask(token: string, taskId: string)
    requires '_' !in taskId
    ensures LastIndexOfChar(token + "_" + taskId, '_') == |token|
  {
    var s := token + "_" + taskId;
    assert s[|token|] == '_';
    assert s[|token| + 1..] == taskId;
  }
}
