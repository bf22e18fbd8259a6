/** URL building on the server (`includes/path-helpers.php`): the base path the
    application is served under, and links and asset addresses below it.
    `$_SERVER['APP_BASE_PATH']` and the directory of `SCRIPT_NAME` are inputs. */
module PathHelpers {
  import opened Options
  import opened Strings

  /** `getBasePath`: a set, non-empty `APP_BASE_PATH` wins; otherwise the
      script's directory, with a bare root separator meaning "served at the
      root" and Windows separators turned into `/`. */
  function GetBasePath(appBasePath: Option<string>, scriptDir: string): (r: string)
    ensures appBasePath.Some? && !IsEmpty(appBasePath.value) ==> r == appBasePath.value
    ensures (appBasePath.None? || IsEmpty(appBasePath.value)) ==>
      && '\\' !in r
      && (scriptDir == "/" || scriptDir == "\\" ==> r == "")
      && (scriptDir != "/" && scriptDir != "\\" ==>
            |r| == |scriptDir| &&
            forall i :: 0 <= i < |r| ==> r[i] == (if scriptDir[i] == '\\' then '/' else scriptDir[i]))
  {
    if appBasePath.Some? && !IsEmpty(appBasePath.value) then appBasePath.value
    else
      var dir := if scriptDir == "/" || scriptDir == "\\" then "" else scriptDir;
      ReplaceChar(dir, '\\', '/')
  }

  /** A directory written with `\` separators gives the same base path as
      the one written with `/`. */
  lemma BasePathSeparatorsAgree(scriptDir: string)
    requires scriptDir != "\\" && scriptDir != "/"
    ensures GetBasePath(None, scriptDir) == GetBasePath(None, ReplaceChar(scriptDir, '\\', '/'))
  {
  }

  /** `str_starts_with($path, '/') ? $path : '/' . $path`. */
  function Rooted(path: string): (r: string)
    ensures IsPrefix("/", r)
    ensures IsPrefix("/", path) ==> r == path
    ensures !IsPrefix("/", path) ==> r == "/" + path
  {
    if IsPrefix("/", path) then path else "/" + path
  }

  /** `url($path)`: the base path followed by the path, with exactly one `/`
      added when the path lacks a leading one. */
  function Url(appBasePath: Option<string>, scriptDir: string, path: string): (r: string)
    ensures r == GetBasePath(appBasePath, scriptDir) + Rooted(path)
  {
    GetBasePath(appBasePath, scriptDir) + Rooted(path)
  }

  /** `url('x')` and `url('/x')` are the same address. */
  lemma UrlLeadingSlashOptional(appBasePath: Option<string>, scriptDir: string, path: string)
    requires !IsPrefix("/", path)
    ensures Url(appBasePath, scriptDir, path) == Url(appBasePath, scriptDir, "/" + path)
  {
    assert ("/" + path)[..1] == "/";
  }

  /** `asset($path)`: at most one leading `/` dropped, then the base path,
      `/assets/` and the rest. */
  function Asset(appBasePath: Option<string>, scriptDir: string, path: string): (r: string)
    ensures IsPrefix("/", path) ==> r == GetBasePath(appBasePath, scriptDir) + "/assets/" + path[1..]
    ensures !IsPrefix("/", path) ==> r == GetBasePath(appBasePath, scriptDir) + "/assets/" + path
  {
    var rest := if IsPrefix("/", path) then path[1..] else path;
    GetBasePath(appBasePath, scriptDir) + "/assets/" + rest
  }

  /** `asset('/a')` and `asset('a')` are the same address; a second leading
      slash is kept. */
  lemma AssetLeadingSlashOptional(appBasePath: Option<string>, scriptDir: string, path: string)
    requires !IsPrefix("/", path)
    ensures Asset(appBasePath, scriptDir, "/" + path) == Asset(appBasePath, scriptDir, path)
    ensures Asset(appBasePath, scriptDir, "//" + path) == GetBasePath(appBasePath, scriptDir) + "/assets//" + path
  {
    assert ("/" + path)[..1] == "/" && ("/" + path)[1..] == path;
    assert ("//" + path)[..1] == "/" && ("//" + path)[1..] == "/" + path;
  }
}
