/** The base controller (`app/Core/Controller.php`): the `url` and `asset`
    functions it gives the templates, the data every view receives, and
    the target of a redirect. `$_SERVER['APP_BASE_PATH']` is an input. */
module BaseController {
  import opened Options
  import opened Strings
  import opened Authentication
  import PathHelpers

  /** `$_SERVER['APP_BASE_PATH'] ?? ''`. */
  function BasePath(appBasePath: Option<string>): string {
    appBasePath.GetOr("")
  }

  /** The templates' `url(path)`. */
  function TwigUrl(appBasePath: Option<string>, path: string): (r: string)
    ensures IsPrefix("/", path) ==> r == BasePath(appBasePath) + path
    ensures !IsPrefix("/", path) ==> r == BasePath(appBasePath) + "/" + path
  {
    BasePath(appBasePath) + PathHelpers.Rooted(path)
  }

  /** The templates' `asset(path)`. */
  function TwigAsset(appBasePath: Option<string>, path: string): (r: string)
    ensures IsPrefix("/", path) ==> r == BasePath(appBasePath) + "/assets/" + path[1..]
    ensures !IsPrefix("/", path) ==> r == BasePath(appBasePath) + "/assets/" + path
  {
    var rest := if IsPrefix("/", path) then path[1..] else path;
    BasePath(appBasePath) + "/assets/" + rest
  }

  /** Once the front controller has stored `getBasePath()` in
      `APP_BASE_PATH`, the templates' `url` and `asset` give the same
      addresses as the helpers in `includes/path-helpers.php`. */
  lemma TwigHelpersAgree(appBasePath: Option<string>, scriptDir: string, path: string)
    ensures TwigUrl(Some(PathHelpers.GetBasePath(appBasePath, scriptDir)), path)
         == PathHelpers.Url(appBasePath, scriptDir, path)
    ensures TwigAsset(Some(PathHelpers.GetBasePath(appBasePath, scriptDir)), path)
         == PathHelpers.Asset(appBasePath, scriptDir, path)
  {
  }

  /** A value handed to a template. `Other` stands for whatever a controller
      passes (rows, counts, flags) that the base controller does not inspect. */
  datatype ViewValue =
    | Text(s: string)
    | AuthData(check: bool, user: Option<UserInfo>, csrfToken: SessionValue)
    | Other(id: int)

  /** `explode('/', $view)[0]`: the section of the site a view belongs to. */
  function CurrentPage(view: string): (r: string)
    ensures IsPrefix(r, view) && '/' !in r
    ensures |r| < |view| ==> view[|r|] == '/'
  {
    BeforeFirst(view, '/')
  }

  /** The section of a view named `section/rest` is `section`, and a view
      name without a `/` is its own section. */
  lemma CurrentPageOf(section: string, rest: string)
    requires '/' !in section
    ensures CurrentPage(section + "/" + rest) == section
    ensures CurrentPage(section) == section
  {
    BeforeFirstConcat(section, "/" + rest, '/');
    assert section + "/" + rest == section + ("/" + rest);
    BeforeFirstConcat(section, "", '/');
    assert section + "" == section;
  }

  /** `view`: the data gets `auth`, `base_path` and `current_page` (these
      three replace any value the caller gave them), and is then rendered. */
  method View(view: string, data: map<string, ViewValue>, session: Session, appBasePath: Option<string>)
    returns (rendered: map<string, ViewValue>)
    ensures rendered.Keys == data.Keys + {"auth", "base_path", "current_page"}
    ensures rendered["auth"] == AuthData(session.Check(), session.User(), session.CsrfToken())
    ensures rendered["base_path"] == Text(BasePath(appBasePath))
    ensures rendered["current_page"] == Text(CurrentPage(view))
    ensures forall k :: k in data && k !in {"auth", "base_path", "current_page"} ==> rendered[k] == data[k]
  {
    rendered := data;
    rendered := rendered["auth" := AuthData(session.Check(), session.User(), session.CsrfToken())];
    rendered := rendered["base_path" := Text(BasePath(appBasePath))];
    rendered := rendered["current_page" := Text(CurrentPage(view))];
  }

  /** `redirect`: the Location header is the base path followed by the path
      exactly as given; unlike `url`, no `/` is added. */
  function RedirectLocation(appBasePath: Option<string>, path: string): (r: string)
    ensures IsPrefix(BasePath(appBasePath), r) && r[|BasePath(appBasePath)|..] == path
  {
    BasePath(appBasePath) + path
  }

  /** For a path with a leading `/` (every call in the application) the
      redirect goes to the address `url` gives; without one the two differ. */
  lemma RedirectMatchesUrl(appBasePath: Option<string>, path: string)
    ensures IsPrefix("/", path) ==> RedirectLocation(appBasePath, path) == TwigUrl(appBasePath, path)
    ensures !IsPrefix("/", path) ==> RedirectLocation(appBasePath, path) != TwigUrl(appBasePath, path)
  {
  }
}
