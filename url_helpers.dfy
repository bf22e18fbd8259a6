/** The browser-side URL helper (`public/assets/js/url-helpers.js`): `url`
    builds an address under `window.APP_BASE_PATH`, `navigateTo` sends the
    window there. */
module UrlHelpersJs {
  import opened Options
  import opened Strings
  import BaseController

  /** `window.APP_BASE_PATH || ''`: an absent or empty value means no prefix. */
  function JsBasePath(appBasePath: Option<string>): string {
    if appBasePath.Some? then appBasePath.value else ""
  }

  /** `url(path)`. */
  function JsUrl(appBasePath: Option<string>, path: string): (r: string)
    ensures IsPrefix("/", path) ==> r == JsBasePath(appBasePath) + path
    ensures !IsPrefix("/", path) ==> r == JsBasePath(appBasePath) + "/" + path
  {
    var path' := if IsPrefix("/", path) then path else "/" + path;
    JsBasePath(appBasePath) + path'
  }

  /** `url('x')` and `url('/x')` are the same address. */
  lemma JsUrlLeadingSlashOptional(appBasePath: Option<string>, path: string)
    requires !IsPrefix("/", path)
    ensures JsUrl(appBasePath, path) == JsUrl(appBasePath, "/" + path)
  {
    assert ("/" + path)[..1] == "/";
  }

  /** The page and the server agree: with the same base path, the browser's
      `url` gives the address the templates' `url` gives. */
  lemma JsUrlMatchesServer(appBasePath: Option<string>, path: string)
    ensures JsUrl(appBasePath, path) == BaseController.TwigUrl(appBasePath, path)
  {
  }

  /** The part of `window` the helper changes. */
  class Window {
    var href: string

    constructor(href: string)
      ensures this.href == href
    {
      this.href := href;
    }

    /** `navigateTo(path)`: the window goes to exactly `url(path)`. */
    method NavigateTo(path: string, appBasePath: Option<string>)
      modifies this
      ensures href == JsUrl(appBasePath, path)
    {
      href := JsUrl(appBasePath, path);
    }
  }
}
