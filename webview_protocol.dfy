/**
  The `vscode-webview` file protocol handler of the main process
  (webviewProtocolProvider.ts): a request is answered with a file path only
  when the path component of its URI is one of three fixed entries.
*/
module WebviewProtocol {

  import opened Common

  /** The components of a URI as `URI.parse` splits them (section 3 of RFC 3986). */
  datatype Uri = Uri(scheme: string, authority: string, path: string, query: string, fragment: string)

  /** The single value handed to the protocol callback. */
  datatype Response = FilePath(path: string) | NetError(code: int)

  /** Chromium's `ACCESS_DENIED` and `FAILED` network error codes. */
  const AccessDenied: int := -10
  const Failed: int := -2

  /** Directory, relative to the application's sources, of the webview's static files. */
  const PreDirectory: string := "vs/workbench/contrib/webview/browser/pre/"

  /** `validWebviewFilePaths`: the only request paths that are served. */
  const ValidWebviewFilePaths: map<string, string> := map[
    "/index.html" := "index.html",
    "/fake.html" := "fake.html",
    "/service-worker.js" := "service-worker.js"
  ]

  /** Each accepted path names the file of the same name in the `pre` directory. */
  lemma AllowListShape()
    ensures ValidWebviewFilePaths.Keys == {"/index.html", "/fake.html", "/service-worker.js"}
    ensures forall p :: p in ValidWebviewFilePaths ==> p == "/" + ValidWebviewFilePaths[p]
  {
    forall p | p in ValidWebviewFilePaths
      ensures p == "/" + ValidWebviewFilePaths[p]
    {
      if p == "/index.html" {
        assert "/" + "index.html" == "/index.html";
      } else if p == "/fake.html" {
        assert "/" + "fake.html" == "/fake.html";
      } else {
        assert "/" + "service-worker.js" == "/service-worker.js";
      }
    }
  }

  /**
    `handleWebviewRequest`. `parsed` is what `URI.parse` made of the request's
    URL, `Err` when it threw. `resolve` stands for
    `decodeURIComponent(FileAccess.asFileUri(rel).fsPath)`: the decoded file
    path of a path relative to the sources, `None` when it throws. Every
    request gets exactly one response: this value.
  */
  function HandleWebviewRequest(parsed: Result<Uri, ()>, resolve: string -> Option<string>): (r: Response)
    ensures r.FilePath? <==>
      parsed.Ok? && parsed.value.path in ValidWebviewFilePaths &&
      resolve(PreDirectory + ValidWebviewFilePaths[parsed.value.path]).Some?
    ensures r.FilePath? ==> r.path == resolve(PreDirectory + ValidWebviewFilePaths[parsed.value.path]).value
    ensures r == NetError(AccessDenied) <==> parsed.Ok? && parsed.value.path !in ValidWebviewFilePaths
    ensures r == NetError(Failed) <==>
      parsed.Err? ||
      (parsed.value.path in ValidWebviewFilePaths &&
       resolve(PreDirectory + ValidWebviewFilePaths[parsed.value.path]).None?)
  {
    match parsed
    case Err(_) => NetError(Failed)
    case Ok(uri) =>
      if uri.path in ValidWebviewFilePaths then
        match resolve(PreDirectory + ValidWebviewFilePaths[uri.path])
        case Some(file) => FilePath(file)
        case None => NetError(Failed)
      else
        NetError(AccessDenied)
  }

  /** Only the path is consulted: scheme, authority, query and fragment never
      change the response. */
  lemma OnlyPathMatters(u: Uri, v: Uri, resolve: string -> Option<string>)
    requires u.path == v.path
    ensures HandleWebviewRequest(Ok(u), resolve) == HandleWebviewRequest(Ok(v), resolve)
  {
  }

  /** The allow list is matched against the decoded path. A `?` in that path
      can only come from an escaped `%3F`, since an unescaped `?` starts the
      query, so `/index.html%3Fx` is refused; a real query beside an accepted
      path is ignored, like every part of the URI but the path. */
  lemma QueryInPathIsRefused(resolve: string -> Option<string>)
    ensures HandleWebviewRequest(Ok(Uri("vscode-webview", "host", "/index.html?x", "", "")), resolve)
            == NetError(AccessDenied)
    ensures HandleWebviewRequest(Ok(Uri("vscode-webview", "host", "/index.html", "x=1", "top")), resolve)
            == HandleWebviewRequest(Ok(Uri("https", "", "/index.html", "", "")), resolve)
  {
    assert "/index.html?x" !in ValidWebviewFilePaths;
  }
}
