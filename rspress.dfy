/**
 * The documentation-serving middleware of middleware/rspress.go. For a
 * request under a documentation's base URL it runs the credential cascade
 * (admin cookies, then visitor cookies, then the `jwt_token` query
 * parameter), rejects the request when the documentation requires
 * authentication and no tier succeeded, and otherwise serves the file from
 * the content cache or, on a miss, from disk.
 *
 * Token signatures, the documentation lookup and the file system are not
 * modelled; they are the function-valued fields of `Env`.
 */
module RsPress {
  import opened Wrappers
  import opened GoStrings
  import opened FilePath
  import opened Cache

  /** The documentation metadata the middleware reads for one request. */
  datatype DocData = DocData(id: nat, baseURL: string, path: string, requireAuth: bool, tokenSecret: string)

  /** The three answers of DocService.GetRsPressFromURL: an error, not found, or the documentation. */
  datatype DocLookup = LookupFailed(message: string) | NotFound | Found(doc: DocData)

  /**
   * The parts of an HTTP request the middleware reads: the URL path, the
   * values of the cookies named as the admin token and as the visitor token
   * (in request order), and the `jwt_token` query value ("" when absent, as
   * `Query().Get` answers).
   */
  datatype Request = Request(urlPath: string, adminCookies: seq<string>, visitorCookies: seq<string>, jwtToken: string)

  /**
   * The collaborators of the middleware:
   *  - jwtSecretKey: the global key of AuthService;
   *  - validateDocJWT(token, key): utils.ValidateDocJWT succeeds (HS256 signature and expiry);
   *  - verifyDocumentJWT(token, id): AuthService.VerifyDocumentJWT succeeds for documentation `id`;
   *  - getRsPressFromURL(path): DocService.GetRsPressFromURL;
   *  - fileNotExist(path): os.Stat on `path` fails with a not-exist error.
   */
  datatype Env = Env(
    jwtSecretKey: string,
    validateDocJWT: (string, string) -> bool,
    verifyDocumentJWT: (string, nat) -> bool,
    getRsPressFromURL: string -> DocLookup,
    fileNotExist: string -> bool)

  /** What the middleware writes: hand over to the next handler, a 500 or 401 JSON response, cached bytes or a file. */
  datatype Outcome =
    | Delegate
    | Error500(message: string)
    | Unauthorized
    | ServeCached(entry: CacheEntry)
    | ServeFile(path: string)

  /** The tier of the cascade that authorised the request. */
  datatype Grant = ByAdminCookie | ByVisitorCookie | ByQueryToken | NoGrant

  // ---------------------------------------------------------------------------
  // The credential cascade, as a reference definition

  predicate AdminCookieValid(env: Env, value: string) {
    value != "" && env.validateDocJWT(value, env.jwtSecretKey)
  }

  predicate VisitorCookieValid(env: Env, doc: DocData, value: string) {
    value != "" && env.verifyDocumentJWT(value, doc.id)
  }

  predicate QueryTokenValid(env: Env, doc: DocData, token: string) {
    token != "" && env.verifyDocumentJWT(token, doc.id)
  }

  predicate SomeAdminCookieValid(env: Env, req: Request) {
    exists i :: 0 <= i < |req.adminCookies| && AdminCookieValid(env, req.adminCookies[i])
  }

  predicate SomeVisitorCookieValid(env: Env, doc: DocData, req: Request) {
    exists i :: 0 <= i < |req.visitorCookies| && VisitorCookieValid(env, doc, req.visitorCookies[i])
  }

  /** The first tier, in order, that holds a valid credential. */
  function Cascade(env: Env, doc: DocData, req: Request): (g: Grant)
    ensures g == ByAdminCookie <==> SomeAdminCookieValid(env, req)
    ensures g == ByVisitorCookie <==> !SomeAdminCookieValid(env, req) && SomeVisitorCookieValid(env, doc, req)
    ensures g == ByQueryToken <==>
      !SomeAdminCookieValid(env, req) && !SomeVisitorCookieValid(env, doc, req) && QueryTokenValid(env, doc, req.jwtToken)
    ensures g == NoGrant <==>
      !SomeAdminCookieValid(env, req) && !SomeVisitorCookieValid(env, doc, req) && !QueryTokenValid(env, doc, req.jwtToken)
  {
    if SomeAdminCookieValid(env, req) then ByAdminCookie
    else if SomeVisitorCookieValid(env, doc, req) then ByVisitorCookie
    else if QueryTokenValid(env, doc, req.jwtToken) then ByQueryToken
    else NoGrant
  }

  // ---------------------------------------------------------------------------
  // Cache key normalisation

  /** `<Path>/build/`, the directory prefix whose files are keyed without it. */
  function BuildDir(doc: DocData): string {
    Join(doc.path, "build") + [Separator]
  }

  /** The file the request names on disk. */
  function FullPath(doc: DocData, urlPath: string): string {
    Join(doc.path, TrimPrefix(urlPath, doc.baseURL))
  }

  /** The file served when the requested one does not exist. */
  function FallbackPath(doc: DocData): string {
    Join3(doc.path, "build", "index.html")
  }

  /** The key before the generator quirks: the URL path under the base URL, or the path under `build/`. */
  function StripBuildDir(doc: DocData, urlPath: string): (k: string)
    ensures HasPrefix(FullPath(doc, urlPath), BuildDir(doc)) ==> BuildDir(doc) + k == FullPath(doc, urlPath)
    ensures !HasPrefix(FullPath(doc, urlPath), BuildDir(doc)) && HasPrefix(urlPath, doc.baseURL) ==> doc.baseURL + k == urlPath
    ensures !HasPrefix(FullPath(doc, urlPath), BuildDir(doc)) && !HasPrefix(urlPath, doc.baseURL) ==> k == urlPath
  {
    var fullPath := FullPath(doc, urlPath);
    if HasPrefix(fullPath, BuildDir(doc)) then TrimPrefix(fullPath, BuildDir(doc))
    else TrimPrefix(urlPath, doc.baseURL)
  }

  /** The two generator quirks: a `guides.html` suffix loses its `.html`; a key without extension gets `index.html` joined. */
  function NormalizeFileKey(fileKey: string): (r: string)
    ensures Ext(r) != ""
    ensures Ext(fileKey) != "" && !HasSuffix(fileKey, "guides.html") ==> r == fileKey
    ensures Ext(fileKey) == "" ==> r == Join(fileKey, "index.html")
  {
    var k := if HasSuffix(fileKey, "guides.html") then TrimSuffix(fileKey, ".html") else fileKey;
    JoinIndexHtml(k);
    GuidesHtmlHasExt(fileKey);
    if Ext(k) == "" then Join(k, "index.html") else k
  }

  /** The relative key of a request, before its first rune is dropped. */
  function RelativeKey(doc: DocData, urlPath: string): (r: string)
    ensures Ext(r) != ""
  {
    NormalizeFileKey(StripBuildDir(doc, urlPath))
  }

  /** `rs|doc_<ID>|`, the part of every cache key that names the documentation. */
  function DocKeyPrefix(id: nat): string {
    "rs|doc_" + FormatUint(id) + "|"
  }

  /** `rs|doc_<ID>|` followed by the relative key minus its first rune. */
  function CacheKey(id: nat, relativeKey: string): (key: string)
    ensures HasPrefix(key, DocKeyPrefix(id))
    ensures relativeKey != "" ==> |key| == |DocKeyPrefix(id)| + |relativeKey| - 1
  {
    DocKeyPrefix(id) + TrimFirstRune(relativeKey)
  }

  /** Content resolution: the cached entry for the request's key, else the file on disk, else the build's index page. */
  function ResolveContent(entries: map<string, CacheEntry>, env: Env, doc: DocData, urlPath: string): (out: Outcome)
    ensures out.ServeCached? || out.ServeFile?
    ensures out.ServeCached? <==> CacheKey(doc.id, RelativeKey(doc, urlPath)) in entries
    ensures out.ServeCached? ==> out.entry == entries[CacheKey(doc.id, RelativeKey(doc, urlPath))]
    ensures out.ServeFile? ==> out.path == FullPath(doc, urlPath) || out.path == FallbackPath(doc)
    ensures out.ServeFile? && !env.fileNotExist(FullPath(doc, urlPath)) ==> out.path == FullPath(doc, urlPath)
    ensures out.ServeFile? && env.fileNotExist(FullPath(doc, urlPath)) ==> out.path == FallbackPath(doc)
  {
    var key := CacheKey(doc.id, RelativeKey(doc, urlPath));
    if key in entries then ServeCached(entries[key])
    else
      var fullPath := FullPath(doc, urlPath);
      ServeFile(if env.fileNotExist(fullPath) then FallbackPath(doc) else fullPath)
  }

  // ---------------------------------------------------------------------------
  // The handler

  /**
   * RsPressMiddleware's handler for one request, reading the cache.
   * `visitorCookieSet` says that SetDocVisitorCookie was called on the response.
   */
  method ServeDocRequest(cache: ContentCache, env: Env, req: Request) returns (out: Outcome, visitorCookieSet: bool)
    ensures env.getRsPressFromURL(req.urlPath).LookupFailed? ==>
      out == Error500(env.getRsPressFromURL(req.urlPath).message) && !visitorCookieSet
    ensures env.getRsPressFromURL(req.urlPath).NotFound? ==> out == Delegate && !visitorCookieSet
    ensures env.getRsPressFromURL(req.urlPath).Found? ==>
      var doc := env.getRsPressFromURL(req.urlPath).doc;
      && visitorCookieSet == (Cascade(env, doc, req) == ByQueryToken)
      && (out == Unauthorized <==> doc.requireAuth && Cascade(env, doc, req) == NoGrant)
      && (out != Unauthorized ==> out == ResolveContent(cache.entries, env, doc, req.urlPath))
      && (!doc.requireAuth ==> out.ServeCached? || out.ServeFile?)
  {
    visitorCookieSet := false;
    var lookup := env.getRsPressFromURL(req.urlPath);
    if lookup.LookupFailed? {
      out := Error500(lookup.message);
      return;
    } else if lookup.NotFound? {
      out := Delegate;
      return;
    }
    var doc := lookup.doc;

    var authorized := false;
    // 1. admin cookies, validated against the global key
    for i := 0 to |req.adminCookies|
      invariant !authorized
      invariant forall j :: 0 <= j < i ==> !AdminCookieValid(env, req.adminCookies[j])
    {
      var value := req.adminCookies[i];
      if value != "" {
        if env.validateDocJWT(value, env.jwtSecretKey) {
          authorized := true;
          break;
        } else {
          continue;
        }
      }
    }
    assert authorized == SomeAdminCookieValid(env, req);

    // 2. visitor cookies, validated for this documentation
    if !authorized {
      for i := 0 to |req.visitorCookies|
        invariant !authorized
        invariant forall j :: 0 <= j < i ==> !VisitorCookieValid(env, doc, req.visitorCookies[j])
      {
        var value := req.visitorCookies[i];
        if value != "" {
          if env.verifyDocumentJWT(value, doc.id) {
            authorized := true;
            break;
          } else {
            continue;
          }
        }
      }
      assert authorized == SomeVisitorCookieValid(env, doc, req);
    }

    // 3. the jwt_token query parameter, which is turned into a visitor cookie
    if !authorized {
      if req.jwtToken != "" {
        if env.verifyDocumentJWT(req.jwtToken, doc.id) {
          visitorCookieSet := true;
          authorized := true;
        }
      }
    }
    assert authorized == (Cascade(env, doc, req) != NoGrant);

    if doc.requireAuth && !authorized {
      out := Unauthorized;
      return;
    }

    var fullPath := FullPath(doc, req.urlPath);
    var key := CacheKey(doc.id, RelativeKey(doc, req.urlPath));
    var entry, err := cache.GetValue(key);
    if err == None {
      out := ServeCached(entry);
      return;
    }
    if env.fileNotExist(fullPath) {
      fullPath := FallbackPath(doc);
    }
    out := ServeFile(fullPath);
  }

  // ---------------------------------------------------------------------------
  // Properties of the cascade

  /** An admin cookie that validates decides the request, whatever the visitor cookies and the query token hold. */
  lemma AdminCookieTakesPrecedence(env: Env, doc: DocData, req: Request, visitorCookies: seq<string>, jwtToken: string)
    requires SomeAdminCookieValid(env, req)
    ensures Cascade(env, doc, req) == ByAdminCookie
    ensures Cascade(env, doc, req.(visitorCookies := visitorCookies, jwtToken := jwtToken)) == ByAdminCookie
  {
  }

  /** A visitor cookie that validates decides the request when no admin cookie does, whatever the query token holds. */
  lemma VisitorCookieBeforeQueryToken(env: Env, doc: DocData, req: Request, jwtToken: string)
    requires !SomeAdminCookieValid(env, req) && SomeVisitorCookieValid(env, doc, req)
    ensures Cascade(env, doc, req) == ByVisitorCookie
    ensures Cascade(env, doc, req.(jwtToken := jwtToken)) == ByVisitorCookie
  {
  }

  /**
   * Tiers are independent: admin cookies that all fail count as no admin
   * cookies, and visitor cookies that all fail count as no visitor cookies.
   */
  lemma FailedTierDoesNotBlock(env: Env, doc: DocData, req: Request)
    ensures !SomeAdminCookieValid(env, req) ==>
      Cascade(env, doc, req) == Cascade(env, doc, req.(adminCookies := []))
    ensures !SomeAdminCookieValid(env, req) && !SomeVisitorCookieValid(env, doc, req) ==>
      Cascade(env, doc, req) == Cascade(env, doc, req.(adminCookies := [], visitorCookies := []))
  {
  }

  /** An admin cookie with an empty value is skipped: inserting one anywhere in the admin cookies changes nothing. */
  lemma {:induction false} EmptyAdminCookieIgnored(env: Env, doc: DocData, req: Request, i: nat)
    requires i <= |req.adminCookies|
    ensures Cascade(env, doc, req.(adminCookies := req.adminCookies[..i] + [""] + req.adminCookies[i..]))
         == Cascade(env, doc, req)
  {
    var a := req.adminCookies;
    var req' := req.(adminCookies := a[..i] + [""] + a[i..]);
    var a' := req'.adminCookies;
    assert |a'| == |a| + 1;
    if SomeAdminCookieValid(env, req) {
      var j :| 0 <= j < |a| && AdminCookieValid(env, a[j]);
      var j' := if j < i then j else j + 1;
      assert a'[j'] == a[j];
    }
    if SomeAdminCookieValid(env, req') {
      var j' :| 0 <= j' < |a'| && AdminCookieValid(env, a'[j']);
      assert j' != i;
      var j := if j' < i then j' else j' - 1;
      assert a[j] == a'[j'];
    }
  }

  /** A visitor cookie with an empty value is skipped: inserting one anywhere in the visitor cookies changes nothing. */
  lemma {:induction false} EmptyVisitorCookieIgnored(env: Env, doc: DocData, req: Request, i: nat)
    requires i <= |req.visitorCookies|
    ensures Cascade(env, doc, req.(visitorCookies := req.visitorCookies[..i] + [""] + req.visitorCookies[i..]))
         == Cascade(env, doc, req)
  {
    var v := req.visitorCookies;
    var req' := req.(visitorCookies := v[..i] + [""] + v[i..]);
    var v' := req'.visitorCookies;
    assert |v'| == |v| + 1;
    if SomeVisitorCookieValid(env, doc, req) {
      var j :| 0 <= j < |v| && VisitorCookieValid(env, doc, v[j]);
      var j' := if j < i then j else j + 1;
      assert v'[j'] == v[j];
    }
    if SomeVisitorCookieValid(env, doc, req') {
      var j' :| 0 <= j' < |v'| && VisitorCookieValid(env, doc, v'[j']);
      assert j' != i;
      var j := if j' < i then j' else j' - 1;
      assert v[j] == v'[j'];
    }
  }

  // ---------------------------------------------------------------------------
  // Properties of the cache key

  /** Joining `index.html` onto `<d>guides` gives a path ending in `guides/index.html`. */
  lemma JoinGuidesIndex(d: string)
    ensures HasSuffix(Join(d + "guides", "index.html"), "guides/index.html")
  {
    assert Separator !in "guides" && Separator !in "index.html";
    JoinNamesSuffix(d, "guides", "index.html");
    assert "guides" + [Separator] + "index.html" == "guides/index.html";
  }

  /** `<stem>guides.html` is a `guides.html` path whose `.html` trims back to `<stem>guides`. */
  lemma GuidesHtmlTrim(d: string)
    ensures HasSuffix(d + "guides.html", "guides.html")
    ensures TrimSuffix(d + "guides.html", ".html") == d + "guides"
  {
    var k := d + "guides.html";
    assert k == (d + "guides") + ".html";
    assert k[|k| - |"guides.html"|..] == "guides.html";
    assert k[|k| - |".html"|..] == ".html";
  }

  /** `<d>guides` has no extension when the final element of `d` has no dot. */
  lemma GuidesStemNoExt(d: string)
    requires '.' !in FinalElement(d)
    ensures Ext(d + "guides") == ""
  {
    assert Separator !in "guides" && '.' !in "guides";
    FinalElementAppend(d, "guides");
    ExtIsLastDotSuffix(d + "guides");
  }

  /**
   * A key ending in `guides.html` ends in `guides/index.html` once
   * normalised, when no other dot is in its final element.
   */
  lemma GuidesHtmlBecomesGuidesIndex(d: string)
    requires '.' !in FinalElement(d)
    ensures NormalizeFileKey(d + "guides.html") == Join(d + "guides", "index.html")
    ensures HasSuffix(NormalizeFileKey(d + "guides.html"), "guides/index.html")
  {
    GuidesHtmlTrim(d);
    GuidesStemNoExt(d);
    JoinGuidesIndex(d);
  }

  /**
   * A versioned layout: `/<v>/guides.html`, for a version directory `v` such
   * as `v1.0`, becomes `/<v>/guides/index.html`.
   */
  lemma VersionedGuidesHtml(v: string)
    requires v != "" && Separator !in v
    ensures NormalizeFileKey("/" + v + "/guides.html") == "/" + v + "/guides/index.html"
  {
    var d := "/" + v + "/";
    VersionDirShape(v);
    GuidesHtmlBecomesGuidesIndex(d);
    VersionGuidesJoin(v);
  }

  lemma VersionDirShape(v: string)
    ensures FinalElement("/" + v + "/") == ""
    ensures ("/" + v + "/") + "guides.html" == "/" + v + "/guides.html"
  {
  }

  lemma VersionGuidesJoin(v: string)
    requires v != "" && Separator !in v
    ensures Join("/" + v + "/" + "guides", "index.html") == "/" + v + "/guides/index.html"
  {
    var x := "/" + v + "/" + "guides";
    var xs := x + [Separator];
    VersionGuidesNoRepeat(v);
    JoinNameShape(x, "index.html");
    CollapseNoRepeat(xs);
    assert xs + "index.html" == "/" + v + "/guides/index.html";
  }

  lemma VersionGuidesNoRepeat(v: string)
    requires v != "" && Separator !in v
    ensures NoRepeatedSeparator("/" + v + "/" + "guides" + [Separator])
  {
    var xs := "/" + v + "/" + "guides" + [Separator];
    forall i | 0 < i < |xs| ensures !(xs[i - 1] == Separator && xs[i] == Separator) {
      if i <= |v| {
        assert xs[i] == v[i - 1];
      } else if i == |v| + 1 {
        assert xs[i - 1] == v[i - 2];
      } else if i == |v| + 2 {
        assert xs[i] == 'g';
      } else {
        assert xs[i - 1] == "guides"[i - |v| - 3];
      }
    }
  }

  /** The quirk as written: `<d>.guides.html` is cut to `<d>.guides`, whose extension `.guides` stops `index.html` being joined. */
  lemma DottedGuidesKeepsExtension(d: string)
    ensures NormalizeFileKey(d + ".guides.html") == d + ".guides"
  {
    GuidesHtmlTrim(d + ".");
    assert d + "." + "guides" == d + ".guides";
    assert d + "." + "guides.html" == d + ".guides.html";
    ExtAfterLastDot(d, "guides");
  }

  /** A path ending in `guides.html` has the extension `.html`. */
  lemma GuidesHtmlHasExt(k: string)
    ensures HasSuffix(k, "guides.html") ==> Ext(k) == ".html"
  {
    if HasSuffix(k, "guides.html") {
      var stem := k[..|k| - 5];
      assert k == stem + "." + "html";
      ExtAfterLastDot(stem, "html");
    }
  }

  /** A path ending in a separator is neither a `guides.html` path nor has an extension. */
  lemma TrailingSeparatorKey(k: string)
    requires k != "" && k[|k| - 1] == Separator
    ensures !HasSuffix(k, "guides.html") && Ext(k) == ""
  {
  }

  /** Trimming the base URL off `u/` gives the trimmed `u` followed by a separator. */
  lemma TrimPrefixTrailingSeparator(u: string, base: string)
    requires HasPrefix(u, base)
    ensures TrimPrefix(u + [Separator], base) == TrimPrefix(u, base) + [Separator]
  {
    assert base <= u + [Separator];
    assert (u + [Separator])[|base|..] == u[|base|..] + [Separator];
  }

  /** A file key with and without a trailing separator names the same file on disk. */
  lemma JoinTrailingSeparator(path: string, fk: string)
    requires fk != ""
    ensures Join(path, fk + [Separator]) == Join(path, fk)
  {
    if path != "" {
      CleanTrailingSeparator(path + [Separator] + fk);
      assert path + [Separator] + (fk + [Separator]) == path + [Separator] + fk + [Separator];
    } else {
      CleanTrailingSeparator(fk);
    }
  }

  /** A request path with and without a trailing separator gives the same key when the path has no extension. */
  lemma TrailingSeparatorSameKey(doc: DocData, u: string)
    requires HasPrefix(u, doc.baseURL)
    requires TrimPrefix(u, doc.baseURL) != "" && Ext(TrimPrefix(u, doc.baseURL)) == ""
    ensures FullPath(doc, u + [Separator]) == FullPath(doc, u)
    ensures RelativeKey(doc, u + [Separator]) == RelativeKey(doc, u)
  {
    var fk := TrimPrefix(u, doc.baseURL);
    TrimPrefixTrailingSeparator(u, doc.baseURL);
    JoinTrailingSeparator(doc.path, fk);
    if !HasPrefix(FullPath(doc, u), BuildDir(doc)) {
      assert StripBuildDir(doc, u) == fk;
      assert StripBuildDir(doc, u + [Separator]) == fk + [Separator];
      TrailingSeparatorKey(fk + [Separator]);
      if HasSuffix(fk, "guides.html") {
        GuidesHtmlHasExt(fk);
      }
      JoinIndexHtmlTrailingSeparator(fk);
    }
  }

  /** The disk paths of the base URL, with or without a trailing separator, are shorter than `<Path>/build/`, so never under it. */
  lemma BaseUrlOutsideBuildDir(doc: DocData)
    ensures !HasPrefix(FullPath(doc, doc.baseURL), BuildDir(doc))
    ensures !HasPrefix(FullPath(doc, doc.baseURL + [Separator]), BuildDir(doc))
  {
    var base := doc.baseURL;
    var u := base + [Separator];
    assert TrimPrefix(base, base) == "";
    assert u[|base|..] == [Separator];
    assert TrimPrefix(u, base) == [Separator];
    var p := doc.path;
    if p == "" {
      assert FullPath(doc, base) == "";
      assert FullPath(doc, u) == Clean([Separator]) == [Separator];
      assert |BuildDir(doc)| >= 2;
    } else {
      assert Separator !in "build";
      JoinNameShape(p, "build");
      var c := CollapseSeparators(p + [Separator]);
      assert |BuildDir(doc)| == |c| + 6;
      assert p + [Separator] + "" == p + [Separator];
      assert |FullPath(doc, base)| <= |c|;
      var pss := p + [Separator] + [Separator];
      assert pss[..|pss| - 1] == p + [Separator];
      assert CollapseSeparators(pss) == c;
      assert |FullPath(doc, u)| <= |c|;
    }
  }

  /** The quirk as written: the base URL itself is keyed `ndex.html`, since the first rune of `index.html` is dropped. */
  lemma BaseUrlKeyLosesFirstRune(doc: DocData)
    ensures CacheKey(doc.id, RelativeKey(doc, doc.baseURL)) == DocKeyPrefix(doc.id) + "ndex.html"
  {
    BaseUrlOutsideBuildDir(doc);
    assert TrimPrefix(doc.baseURL, doc.baseURL) == "";
    JoinIndexHtmlShape("");
  }

  /** The base URL with a trailing separator is keyed `index.html`. */
  lemma BaseUrlWithSeparatorKey(doc: DocData)
    ensures CacheKey(doc.id, RelativeKey(doc, doc.baseURL + [Separator])) == DocKeyPrefix(doc.id) + "index.html"
  {
    BaseUrlOutsideBuildDir(doc);
    var u := doc.baseURL + [Separator];
    assert u[|doc.baseURL|..] == [Separator];
    assert TrimPrefix(u, doc.baseURL) == [Separator];
    JoinIndexHtmlShape([Separator]);
    assert [Separator] + [Separator] == "//";
    assert CollapseSeparators("//") == "/";
  }

  /**
   * The quirk as written: a path under `<Path>/build/` loses that prefix with
   * its separator, and then the first character of the remaining name too.
   */
  lemma BuildPathLosesFirstCharacter(doc: DocData, urlPath: string, name: string)
    requires FullPath(doc, urlPath) == BuildDir(doc) + name
    requires Ext(name) != "" && !HasSuffix(name, "guides.html")
    ensures name != ""
    ensures CacheKey(doc.id, RelativeKey(doc, urlPath)) == DocKeyPrefix(doc.id) + name[1..]
  {
    assert TrimPrefix(BuildDir(doc) + name, BuildDir(doc)) == name;
  }

  /** A file directly under the base URL, with an extension, is keyed by its name. */
  lemma PlainFileKey(doc: DocData, name: string)
    requires Ext(name) != "" && !HasSuffix(name, "guides.html")
    requires !HasPrefix(FullPath(doc, doc.baseURL + [Separator] + name), BuildDir(doc))
    ensures CacheKey(doc.id, RelativeKey(doc, doc.baseURL + [Separator] + name)) == DocKeyPrefix(doc.id) + name
  {
    var u := doc.baseURL + [Separator] + name;
    var k := [Separator] + name;
    assert u == doc.baseURL + k;
    assert TrimPrefix(u, doc.baseURL) == k;
    assert StripBuildDir(doc, u) == k;
    SlashNameKeepsShape(name);
    assert NormalizeFileKey(k) == k;
    assert k[1..] == name;
  }

  /** Putting a separator before a name keeps its extension and its (lack of a) `guides.html` suffix. */
  lemma SlashNameKeepsShape(name: string)
    requires Ext(name) != "" && !HasSuffix(name, "guides.html")
    ensures !HasSuffix([Separator] + name, "guides.html") && Ext([Separator] + name) != ""
  {
    SlashNameNoGuides(name);
    ExtPrepend(Separator, name);
  }

  lemma SlashNameNoGuides(name: string)
    requires !HasSuffix(name, "guides.html")
    ensures !HasSuffix([Separator] + name, "guides.html")
  {
    PrependKeepsNoSuffix(Separator, name, "guides.html");
  }

  /** Keys of one documentation never start with another documentation's `rs|doc_<ID>|`. */
  lemma DocKeyPrefixIsolation(a: nat, b: nat, rest: string)
    requires a != b
    ensures !HasPrefix(DocKeyPrefix(b) + rest, DocKeyPrefix(a))
  {
    var da, db := FormatUint(a), FormatUint(b);
    var pa, key := DocKeyPrefix(a), DocKeyPrefix(b) + rest;
    if HasPrefix(key, pa) {
      assert forall i :: 0 <= i < |pa| ==> pa[i] == key[i];
      assert forall i :: 0 <= i < |da| ==> pa[7 + i] == da[i];
      assert forall i :: 0 <= i < |db| ==> key[7 + i] == db[i];
      assert pa[7 + |da|] == '|' && key[7 + |db|] == '|';
      if |da| < |db| {
        assert false;
      } else if |da| > |db| {
        assert false;
      } else {
        assert forall i :: 0 <= i < |da| ==> da[i] == key[7 + i];
        assert da == db;
        FormatUintInjective(a, b);
        assert false;
      }
    }
  }

  /**
   * Clearing the cache by one documentation's prefix evicts every key built
   * for that documentation and leaves the entries of every other
   * documentation untouched.
   */
  lemma ClearDocCacheIsolation(m: map<string, CacheEntry>, a: nat, b: nat, relativeKey: string)
    requires a != b
    ensures CacheKey(a, relativeKey) !in WithoutPrefix(m, DocKeyPrefix(a))
    ensures forall k :: k in m && HasPrefix(k, DocKeyPrefix(b)) ==>
      k in WithoutPrefix(m, DocKeyPrefix(a)) && WithoutPrefix(m, DocKeyPrefix(a))[k] == m[k]
  {
    forall k | k in m && HasPrefix(k, DocKeyPrefix(b))
      ensures !HasPrefix(k, DocKeyPrefix(a))
    {
      var rest := k[|DocKeyPrefix(b)|..];
      assert k == DocKeyPrefix(b) + rest;
      DocKeyPrefixIsolation(a, b, rest);
    }
  }
}
