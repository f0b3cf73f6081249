# Kalmia documentation serving core, in Dafny

This project models three pieces of the Kalmia documentation host (a Go
server) and proves properties of them:

- **The content cache** (`db/cache.go`): a process-wide map from cache key to
  `CacheEntry{Data, ContentType}` with point writes, point reads that miss with
  `ErrKeyNotFound`, prefix-scoped deletion and prefix-scoped export. It is the
  class `Cache.ContentCache`, whose `entries` field is a `map` updated in place.
- **The documentation middleware** (`middleware/rspress.go`): for each request
  under a documentation's base URL it runs the credential cascade (admin
  cookies against the global key, then visitor cookies for the documentation,
  then the `jwt_token` query parameter, which also issues a visitor cookie),
  answers 401 when the documentation requires authentication and no tier
  succeeded, and otherwise serves the cached entry for the key
  `rs|doc_<ID>|<path>` or falls back to disk. `RsPress.ServeDocRequest` is the
  handler as a method with the source's loops, `break` and `continue`;
  `RsPress.Cascade` and `RsPress.ResolveContent` are the reference
  definitions it is proved against. The key normalisation is the pure function
  `RsPress.RelativeKey`, built on a simplified model of Go's
  `filepath.Join`/`Clean`/`Ext` (module `FilePath`).
- **Configuration normalisation** (`config/config.go`): case-insensitive
  `sameSite` parsing with its exact error message, the CORS defaults, and the
  defaults `ParseConfig`, `SetupDataPath` and `SetupLocalS3Storage` fill in.
  The configuration and its CORS section are classes updated field by field.

Token signatures, the documentation lookup, the file system and environment
variables are not computed by the model: they are inputs. In the middleware
they are the function-valued fields of `RsPress.Env` (`validateDocJWT`,
`verifyDocumentJWT`, `getRsPressFromURL`, `fileNotExist`); in the
configuration the two MinIO environment values are parameters.

Stated assumptions:

- `utils.TrimFirstRune` is not part of this model; by its name and use it drops
  the first rune of a string and leaves `""` alone (`GoStrings.TrimFirstRune`).
- `AuthService.VerifyDocumentJWT` and `DocService.GetRsPressFromURL` are not
  part of this model; they are uninterpreted functions of their arguments.
- `filepath.Clean` is modelled without resolving `.` and `..` elements: it
  collapses repeated separators, drops a trailing separator and maps `""` to
  `"."`. The model agrees with Go on paths without such elements.
- Go strings are Dafny strings; cache keys, `[]byte` in Go, are strings here
  because the source converts them losslessly in both directions.
- `GetCacheByPrefix` turns each entry's data into a string with Go's
  `string([]byte)`, which keeps the bytes. The model maps each byte to the
  character with the same code (`Cache.BytesToString`): one character per
  byte. Everywhere else a Dafny string is a sequence of characters, one per
  rune, which is how `ToLower` and `Quote` read their input.

Quirks of the code reproduced as written:

- The cache key drops the first rune of the normalised path
  (middleware/rspress.go:111). For an ordinary request that rune is the
  leading `/`. When the `build/` prefix was stripped (line 100) there is no
  leading `/`, so the first character of the file name is lost
  (`RsPress.BuildPathLosesFirstCharacter`). The base URL requested without a
  trailing `/` is keyed `rs|doc_<ID>|ndex.html`
  (`RsPress.BaseUrlKeyLosesFirstRune`). With the trailing `/` it is keyed
  `rs|doc_<ID>|index.html` (`RsPress.BaseUrlWithSeparatorKey`).
- Any key ending in `guides.html` loses its `.html`
  (middleware/rspress.go:103-105). It becomes `.../guides/index.html` only
  when the final path element has no other dot, as in `/v1.0/guides.html`
  (`RsPress.VersionedGuidesHtml`):
  `x.guides.html` becomes `x.guides`, whose extension `.guides` stops
  `index.html` being joined (`RsPress.DottedGuidesKeepsExtension`).
- Visitor cookies and the query token are validated by
  `AuthService.VerifyDocumentJWT(token, docID)` (middleware/rspress.go:56 and
  72), whereas the visitor cookie issued at line 76 is signed with the
  documentation's `TokenSecret`. The model records only that it was issued.
- On a cache miss the file served is `Join(Path, <URL path under the base URL>)`
  when `os.Stat` does not report it missing, else `Join(Path, "build",
  "index.html")`. Any other `os.Stat` error still serves the first path.
- `GetCacheByPrefix` returns each entry's data as a string and drops the
  content type (db/cache.go:59).

## Model

| member | source | states |
|---|---|---|
| Cache.ContentCache.InitCache | db/cache.go:19-22 | a newly initialised cache holds no keys |
| Cache.ContentCache.SetKey | db/cache.go:24-30 | returns no error; the entry of `key` becomes exactly `{value, contentType}` and every other key keeps its entry |
| Cache.ContentCache.GetValue | db/cache.go:32-39 | returns the stored entry and no error when the key is present, otherwise the empty entry with `ErrKeyNotFound`; the cache is not modified |
| Cache.ContentCache.ClearCacheByPrefix | db/cache.go:41-51 | returns no error; afterwards the cache holds exactly the old entries whose keys do not start with the prefix (loop over all keys, deleting as it goes) |
| Cache.ContentCache.GetCacheByPrefix | db/cache.go:53-66 | returns no error and a map whose keys are exactly the stored keys starting with the prefix, each mapped to its data as a string; the cache is not modified |
| Cache.BytesToString | db/cache.go:59 | Go's `string(data)`: one character per byte, same length, same codes |
| Cache.LookupAfterSet | db/cache.go:24-39 | a read after `SetKey(k, v, ct)` returns exactly `{v, ct}` with no error |
| Cache.LookupOtherAfterSet | db/cache.go:24-39 | `SetKey` on one key does not change what a read of any other key returns |
| Cache.SecondSetReplaces | db/cache.go:24-30 | a second `SetKey` on the same key replaces the first entry wholesale |
| Cache.WithoutPrefixContents | db/cache.go:41-51 | after a prefix delete no key starts with the prefix, every other key keeps its entry, and a read of any key with the prefix misses with `ErrKeyNotFound` |
| Cache.WithoutPrefixIdempotent | db/cache.go:41-51 | deleting the same prefix twice equals deleting it once |
| Cache.WithoutEmptyPrefix | db/cache.go:41-51 | deleting the prefix `""` empties the cache |
| RsPress.ServeDocRequest | middleware/rspress.go:20-127 | a lookup error gives a 500 with the error's message and a not-found hands over to the next handler, both without any cookie; otherwise a visitor cookie is issued exactly when the query token authorised the request, the answer is 401 exactly when auth is required and no tier authorised, every other answer is the content resolution, and with auth not required the answer is always cached content or a file |
| RsPress.AdminCookieTakesPrecedence | middleware/rspress.go:37-86 | once an admin cookie validates against the global key, visitor cookies and the query token cannot change the verdict |
| RsPress.VisitorCookieBeforeQueryToken | middleware/rspress.go:52-86 | when no admin cookie validates and a visitor cookie does, the query token cannot change the verdict |
| RsPress.FailedTierDoesNotBlock | middleware/rspress.go:37-86 | admin cookies that all fail act as no admin cookies, and visitor cookies that all fail act as none, so a failing tier never stops the next one |
| RsPress.EmptyAdminCookieIgnored | middleware/rspress.go:38 | an admin cookie with an empty value is skipped: inserting one at any position of the admin cookies never changes the verdict |
| RsPress.EmptyVisitorCookieIgnored | middleware/rspress.go:54 | a visitor cookie with an empty value is skipped: inserting one at any position of the visitor cookies never changes the verdict |
| RsPress.Cascade | middleware/rspress.go:35-86 | the verdict is the first tier, in the order admin cookies, visitor cookies, query token, that holds a valid credential, and no grant exactly when none does |
| RsPress.ResolveContent | middleware/rspress.go:111-124 | the answer is always cached content or a file; cached exactly when the key is in the cache, with its entry; otherwise the requested file when `os.Stat` does not report it missing, else `<Path>/build/index.html` |
| RsPress.CacheKey | middleware/rspress.go:111 | every key starts with its documentation's `rs|doc_<ID>|` and is one character shorter than prefix plus relative key |
| RsPress.StripBuildDir | middleware/rspress.go:96-101 | the key is the rest of the disk path after `<Path>/build/` when the disk path lies under it, otherwise the rest of the URL path after the base URL (the whole URL path when it does not start with the base URL) |
| RsPress.NormalizeFileKey | middleware/rspress.go:103-109 | the normalised key always has a file extension; a key with an extension and no `guides.html` suffix is kept; a key without extension gets `index.html` joined |
| RsPress.RelativeKey | middleware/rspress.go:96-109 | the relative key of every request has a file extension |
| RsPress.GuidesHtmlBecomesGuidesIndex | middleware/rspress.go:103-109 | `<d>guides.html`, with no other dot in the final element, becomes `<d>guides` joined with `index.html`, ending in `guides/index.html` |
| RsPress.VersionedGuidesHtml | middleware/rspress.go:103-109 | `/<v>/guides.html` for a version directory `v` (such as `v1.0`) becomes `/<v>/guides/index.html` |
| RsPress.DottedGuidesKeepsExtension | middleware/rspress.go:103-109 | `<d>.guides.html` normalises to `<d>.guides`, with no `index.html` joined |
| RsPress.TrailingSeparatorSameKey | middleware/rspress.go:96-109 | a request path without extension names the same file and gets the same key with or without a trailing `/` |
| RsPress.BaseUrlOutsideBuildDir | middleware/rspress.go:96-99 | the disk path of the base URL, with or without a trailing `/`, never lies under `<Path>/build/` |
| RsPress.BaseUrlKeyLosesFirstRune | middleware/rspress.go:96-111 | the base URL itself is keyed `rs|doc_<ID>|ndex.html` |
| RsPress.BaseUrlWithSeparatorKey | middleware/rspress.go:96-111 | the base URL followed by `/` is keyed `rs|doc_<ID>|index.html` |
| RsPress.BuildPathLosesFirstCharacter | middleware/rspress.go:99-111 | a path under `<Path>/build/` is keyed by the remaining name minus its first character |
| RsPress.PlainFileKey | middleware/rspress.go:96-111 | a file with an extension and no `guides.html` suffix directly under the base URL, outside `build/`, is keyed `rs|doc_<ID>|<name>` |
| RsPress.DocKeyPrefixIsolation | middleware/rspress.go:111 | a key of documentation `b` never starts with `rs|doc_<a>|` for another documentation `a` |
| RsPress.ClearDocCacheIsolation | db/cache.go:41-51 | clearing `rs|doc_<a>|` evicts every key built for `a` and leaves the entries of every other documentation untouched |
| GoStrings.TrimFirstRune | middleware/rspress.go:111 | drops exactly the first character and leaves `""` alone |
| GoStrings.FormatUint | middleware/rspress.go:111 | `%d` of the documentation ID: a non-empty string of decimal digits that starts with `0` only for ID 0 |
| GoStrings.ParseFormatUint | middleware/rspress.go:111 | reading the formatted ID back as decimal gives the ID |
| GoStrings.FormatUintInjective | middleware/rspress.go:111 | distinct IDs are formatted differently |
| GoStrings.HasPrefix | middleware/rspress.go:99 | strings.HasPrefix: `s` starts with `prefix` |
| GoStrings.HasSuffix | middleware/rspress.go:103 | strings.HasSuffix: `s` ends with `suffix` |
| GoStrings.TrimPrefix | middleware/rspress.go:96 | strings.TrimPrefix: removes the prefix exactly when it is one, otherwise returns the string |
| GoStrings.TrimSuffix | middleware/rspress.go:104 | strings.TrimSuffix: removes the suffix exactly when it is one, otherwise returns the string |
| GoStrings.ToLower | config/config.go:97 | same length, each character lowered; no ASCII upper-case letter remains and other ASCII characters are kept |
| GoStrings.Quote | config/config.go:105 | `%q` output starts and ends with a double quote |
| GoStrings.QuotePlain | config/config.go:105 | `%q` of a string with nothing to escape is the string in double quotes |
| FilePath.Clean | middleware/rspress.go:97 | the cleaned path is non-empty, has no repeated separator and no trailing separator except the root |
| FilePath.Join | middleware/rspress.go:97 | joining is empty exactly when all elements are, and leaves no repeated separator |
| FilePath.Join3 | middleware/rspress.go:121 | Go's join of three elements from the first non-empty one, empty exactly when all three are, and with no repeated separator |
| FilePath.Ext | middleware/rspress.go:107 | a non-empty extension starts with a dot and is a suffix of the path |
| FilePath.ExtIsLastDotSuffix | middleware/rspress.go:107 | `filepath.Ext` is empty exactly when the final element has no dot, and otherwise is the suffix of the final element from its last dot |
| FilePath.JoinIndexHtml | middleware/rspress.go:107-109 | joining `index.html` onto any key ends in `index.html` with extension `.html` |
| FilePath.JoinIndexHtmlTrailingSeparator | middleware/rspress.go:107-109 | joining `index.html` onto `x/` and onto `x` gives the same path |
| FilePath.CleanTrailingSeparator | middleware/rspress.go:97 | a trailing separator does not change a cleaned path |
| Config.UnmarshalSameSite | config/config.go:91-108 | succeeds exactly when the lower-cased input is `lax`, `strict` or `none`, and then yields the mode of that name; otherwise fails with `unknown SameSite value: <quoted input>` and leaves the target's value |
| Config.UnmarshalSameSiteCaseInsensitive | config/config.go:97 | two inputs with the same lower case parse to the same outcome |
| Config.ModeNameRoundTrip | config/config.go:97-103 | every mode's name, in any casing, parses back to that mode |
| Config.UnmarshalSameSiteValidRows | config/config_test.go:21-71 | `Lax`, `Strict`, `None` and `lAx` parse to Lax, Strict, None and Lax |
| Config.UnmarshalSameSiteInvalidRow | config/config_test.go:60-65 | `Invalid` fails with `unknown SameSite value: "Invalid"` and leaves the target unassigned |
| Config.CORSConfig.SetDefault | config/config.go:150-167 | each empty list takes its default from lines 142-145 and each non-empty list is kept; credentials end up allowed; the max age is kept; on an already-defaulted configuration it changes nothing |
| Config.Config.SetupDataPath | config/config.go:234-237 | the data path becomes `./data` exactly when it was empty; nothing else changes |
| Config.LocalS3 | config/config.go:256-277 | the endpoint is `http://localhost:9000` exactly for environment `dev`; credentials are never empty and a non-empty env value is used as given; bucket `uploads`, path style and region `auto` |
| Config.Config.SetupLocalS3Storage | config/config.go:256-278 | the endpoint is `http://localhost:9000` for environment `dev` and `http://minio:9000` otherwise, empty env credentials fall back to `minio_kalmia_user`/`minio_kalmia_password`, and bucket `uploads`, path style, region `auto` and the public URL format are always set |
| Config.Config.ParseConfig | config/config.go:191-216 | applies the data-path, local-S3 (for `assetStorage` `local`), max-file-size 0→10, body-limit 0→50 and CORS defaults, keeps non-zero values, panics exactly when the secret path is empty, leaves the configuration normalised, and changes nothing on a normalised one |

## Left out

- Concurrency: the `sync.Map`'s thread safety and the background loop running `DeleteJob` and `BuildJob` every 10 seconds (main.go:42-52). The cache is modelled sequentially.
- Cache.ContentCache.SetKey: Go stores the caller's `[]byte` slice without copying it, and `GetValue` returns that same slice, so a later write through either slice changes the cached entry. The model holds `Data` as an immutable `seq<byte>`, so this aliasing is not captured.
- The cache's type assertions `k.(string)` and `v.(CacheEntry)` always succeed, because only those types are stored. Their failure paths are not modelled.
- Token signing and validation (JWT with HMAC-SHA256, RFC 7519 and section 3.2 of RFC 7518) are uninterpreted functions. So the model cannot state that a visitor token signed with one documentation's secret fails for another documentation.
- The token lifetime used when cookies are issued is not modelled. `utils.GenDocJWT` ignores its TTL argument and always uses 24 hours.
- Cookie issuance (handlers/cookie.go) is the boolean `visitorCookieSet`. The cookie's attributes, expiry and signing error are not modelled; the source ignores that error.
- Logging and the JSON encoding of the 500 and 401 bodies. The outcome names the message.
- `http.ServeFile`: `ServeFile(path)` records only the path passed to it. What `http.ServeFile` then does is not modelled: it redirects a URL path ending in `/index.html`, serves or redirects directories (a miss on the bare base URL hands it the documentation directory itself), rejects URL paths containing `..` with a 400, and implements range and conditional requests.
- FilePath.Clean: does not resolve `.` and `..` elements, as stated above. In practice, when a documentation's `Path` starts with `./`, the path handed to `ServeFile` keeps the `./`, where Go's would drop it; the default data path is `./data` (config/config.go:236), so such paths are expected. Both name the same file, and cache keys are unaffected.
- GoStrings.ToLower: maps ASCII letters plus U+0130 and U+212A, the two non-ASCII characters whose simple lower case is ASCII. Other characters are kept. That never changes whether `lax`, `strict` or `none` matches, but the lower-cased string itself can differ from Go's for other non-ASCII input.
- GoStrings.Quote: escapes only `"`, `\`, newline, tab and carriage return. `strconv.Quote` also escapes the other control characters, invalid UTF-8, and every rune Go does not consider printable, including ones that look harmless such as U+00AD (soft hyphen) and U+2028 (line separator); the model keeps those as they are.
- Configuration I/O: reading and decoding the configuration and secret files, `os.Getenv` (its values are parameters), the directory creation in `SetupDataPath` and its error. `ToMuxCORSOptions` is not modelled either (gorilla option constructors).
- Config.UnmarshalSameSite: takes the already decoded JSON string. The error returned when the JSON value is not a string, for example `7` (config/config.go:93-94), is not modelled.
- Config.CORSConfig.SetDefault: Go assigns the package-level default slices by reference (config/config.go:152-161), so the configuration and the defaults share their backing arrays. The model copies immutable sequences, so that sharing is not captured.
- Config.Config.ParseConfig: a panic is modelled as a returned message rather than an unwinding of the process.
- The `Empty JSON` row of the test table is about JSON decoding leaving the zero value. It is represented only by `SameSiteUnset`.
- Integer widths: `MaxFileSize` and `BodyLimitMb` are `int64` and the documentation ID is `uint`. No operation modelled here can overflow them, so they are unbounded integers.
