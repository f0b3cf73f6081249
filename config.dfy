/**
 * Configuration normalisation of config/config.go: the case-insensitive
 * `sameSite` cookie setting, the CORS defaults, and the defaults ParseConfig
 * fills into the decoded configuration. Reading the files, decoding JSON,
 * reading environment variables and creating directories are not modelled:
 * decoded values and environment values are inputs.
 */
module Config {
  import opened Wrappers
  import opened GoStrings

  // ---------------------------------------------------------------------------
  // SameSite

  /** The cookie SameSite setting; Unset is the zero value left when the key is absent. */
  datatype SameSite = SameSiteUnset | SameSiteLaxMode | SameSiteStrictMode | SameSiteNoneMode

  /** The lower-case word each mode is written as. */
  function ModeName(m: SameSite): string
    requires m != SameSiteUnset
  {
    match m
    case SameSiteLaxMode => "lax"
    case SameSiteStrictMode => "strict"
    case SameSiteNoneMode => "none"
  }

  /** The outcome of SameSite.UnmarshalJSON: the value left in the target, and the error returned. */
  datatype Unmarshalled = Unmarshalled(value: SameSite, err: Option<string>)

  /**
   * SameSite.UnmarshalJSON on the already decoded JSON string `str`, with
   * `target` the value the receiver held before the call.
   */
  function UnmarshalSameSite(target: SameSite, str: string): (r: Unmarshalled)
    ensures r.err == None <==> ToLower(str) in {"lax", "strict", "none"}
    ensures r.err == None ==> r.value != SameSiteUnset && ModeName(r.value) == ToLower(str)
    ensures r.err != None ==> r.value == target && r.err == Some("unknown SameSite value: " + Quote(str))
  {
    var lower := ToLower(str);
    if lower == "lax" then Unmarshalled(SameSiteLaxMode, None)
    else if lower == "strict" then Unmarshalled(SameSiteStrictMode, None)
    else if lower == "none" then Unmarshalled(SameSiteNoneMode, None)
    else Unmarshalled(target, Some("unknown SameSite value: " + Quote(str)))
  }

  /** Parsing depends only on the lower-cased input: two spellings of a word parse alike. */
  lemma UnmarshalSameSiteCaseInsensitive(target: SameSite, s: string, t: string)
    requires ToLower(s) == ToLower(t)
    ensures UnmarshalSameSite(target, s).value == UnmarshalSameSite(target, t).value
    ensures UnmarshalSameSite(target, s).err.None? == UnmarshalSameSite(target, t).err.None?
  {
  }

  /** Every mode's word, in any casing, parses back to that mode. */
  lemma ModeNameRoundTrip(target: SameSite, m: SameSite, s: string)
    requires m != SameSiteUnset && ToLower(s) == ModeName(m)
    ensures UnmarshalSameSite(target, s) == Unmarshalled(m, None)
  {
  }

  /** The valid rows of the table in config/config_test.go, including the mixed-case "lAx". */
  lemma UnmarshalSameSiteValidRows(target: SameSite)
    ensures UnmarshalSameSite(target, "Lax") == Unmarshalled(SameSiteLaxMode, None)
    ensures UnmarshalSameSite(target, "Strict") == Unmarshalled(SameSiteStrictMode, None)
    ensures UnmarshalSameSite(target, "None") == Unmarshalled(SameSiteNoneMode, None)
    ensures UnmarshalSameSite(target, "lAx") == Unmarshalled(SameSiteLaxMode, None)
  {
    assert ToLower("Lax") == "lax";
    assert ToLower("Strict") == "strict";
    assert ToLower("None") == "none";
    assert ToLower("lAx") == "lax";
  }

  /** The invalid row of the table in config/config_test.go: the error quotes the input and the target keeps its value. */
  lemma UnmarshalSameSiteInvalidRow(target: SameSite)
    ensures UnmarshalSameSite(target, "Invalid") == Unmarshalled(target, Some("unknown SameSite value: \"Invalid\""))
  {
    var lower := ToLower("Invalid");
    assert lower[0] == 'i' && |lower| == 7;
    assert lower != "lax" && lower != "strict" && lower != "none";
    QuotePlain("Invalid");
    assert Quote("Invalid") == "\"Invalid\"";
    assert "unknown SameSite value: " + "\"Invalid\"" == "unknown SameSite value: \"Invalid\"";
  }

  // ---------------------------------------------------------------------------
  // CORS

  const DefaultAllowedOrigins: seq<string> := ["*"]
  const DefaultAllowedMethods: seq<string> := ["GET", "POST", "PUT", "DELETE", "OPTIONS"]
  const DefaultAllowedHeaders: seq<string> := ["Accept", "Authorization", "Content-Type", "X-CSRF-Token"]
  const DefaultExposedHeaders: seq<string> := ["Link"]
  const DefaultAllowCredentials: bool := true

  class CORSConfig {
    var allowedOrigins: seq<string>
    var allowedMethods: seq<string>
    var allowedHeaders: seq<string>
    var allowCredentials: bool
    var exposedHeaders: seq<string>
    var corsMaxAge: int

    /** The CORS section as decoded from the configuration file. */
    constructor (allowedOrigins: seq<string>, allowedMethods: seq<string>, allowedHeaders: seq<string>,
                 allowCredentials: bool, exposedHeaders: seq<string>, corsMaxAge: int)
      ensures this.allowedOrigins == allowedOrigins && this.allowedMethods == allowedMethods
      ensures this.allowedHeaders == allowedHeaders && this.allowCredentials == allowCredentials
      ensures this.exposedHeaders == exposedHeaders && this.corsMaxAge == corsMaxAge
    {
      this.allowedOrigins := allowedOrigins;
      this.allowedMethods := allowedMethods;
      this.allowedHeaders := allowedHeaders;
      this.allowCredentials := allowCredentials;
      this.exposedHeaders := exposedHeaders;
      this.corsMaxAge := corsMaxAge;
    }

    /** Every list is filled in and credentials are allowed. */
    predicate Defaulted()
      reads this
    {
      allowedOrigins != [] && allowedMethods != [] && allowedHeaders != [] && exposedHeaders != [] && allowCredentials
    }

    /**
     * SetDefault: each empty list takes its default and each non-empty list
     * is kept; credentials end up allowed. Running it on a configuration it
     * already defaulted changes nothing.
     */
    method SetDefault()
      modifies this
      ensures allowedOrigins == if old(allowedOrigins) == [] then DefaultAllowedOrigins else old(allowedOrigins)
      ensures allowedMethods == if old(allowedMethods) == [] then DefaultAllowedMethods else old(allowedMethods)
      ensures allowedHeaders == if old(allowedHeaders) == [] then DefaultAllowedHeaders else old(allowedHeaders)
      ensures exposedHeaders == if old(exposedHeaders) == [] then DefaultExposedHeaders else old(exposedHeaders)
      ensures allowCredentials && corsMaxAge == old(corsMaxAge)
      ensures Defaulted()
      ensures old(Defaulted()) ==> unchanged(this)
    {
      if |allowedOrigins| == 0 {
        allowedOrigins := DefaultAllowedOrigins;
      }
      if |allowedMethods| == 0 {
        allowedMethods := DefaultAllowedMethods;
      }
      if |allowedHeaders| == 0 {
        allowedHeaders := DefaultAllowedHeaders;
      }
      if |exposedHeaders| == 0 {
        exposedHeaders := DefaultExposedHeaders;
      }
      if !allowCredentials {
        allowCredentials := DefaultAllowCredentials;
      }
    }
  }

  // ---------------------------------------------------------------------------
  // The configuration

  datatype S3 = S3(
    endpoint: string,
    region: string,
    accessKeyId: string,
    secretAccessKey: string,
    bucket: string,
    usePathStyle: bool,
    publicUrlFormat: string)

  /** The S3 settings SetupLocalS3Storage writes for a deployment environment and the two MinIO environment values. */
  function LocalS3(environment: string, envAccessKeyId: string, envSecretAccessKey: string): (r: S3)
    ensures r.endpoint == "http://localhost:9000" <==> environment == "dev"
    ensures r.accessKeyId != "" && r.secretAccessKey != ""
    ensures envAccessKeyId != "" ==> r.accessKeyId == envAccessKeyId
    ensures envSecretAccessKey != "" ==> r.secretAccessKey == envSecretAccessKey
    ensures r.bucket == "uploads" && r.usePathStyle && r.region == "auto"
  {
    S3(
      if environment == "dev" then "http://localhost:9000" else "http://minio:9000",
      "auto",
      if envAccessKeyId == "" then "minio_kalmia_user" else envAccessKeyId,
      if envSecretAccessKey == "" then "minio_kalmia_password" else envSecretAccessKey,
      "uploads",
      true,
      "http://localhost:9000/%s/%s")
  }

  /** The fields of the configuration that its normalisation reads or writes. */
  class Config {
    var environment: string
    var assetStorage: string
    var maxFileSize: int
    var dataPath: string
    var s3: S3
    var bodyLimitMb: int
    var pathToSecret: string
    const cors: CORSConfig

    /** The configuration as decoded from the file, before any default is applied. */
    constructor (environment: string, assetStorage: string, maxFileSize: int, dataPath: string, s3: S3,
                 bodyLimitMb: int, pathToSecret: string, cors: CORSConfig)
      ensures this.environment == environment && this.assetStorage == assetStorage
      ensures this.maxFileSize == maxFileSize && this.dataPath == dataPath && this.s3 == s3
      ensures this.bodyLimitMb == bodyLimitMb && this.pathToSecret == pathToSecret && this.cors == cors
    {
      this.environment := environment;
      this.assetStorage := assetStorage;
      this.maxFileSize := maxFileSize;
      this.dataPath := dataPath;
      this.s3 := s3;
      this.bodyLimitMb := bodyLimitMb;
      this.pathToSecret := pathToSecret;
      this.cors := cors;
    }

    /** Every default ParseConfig applies is in place, for the given MinIO environment values. */
    predicate Normalized(envAccessKeyId: string, envSecretAccessKey: string)
      reads this, cors
    {
      && dataPath != ""
      && maxFileSize != 0
      && bodyLimitMb != 0
      && cors.Defaulted()
      && (assetStorage == "local" ==> s3 == LocalS3(environment, envAccessKeyId, envSecretAccessKey))
    }

    /** SetupDataPath, without the directory creation: an empty data path becomes "./data". */
    method SetupDataPath()
      modifies this`dataPath
      ensures dataPath == if old(dataPath) == "" then "./data" else old(dataPath)
    {
      if dataPath == "" {
        dataPath := "./data";
      }
    }

    /** SetupLocalS3Storage: the S3 settings for the bundled MinIO, with credentials from the environment or fixed defaults. */
    method SetupLocalS3Storage(envAccessKeyId: string, envSecretAccessKey: string)
      modifies this`s3
      ensures s3 == LocalS3(environment, envAccessKeyId, envSecretAccessKey)
    {
      if environment == "dev" {
        s3 := s3.(endpoint := "http://localhost:9000");
      } else {
        s3 := s3.(endpoint := "http://minio:9000");
      }
      var accessKeyId := envAccessKeyId;
      var secretAccessKey := envSecretAccessKey;
      if |accessKeyId| == 0 {
        accessKeyId := "minio_kalmia_user";
      }
      if |secretAccessKey| == 0 {
        secretAccessKey := "minio_kalmia_password";
      }
      s3 := s3.(accessKeyId := accessKeyId);
      s3 := s3.(secretAccessKey := secretAccessKey);
      s3 := s3.(bucket := "uploads");
      s3 := s3.(usePathStyle := true);
      s3 := s3.(region := "auto");
      s3 := s3.(publicUrlFormat := "http://localhost:9000/%s/%s");
    }

    /**
     * The default-filling part of ParseConfig, run on the decoded
     * configuration. A panic is returned as its message; the defaults applied
     * before it stay in place, as they do in the global configuration.
     */
    method ParseConfig(envAccessKeyId: string, envSecretAccessKey: string) returns (panicMessage: Option<string>)
      modifies this, cors
      ensures dataPath == if old(dataPath) == "" then "./data" else old(dataPath)
      ensures s3 == if assetStorage == "local" then LocalS3(environment, envAccessKeyId, envSecretAccessKey) else old(s3)
      ensures maxFileSize == if old(maxFileSize) == 0 then 10 else old(maxFileSize)
      ensures bodyLimitMb == if old(bodyLimitMb) == 0 then 50 else old(bodyLimitMb)
      ensures environment == old(environment) && assetStorage == old(assetStorage) && pathToSecret == old(pathToSecret)
      ensures cors.allowedOrigins == if old(cors.allowedOrigins) == [] then DefaultAllowedOrigins else old(cors.allowedOrigins)
      ensures cors.allowedMethods == if old(cors.allowedMethods) == [] then DefaultAllowedMethods else old(cors.allowedMethods)
      ensures cors.allowedHeaders == if old(cors.allowedHeaders) == [] then DefaultAllowedHeaders else old(cors.allowedHeaders)
      ensures cors.exposedHeaders == if old(cors.exposedHeaders) == [] then DefaultExposedHeaders else old(cors.exposedHeaders)
      ensures cors.allowCredentials && cors.corsMaxAge == old(cors.corsMaxAge)
      ensures panicMessage == if pathToSecret == "" then Some("path to secret file is empty") else None
      ensures Normalized(envAccessKeyId, envSecretAccessKey)
      ensures old(Normalized(envAccessKeyId, envSecretAccessKey)) ==> unchanged(this, cors)
    {
      SetupDataPath();
      if assetStorage == "local" {
        SetupLocalS3Storage(envAccessKeyId, envSecretAccessKey);
      }
      if maxFileSize == 0 {
        maxFileSize := 10;
      }
      if bodyLimitMb == 0 {
        bodyLimitMb := 50;
      }
      cors.SetDefault();
      if pathToSecret == "" {
        return Some("path to secret file is empty");
      }
      panicMessage := None;
    }
  }
}
