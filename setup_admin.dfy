/** The admin setup script: it reads the project URL and the service-role key from
    `.env.local`, checks that the `scripts` table answers a query, makes sure the public
    `scripts-audio` storage bucket exists, creating it when it is missing, and reports
    whether both steps succeeded. Each backend call is a parameter holding its outcome. */
module SetupAdmin {
  import opened Wrappers
  import opened EnvFile

  const URL_VAR := "NEXT_PUBLIC_SUPABASE_URL"
  const SERVICE_ROLE_VAR := "SUPABASE_SERVICE_ROLE_KEY"

  /** Reads the credentials, or `None` where the script prints the missing-variables help
      and exits. */
  method LoadConfig(content: string) returns (config: Option<(string, string)>)
    ensures var env := ParseEnv(content);
      config.Some? <==> HasValue(env, URL_VAR) && HasValue(env, SERVICE_ROLE_VAR)
    ensures var env := ParseEnv(content);
      config.Some? ==> config.value == (env[URL_VAR], env[SERVICE_ROLE_VAR])
  {
    var env := LoadEnv(content);
    config := RequireVars(env, URL_VAR, SERVICE_ROLE_VAR);
  }

  /** How a `select('id').limit(1)` probe of the `scripts` table ended. */
  datatype QueryResult = QueryOk | QueryError(code: string, message: string) | QueryThrew

  /** What `createTable` found out; only `TableExists` makes it return true. */
  datatype TableReport = TableExists | TableMissing | TableCheckFailed | TableStepFailed

  /** The PostgREST code the script reads as "the table does not exist yet". */
  const TABLE_MISSING_CODE := "PGRST116"

  /** `createTable`: `sqlFile` is the contents of `supabase-setup.sql`, `None` when reading it
      throws. The statements are split but never executed, so only the probe decides. */
  function CreateTable(sqlFile: Option<string>, probe: QueryResult): (r: TableReport)
    ensures r == TableExists <==> sqlFile.Some? && probe == QueryOk
    ensures r == TableMissing <==> sqlFile.Some? && probe.QueryError? && probe.code == TABLE_MISSING_CODE
    ensures r == TableStepFailed <==> sqlFile.None? || probe == QueryThrew
  {
    match sqlFile
    case None => TableStepFailed
    case Some(_) =>
      match probe
      case QueryError(code, _) => if code == TABLE_MISSING_CODE then TableMissing else TableCheckFailed
      case QueryThrew => TableStepFailed
      case QueryOk => TableExists
  }

  const AUDIO_BUCKET := "scripts-audio"

  /** `names.some(n => n === name)`. */
  function AnyNamed(names: seq<string>, name: string): (r: bool)
    ensures r <==> exists i :: 0 <= i < |names| && names[i] == name
  {
    if names == [] then false
    else names[0] == name || AnyNamed(names[1..], name)
  }

  /** `buckets?.some(b => b.name === 'scripts-audio')`: a `null` list holds no bucket. */
  function BucketExists(buckets: Option<seq<string>>): (r: bool)
    ensures r <==> buckets.Some? && AUDIO_BUCKET in buckets.value
  {
    buckets.Some? && AnyNamed(buckets.value, AUDIO_BUCKET)
  }

  /** How `listBuckets` ended: an error (returned or thrown), or the names of the buckets
      listed, `None` when the data is `null`. */
  datatype Listing = ListFailed(message: string) | Listed(names: Option<seq<string>>)

  /** The options `createBucket` is called with. */
  datatype BucketOptions = BucketOptions(isPublic: bool, allowedMimeTypes: seq<string>, fileSizeLimit: nat)

  /** A public bucket for MP3 files of at most 10 MiB. */
  const AUDIO_BUCKET_OPTIONS := BucketOptions(true, ["audio/mpeg", "audio/mp3"], 10485760)

  /** The create request the step makes, if any, and what it returns. */
  datatype BucketStep = BucketStep(createRequest: Option<(string, BucketOptions)>, ok: bool)

  /** `createStorageBucket`: `createOk` is whether `createBucket` succeeds when called. */
  function CreateStorageBucket(listing: Listing, createOk: bool): (r: BucketStep)
    ensures r.createRequest.Some? <==> listing.Listed? && !BucketExists(listing.names)
    ensures r.createRequest.Some? ==> r.createRequest.value == (AUDIO_BUCKET, AUDIO_BUCKET_OPTIONS)
    ensures r.ok <==> listing.Listed? && (BucketExists(listing.names) || createOk)
  {
    match listing
    case ListFailed(_) => BucketStep(None, false)
    case Listed(names) =>
      if BucketExists(names) then BucketStep(None, true)
      else BucketStep(Some((AUDIO_BUCKET, AUDIO_BUCKET_OPTIONS)), createOk)
  }

  /** The two results `setup` prints and whether it announces completion. */
  datatype Summary = Summary(tableCreated: bool, bucketCreated: bool, complete: bool)

  /** `setup`: the table step, then the bucket step, then the summary. */
  method Setup(sqlFile: Option<string>, probe: QueryResult, listing: Listing, createOk: bool)
    returns (summary: Summary)
    ensures summary.tableCreated <==> sqlFile.Some? && probe == QueryOk
    ensures summary.bucketCreated <==> listing.Listed? && (BucketExists(listing.names) || createOk)
    ensures summary.complete <==>
      sqlFile.Some? && probe == QueryOk && listing.Listed? &&
      ((listing.names.Some? && AUDIO_BUCKET in listing.names.value) || createOk)
  {
    var tableCreated := CreateTable(sqlFile, probe) == TableExists;
    var bucketCreated := CreateStorageBucket(listing, createOk).ok;
    summary := Summary(tableCreated, bucketCreated, tableCreated && bucketCreated);
    CompleteExactly(sqlFile, probe, listing, createOk);
  }

  /** Setup is announced complete exactly when the SQL file was read, the table answered,
      the buckets were listed and the audio bucket either was listed or got created. */
  lemma CompleteExactly(sqlFile: Option<string>, probe: QueryResult, listing: Listing, createOk: bool)
    ensures var table := CreateTable(sqlFile, probe) == TableExists;
      var bucket := CreateStorageBucket(listing, createOk).ok;
      (table && bucket) <==>
        sqlFile.Some? && probe == QueryOk && listing.Listed? &&
        ((listing.names.Some? && AUDIO_BUCKET in listing.names.value) || createOk)
  {
  }
}
