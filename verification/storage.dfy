/** The pure helpers of the file-storage module: the per-category upload
    configuration, public URL construction, object keys and the content-type
    gate applied before an upload is signed. The environment the module reads
    at start-up is an explicit StorageConfig; the object-store calls
    themselves are not modelled.
 */
module Storage {
  import opened Outcomes

  datatype UploadCategory = VehiclePhoto | MaintenanceDocument

  /** Where a category's files live and whether only images are accepted. */
  datatype CategoryConfig = CategoryConfig(prefix: string, requiresImage: bool)

  datatype StorageError =
    | MissingBucket          // no bucket configured
    | MissingContentType     // empty content type
    | ContentTypeNotAllowed  // a non-image for an image-only category

  /** The settings read from the environment: the public base URL (already
      stripped of trailing slashes, None when unset or empty) and the bucket
      name. */
  datatype StorageConfig = StorageConfig(publicBaseUrl: Option<string>, bucket: string)

  const GCS_PUBLIC_HOST: string := "https://storage.googleapis.com/"

  const IMAGE_CONTENT_TYPE_PREFIX: string := "image/"

  /** The per-category table: only vehicle photos are restricted to images,
      and every prefix is a non-empty single path segment. */
  function CategoryConfigOf(category: UploadCategory): (c: CategoryConfig)
    ensures c.requiresImage <==> category == VehiclePhoto
    ensures |c.prefix| > 0 && '/' !in c.prefix
  {
    match category
    case VehiclePhoto => CategoryConfig("vehicle-photos", true)
    case MaintenanceDocument => CategoryConfig("maintenance-docs", false)
  }

  predicate EndsWithSlash(s: string) {
    |s| > 0 && s[|s| - 1] == '/'
  }

  /** Strips every trailing '/'. The result is the longest prefix of the
      input that does not end in '/', and only slashes were removed. */
  function RemoveTrailingSlash(value: string): (r: string)
    ensures |r| <= |value| && r == value[..|r|]
    ensures !EndsWithSlash(r)
    ensures forall i :: |r| <= i < |value| ==> value[i] == '/'
  {
    if EndsWithSlash(value) then RemoveTrailingSlash(value[..|value| - 1]) else value
  }

  lemma RemoveTrailingSlashIdempotent(value: string)
    ensures RemoveTrailingSlash(RemoveTrailingSlash(value)) == RemoveTrailingSlash(value)
  {
  }

  /** Appending slashes does not change the result. */
  lemma {:induction false} RemoveTrailingSlashIgnoresAddedSlashes(value: string, slashes: nat)
    ensures RemoveTrailingSlash(value + seq(slashes, _ => '/')) == RemoveTrailingSlash(value)
  {
    if slashes > 0 {
      var longer := value + seq(slashes, _ => '/');
      assert longer[..|longer| - 1] == value + seq(slashes - 1, _ => '/');
      RemoveTrailingSlashIgnoresAddedSlashes(value, slashes - 1);
    } else {
      assert value + seq(slashes, _ => '/') == value;
    }
  }

  /** Module start-up: a missing or empty bucket aborts; a set, non-empty
      public base URL is kept without its trailing slashes. */
  function LoadStorageConfig(publicBaseUrlEnv: Option<string>, bucketEnv: Option<string>)
    : (r: Result<StorageConfig, StorageError>)
    ensures r.Err? <==> bucketEnv.None? || bucketEnv.value == ""
    ensures r.Ok? ==> r.value.bucket == bucketEnv.value && r.value.bucket != ""
    ensures r.Ok? ==> (r.value.publicBaseUrl.Some? <==> publicBaseUrlEnv.Some? && publicBaseUrlEnv.value != "")
    ensures r.Ok? && r.value.publicBaseUrl.Some? ==>
              && r.value.publicBaseUrl.value <= publicBaseUrlEnv.value
              && !EndsWithSlash(r.value.publicBaseUrl.value)
              && forall i :: |r.value.publicBaseUrl.value| <= i < |publicBaseUrlEnv.value| ==> publicBaseUrlEnv.value[i] == '/'
  {
    var publicBase :=
      if publicBaseUrlEnv.Some? && publicBaseUrlEnv.value != ""
      then Some(RemoveTrailingSlash(publicBaseUrlEnv.value))
      else None;
    match bucketEnv
    case None => Err(MissingBucket)
    case Some(bucket) => if bucket == "" then Err(MissingBucket) else Ok(StorageConfig(publicBase, bucket))
  }

  /** The configured public base URL takes precedence when it is non-empty. */
  predicate UsesPublicBase(config: StorageConfig) {
    config.publicBaseUrl.Some? && config.publicBaseUrl.value != ""
  }

  /** The root every public file URL starts with: the public base URL, or the
      bucket's address on the public object-store host. */
  function PublicRoot(config: StorageConfig): string {
    if UsesPublicBase(config) then config.publicBaseUrl.value else GCS_PUBLIC_HOST + config.bucket
  }

  /** The public base URL of a category's files. */
  function BaseUrlForCategory(config: StorageConfig, category: UploadCategory): (r: Result<string, StorageError>)
    ensures r.Err? <==> !UsesPublicBase(config) && config.bucket == ""
    ensures r.Ok? ==> r.value == PublicRoot(config) + "/" + CategoryConfigOf(category).prefix
  {
    var prefix := CategoryConfigOf(category).prefix;
    if UsesPublicBase(config) then Ok(config.publicBaseUrl.value + "/" + prefix)
    else if config.bucket == "" then Err(MissingBucket)
    else Ok(GCS_PUBLIC_HOST + config.bucket + "/" + prefix)
  }

  /** The public URL of an uploaded file; no URL for an absent or empty name. */
  function BuildFileUrl(config: StorageConfig, category: UploadCategory, fileName: Option<string>)
    : (r: Result<Option<string>, StorageError>)
    ensures fileName.None? || fileName == Some("") ==> r == Ok(None)
    ensures fileName.Some? && fileName.value != "" ==>
              && (r.Ok? <==> BaseUrlForCategory(config, category).Ok?)
              && (r.Ok? ==> r.value == Some(BaseUrlForCategory(config, category).value + "/" + fileName.value))
  {
    match fileName
    case None => Ok(None)
    case Some(name) =>
      if name == "" then Ok(None)
      else
        match BaseUrlForCategory(config, category)
        case Err(e) => Err(e)
        case Ok(base) => Ok(Some(base + "/" + name))
  }

  /** The object's key inside the bucket. */
  function GetObjectKey(category: UploadCategory, fileName: string): (key: string)
    ensures |key| == |CategoryConfigOf(category).prefix| + 1 + |fileName|
    ensures CategoryConfigOf(category).prefix <= key
    ensures key[|CategoryConfigOf(category).prefix|] == '/'
    ensures key[|CategoryConfigOf(category).prefix| + 1..] == fileName
  {
    CategoryConfigOf(category).prefix + "/" + fileName
  }

  /** A non-empty file name under a loaded configuration has a public URL:
      the public root, a slash, then the object key. When the root is the
      configured base it contributes no trailing slash of its own. */
  lemma FileUrlIsRootAndObjectKey(config: StorageConfig, category: UploadCategory, fileName: string)
    requires config.bucket != ""
    requires fileName != ""
    ensures BuildFileUrl(config, category, Some(fileName))
            == Ok(Some(PublicRoot(config) + "/" + GetObjectKey(category, fileName)))
  {
    var prefix := CategoryConfigOf(category).prefix;
    assert PublicRoot(config) + "/" + prefix + "/" + fileName
        == PublicRoot(config) + "/" + (prefix + "/" + fileName);
  }

  /** A configuration that passed start-up always yields URLs, and a public
      base URL in use never ends in a slash, so the URL has no doubled slash
      at the join. */
  lemma LoadedConfigBuildsUrls(publicBaseUrlEnv: Option<string>, bucketEnv: Option<string>, category: UploadCategory, fileName: string)
    requires LoadStorageConfig(publicBaseUrlEnv, bucketEnv).Ok?
    requires fileName != ""
    ensures BuildFileUrl(LoadStorageConfig(publicBaseUrlEnv, bucketEnv).value, category, Some(fileName)).Ok?
    ensures var config := LoadStorageConfig(publicBaseUrlEnv, bucketEnv).value;
            UsesPublicBase(config) ==> !EndsWithSlash(PublicRoot(config))
  {
  }

  /** A public base URL made only of slashes is stripped to the empty string,
      which counts as unset: URLs then point at the bucket. */
  lemma SlashOnlyBaseFallsBackToBucket(slashes: nat, bucket: string)
    requires slashes > 0 && bucket != ""
    ensures var config := LoadStorageConfig(Some(seq(slashes, _ => '/')), Some(bucket)).value;
            PublicRoot(config) == GCS_PUBLIC_HOST + bucket
  {
    RemoveTrailingSlashIgnoresAddedSlashes("", slashes);
    assert "" + seq(slashes, _ => '/') == seq(slashes, _ => '/');
  }

  /** Distinct categories keep their files under distinct prefixes, and an
      object key determines both its category and its file name. */
  lemma ObjectKeyInjective(c1: UploadCategory, n1: string, c2: UploadCategory, n2: string)
    requires GetObjectKey(c1, n1) == GetObjectKey(c2, n2)
    ensures c1 == c2 && n1 == n2
  {
  }

  lemma CategoryPrefixesDistinct()
    ensures CategoryConfigOf(VehiclePhoto).prefix != CategoryConfigOf(MaintenanceDocument).prefix
    ensures CategoryConfigOf(VehiclePhoto).requiresImage && !CategoryConfigOf(MaintenanceDocument).requiresImage
  {
  }

  /** The content-type gate applied before an upload is signed: a content
      type is required, and an image-only category demands an image type. */
  function EnsureContentType(category: UploadCategory, contentType: string): (r: Outcome<StorageError>)
    ensures contentType == "" ==> r == Fail(MissingContentType)
    ensures category == MaintenanceDocument ==> (r == Pass <==> contentType != "")
    ensures category == VehiclePhoto ==> (r == Pass <==> IMAGE_CONTENT_TYPE_PREFIX <= contentType)
    ensures r.Fail? && contentType != "" ==> r.error == ContentTypeNotAllowed
  {
    if contentType == "" then Fail(MissingContentType)
    else if CategoryConfigOf(category).requiresImage && !(IMAGE_CONTENT_TYPE_PREFIX <= contentType)
    then Fail(ContentTypeNotAllowed)
    else Pass
  }
}
