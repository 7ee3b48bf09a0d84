/**
 * The web app's Sanity client module: the configuration checked when the module
 * loads, the CDN URL of a file asset, and the defaults put in front of the image
 * URL builder. The HTTP client and the image URL builder are foreign code: a
 * builder is modelled by the sequence of calls made on it.
 */
module SanityClient {
  import opened Wrappers
  import opened Js

  // ---------------------------------------------------------------------------
  // Configuration
  // ---------------------------------------------------------------------------

  /** The environment variables read when the module loads; `None` is an unset variable. */
  datatype Env = Env(projectId: Option<string>, dataset: Option<string>, nodeEnv: Option<string>)

  /** `sanityConfig`. */
  datatype SanityConfig = SanityConfig(projectId: string, dataset: string, apiVersion: string, useCdn: bool)

  /** The two errors thrown while the module loads. */
  datatype ConfigError = MissingProjectId | MissingDataset

  const ApiVersion: string := "2025-01-01"

  function ConfigErrorMessage(e: ConfigError): string {
    match e
    case MissingProjectId => "Missing NEXT_PUBLIC_SANITY_PROJECT_ID environment variable"
    case MissingDataset => "Missing NEXT_PUBLIC_SANITY_DATASET environment variable"
  }

  /**
   * Loading the module: an unset or empty project id throws first, then an unset or
   * empty dataset; otherwise the configuration uses the CDN exactly in production.
   */
  function LoadConfig(env: Env): (r: Result<SanityConfig, ConfigError>)
    ensures r.Success? <==> TruthyString(env.projectId) && TruthyString(env.dataset)
    ensures !TruthyString(env.projectId) ==> r == Failure(MissingProjectId)
    ensures TruthyString(env.projectId) && !TruthyString(env.dataset) ==> r == Failure(MissingDataset)
    ensures r.Success? ==> Some(r.value.projectId) == env.projectId && Some(r.value.dataset) == env.dataset
    ensures r.Success? ==> r.value.projectId != "" && r.value.dataset != ""
    ensures r.Success? ==> r.value.apiVersion == ApiVersion
    ensures r.Success? ==> (r.value.useCdn <==> env.nodeEnv == Some("production"))
  {
    if !TruthyString(env.projectId) then Failure(MissingProjectId)
    else if !TruthyString(env.dataset) then Failure(MissingDataset)
    else Success(SanityConfig(env.projectId.value, env.dataset.value, ApiVersion, env.nodeEnv == Some("production")))
  }

  // ---------------------------------------------------------------------------
  // File asset URLs
  // ---------------------------------------------------------------------------

  /** `{ _ref }` or `{ asset: { _ref } }`. */
  datatype FileAsset = RefSource(ref: string) | AssetSource(asset: AssetReference)
  datatype AssetReference = AssetReference(ref: string)

  /** What getFileUrl returns, and the warning it logs on a malformed reference. */
  datatype FileUrlOutcome = FileUrlOutcome(url: string, warning: Option<string>)

  const CdnFilesPrefix: string := "https://cdn.sanity.io/files/"

  /** The reference either form of the argument carries. */
  function RefOf(fileAsset: FileAsset): (r: string)
    ensures fileAsset.RefSource? ==> r == fileAsset.ref
    ensures fileAsset.AssetSource? ==> r == fileAsset.asset.ref
  {
    match fileAsset
    case RefSource(ref) => ref
    case AssetSource(asset) => asset.ref
  }

  /** Array destructuring: element `i`, or `undefined` past the end. */
  function Part(parts: seq<string>, i: nat): (r: Option<string>)
    ensures r.Some? <==> i < |parts|
    ensures r.Some? ==> r.value == parts[i]
  {
    if i < |parts| then Some(parts[i]) else None
  }

  /** The CDN address of asset `assetId` with extension `extension` in the configured dataset. */
  function CdnFileUrl(config: SanityConfig, assetId: string, extension: string): string {
    CdnFilesPrefix + config.projectId + "/" + config.dataset + "/" + assetId + "." + extension
  }

  /**
   * getFileUrl: the second and third `-`-separated parts of the reference are the
   * asset id and the extension; when either is missing or empty the result is `""`
   * and a warning naming the reference is logged.
   */
  function GetFileUrl(config: SanityConfig, fileAsset: FileAsset): (r: FileUrlOutcome)
    ensures var parts := Split(RefOf(fileAsset), '-');
      (r.warning.None? <==> TruthyString(Part(parts, 1)) && TruthyString(Part(parts, 2)))
      && (r.warning.None? ==> r.url == CdnFileUrl(config, parts[1], parts[2]))
      && (r.warning.Some? ==> r.url == "" && r.warning.value == "Invalid file asset reference: " + RefOf(fileAsset))
  {
    var ref := RefOf(fileAsset);
    var parts := Split(ref, '-');
    var assetId, extension := Part(parts, 1), Part(parts, 2);
    if !TruthyString(assetId) || !TruthyString(extension) then
      FileUrlOutcome("", Some("Invalid file asset reference: " + ref))
    else
      FileUrlOutcome(CdnFileUrl(config, assetId.value, extension.value), None)
  }

  /** The result is empty exactly when the warning is logged. */
  lemma EmptyUrlIffWarned(config: SanityConfig, fileAsset: FileAsset)
    ensures GetFileUrl(config, fileAsset).url == "" <==> GetFileUrl(config, fileAsset).warning.Some?
  {
    var r := GetFileUrl(config, fileAsset);
    if r.warning.None? {
      assert r.url[0] == 'h';
    }
  }

  /** `{ _ref: r }` and `{ asset: { _ref: r } }` give the same result. */
  lemma BothSourceFormsAgree(config: SanityConfig, ref: string)
    ensures GetFileUrl(config, RefSource(ref)) == GetFileUrl(config, AssetSource(AssetReference(ref)))
  {
  }

  /** `parts` can be the `-`-separated pieces of a reference. */
  predicate SeparatorFree(parts: seq<string>) {
    forall i :: 0 <= i < |parts| ==> '-' !in parts[i]
  }

  /**
   * A reference `<kind>-<assetId>-<extension>`, optionally followed by further
   * `-`-separated parts, with a non-empty asset id and extension, gives the CDN URL
   * of that asset and no warning.
   */
  lemma WellFormedRefGivesCdnUrl(config: SanityConfig, parts: seq<string>)
    requires |parts| >= 3 && SeparatorFree(parts)
    requires parts[1] != "" && parts[2] != ""
    ensures GetFileUrl(config, RefSource(Join(parts, '-'))) == FileUrlOutcome(CdnFileUrl(config, parts[1], parts[2]), None)
  {
    SplitJoin(parts, '-');
  }

  /** A reference with fewer than three parts, or an empty asset id or extension, gives `""` and a warning. */
  lemma MalformedRefWarns(config: SanityConfig, parts: seq<string>)
    requires |parts| >= 1 && SeparatorFree(parts)
    requires |parts| < 3 || parts[1] == "" || parts[2] == ""
    ensures GetFileUrl(config, RefSource(Join(parts, '-')))
      == FileUrlOutcome("", Some("Invalid file asset reference: " + Join(parts, '-')))
  {
    SplitJoin(parts, '-');
  }

  /** Parts after the third do not change the URL. */
  lemma TrailingPartsIgnored(config: SanityConfig, parts: seq<string>)
    requires |parts| >= 3 && SeparatorFree(parts)
    ensures GetFileUrl(config, RefSource(Join(parts, '-'))).url == GetFileUrl(config, RefSource(Join(parts[..3], '-'))).url
  {
    var head := parts[..3];
    assert SeparatorFree(head) && head[1] == parts[1] && head[2] == parts[2];
    if parts[1] != "" && parts[2] != "" {
      WellFormedRefGivesCdnUrl(config, parts);
      WellFormedRefGivesCdnUrl(config, head);
    } else {
      MalformedRefWarns(config, parts);
      MalformedRefWarns(config, head);
    }
  }

  /** The reference format the repository documents: `file-abc123-pdf`. */
  lemma DocumentedReferenceExample(config: SanityConfig)
    ensures GetFileUrl(config, RefSource("file-abc123-pdf")).url == CdnFileUrl(config, "abc123", "pdf")
  {
    var parts := ["file", "abc123", "pdf"];
    assert Join(parts[2..], '-') == "pdf";
    assert Join(parts[1..], '-') == "abc123-pdf";
    assert Join(parts, '-') == "file-abc123-pdf";
    WellFormedRefGivesCdnUrl(config, parts);
  }

  /** A reference without separators is rejected with a warning. */
  lemma {:induction false} RefWithoutSeparatorWarns(config: SanityConfig, ref: string)
    requires '-' !in ref
    ensures GetFileUrl(config, RefSource(ref)) == FileUrlOutcome("", Some("Invalid file asset reference: " + ref))
  {
    SplitNoSeparator(ref, '-');
  }

  // ---------------------------------------------------------------------------
  // Image URLs
  // ---------------------------------------------------------------------------

  datatype ImageFormat = Jpg | Png | Webp

  /** The options of getImageUrl; `None` is an omitted option. */
  datatype ImageOptions = ImageOptions(width: Option<int>, height: Option<int>, quality: Option<int>, format: Option<ImageFormat>)

  /** `{}`, the default argument. */
  const NoOptions: ImageOptions := ImageOptions(None, None, None, None)

  /** One call on the image URL builder. */
  datatype BuilderCall = Width(w: int) | Height(h: int) | Quality(q: int) | Format(f: ImageFormat)

  /** `urlFor(source)` followed by builder calls, before `.url()` renders it. */
  datatype ImageRequest<S> = ImageRequest(source: S, calls: seq<BuilderCall>)

  /** What a builder has been told so far; a later call of the same kind replaces an earlier one. */
  datatype ImageSettings = ImageSettings(width: Option<int>, height: Option<int>, quality: Option<int>, format: Option<ImageFormat>)

  const NoSettings: ImageSettings := ImageSettings(None, None, None, None)

  function Apply(settings: ImageSettings, call: BuilderCall): ImageSettings {
    match call
    case Width(w) => settings.(width := Some(w))
    case Height(h) => settings.(height := Some(h))
    case Quality(q) => settings.(quality := Some(q))
    case Format(f) => settings.(format := Some(f))
  }

  /** The settings a builder ends up with after `calls`, in order. */
  function Applied(calls: seq<BuilderCall>): ImageSettings
    decreases |calls|
  {
    if |calls| == 0 then NoSettings else Apply(Applied(calls[..|calls| - 1]), calls[|calls| - 1])
  }

  /** An omitted option takes the default; a given one, even `0`, is kept. */
  function OrDefault<T>(o: Option<T>, default: T): (r: T)
    ensures o.Some? ==> r == o.value
    ensures o.None? ==> r == default
  {
    if o.Some? then o.value else default
  }

  /** getImageUrl: width, quality and format with their defaults, then the height if it is truthy. */
  function GetImageUrl<S>(source: S, options: ImageOptions): (r: ImageRequest<S>)
    ensures r.source == source
    ensures Applied(r.calls) == ImageSettings(
      Some(OrDefault(options.width, 1200)),
      if TruthyNumber(options.height) then options.height else None,
      Some(OrDefault(options.quality, 90)),
      Some(OrDefault(options.format, Webp)))
  {
    var width, quality, format := OrDefault(options.width, 1200), OrDefault(options.quality, 90), OrDefault(options.format, Webp);
    var calls := [Width(width), Quality(quality), Format(format)];
    assert calls[..2] == [Width(width), Quality(quality)] && calls[..2][..1] == [Width(width)];
    assert Applied(calls[..2][..1]) == ImageSettings(Some(width), None, None, None);
    assert Applied(calls[..2]) == ImageSettings(Some(width), None, Some(quality), None);
    assert Applied(calls) == ImageSettings(Some(width), None, Some(quality), Some(format));
    if TruthyNumber(options.height) then
      var withHeight := calls + [Height(options.height.value)];
      assert withHeight[..3] == calls;
      ImageRequest(source, withHeight)
    else
      ImageRequest(source, calls)
  }

  /** The URLs getResponsiveImageUrls returns. */
  datatype ResponsiveImageUrls<S> = ResponsiveImageUrls(mobile: ImageRequest<S>, tablet: ImageRequest<S>, desktop: ImageRequest<S>, original: ImageRequest<S>)

  /** The default settings with a given width. */
  function DefaultSettingsAt(width: int): ImageSettings {
    ImageSettings(Some(width), None, Some(90), Some(Webp))
  }

  /** getResponsiveImageUrls: widths 640, 1024 and 1920 with the other defaults, and the untransformed image. */
  function GetResponsiveImageUrls<S>(source: S): (r: ResponsiveImageUrls<S>)
    ensures r.mobile.source == source && Applied(r.mobile.calls) == DefaultSettingsAt(640)
    ensures r.tablet.source == source && Applied(r.tablet.calls) == DefaultSettingsAt(1024)
    ensures r.desktop.source == source && Applied(r.desktop.calls) == DefaultSettingsAt(1920)
    ensures r.original.source == source && Applied(r.original.calls) == NoSettings
  {
    ResponsiveImageUrls(
      GetImageUrl(source, NoOptions.(width := Some(640))),
      GetImageUrl(source, NoOptions.(width := Some(1024))),
      GetImageUrl(source, NoOptions.(width := Some(1920))),
      ImageRequest(source, []))
  }

  /** Without options, getImageUrl asks for a 1200-pixel-wide WebP image at quality 90 and leaves the height free. */
  lemma DefaultImageRequest<S>(source: S)
    ensures Applied(GetImageUrl(source, NoOptions).calls) == DefaultSettingsAt(1200)
  {
  }

  /** A zero height is falsy and is not applied; a zero width is given and is. */
  lemma ZeroHeightIgnoredZeroWidthKept<S>(source: S)
    ensures Applied(GetImageUrl(source, ImageOptions(Some(0), Some(0), None, None)).calls) == DefaultSettingsAt(0)
  {
  }
}
