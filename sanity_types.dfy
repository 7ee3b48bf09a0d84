/**
 * The typed content model: the shapes the rendering layer narrows fetched
 * documents to, the discriminated `MediaItem` union, the closed document
 * union with its type guards, the closed enumerations, and the deprecated
 * aliases kept for the retired "artist" generation.
 */
module SanityTypes {
  import opened Wrappers

  // ---------------------------------------------------------------------------
  // Base types
  // ---------------------------------------------------------------------------

  /** The system fields every document carries (`_id`, `_createdAt`, `_updatedAt`, `_rev`). */
  datatype Meta = Meta(id: string, createdAt: string, updatedAt: string, rev: string)

  datatype Slug = Slug(current: string)

  /** A reference holds only the target's `_id`; it never embeds the target. */
  datatype Reference = Reference(ref: string)

  datatype ImageAsset = ImageAsset(asset: Reference)

  datatype FileAsset = FileAsset(asset: Reference)

  // ---------------------------------------------------------------------------
  // Media
  // ---------------------------------------------------------------------------

  /** One entry of a media list: exactly one payload per variant; `isPrimary` is advisory. */
  datatype MediaItem =
    | ImageMedia(key: Option<string>, image: ImageAsset, alt: Option<string>, caption: Option<string>, isPrimary: Option<bool>)
    | VideoMedia(key: Option<string>, video: FileAsset, caption: Option<string>, isPrimary: Option<bool>)
    | VimeoMedia(key: Option<string>, vimeoId: string, caption: Option<string>, isPrimary: Option<bool>)
    | YoutubeMedia(key: Option<string>, youtubeId: string, caption: Option<string>, isPrimary: Option<bool>)

  /** The `_type` discriminator each media variant carries. */
  function MediaTypeName(m: MediaItem): string {
    match m
    case ImageMedia(_, _, _, _, _) => "imageMedia"
    case VideoMedia(_, _, _, _) => "videoMedia"
    case VimeoMedia(_, _, _, _) => "vimeoMedia"
    case YoutubeMedia(_, _, _, _) => "youtubeMedia"
  }

  predicate IsImageMedia(m: MediaItem)
    ensures IsImageMedia(m) <==> m.ImageMedia?
  {
    MediaTypeName(m) == "imageMedia"
  }

  predicate IsVideoMedia(m: MediaItem)
    ensures IsVideoMedia(m) <==> m.VideoMedia?
  {
    MediaTypeName(m) == "videoMedia"
  }

  predicate IsVimeoMedia(m: MediaItem)
    ensures IsVimeoMedia(m) <==> m.VimeoMedia?
  {
    MediaTypeName(m) == "vimeoMedia"
  }

  predicate IsYoutubeMedia(m: MediaItem)
    ensures IsYoutubeMedia(m) <==> m.YoutubeMedia?
  {
    MediaTypeName(m) == "youtubeMedia"
  }

  /** How many of the four media guards hold. */
  function MediaGuardCount(m: MediaItem): nat {
    (if IsImageMedia(m) then 1 else 0) + (if IsVideoMedia(m) then 1 else 0)
      + (if IsVimeoMedia(m) then 1 else 0) + (if IsYoutubeMedia(m) then 1 else 0)
  }

  /** Exactly one of the four media guards holds for every media item. */
  lemma ExactlyOneMediaGuard(m: MediaItem)
    ensures MediaGuardCount(m) == 1
  {
  }

  // ---------------------------------------------------------------------------
  // Closed enumerations and their stored string values
  // ---------------------------------------------------------------------------

  datatype Availability = Available | Sold | NotForSale | Private

  function AvailabilityValue(a: Availability): string {
    match a
    case Available => "available"
    case Sold => "sold"
    case NotForSale => "notForSale"
    case Private => "private"
  }

  /** Reads a stored availability; any other string is not a member of the enumeration. */
  function ParseAvailability(s: string): (r: Option<Availability>)
    ensures r.Some? ==> AvailabilityValue(r.value) == s
    ensures forall a :: AvailabilityValue(a) == s ==> r == Some(a)
  {
    if s == "available" then Some(Available)
    else if s == "sold" then Some(Sold)
    else if s == "notForSale" then Some(NotForSale)
    else if s == "private" then Some(Private)
    else None
  }

  datatype ProjectStatus = Planning | InProgress | Completed | Archived

  function ProjectStatusValue(s: ProjectStatus): string {
    match s
    case Planning => "planning"
    case InProgress => "inProgress"
    case Completed => "completed"
    case Archived => "archived"
  }

  function ParseProjectStatus(s: string): (r: Option<ProjectStatus>)
    ensures r.Some? ==> ProjectStatusValue(r.value) == s
    ensures forall v :: ProjectStatusValue(v) == s ==> r == Some(v)
  {
    if s == "planning" then Some(Planning)
    else if s == "inProgress" then Some(InProgress)
    else if s == "completed" then Some(Completed)
    else if s == "archived" then Some(Archived)
    else None
  }

  datatype ExhibitionType = Solo | Group | Collaboration

  function ExhibitionTypeValue(t: ExhibitionType): string {
    match t
    case Solo => "solo"
    case Group => "group"
    case Collaboration => "collaboration"
  }

  function ParseExhibitionType(s: string): (r: Option<ExhibitionType>)
    ensures r.Some? ==> ExhibitionTypeValue(r.value) == s
    ensures forall v :: ExhibitionTypeValue(v) == s ==> r == Some(v)
  {
    if s == "solo" then Some(Solo)
    else if s == "group" then Some(Group)
    else if s == "collaboration" then Some(Collaboration)
    else None
  }

  datatype ExhibitionStatus = Upcoming | Current | Past

  function ExhibitionStatusValue(s: ExhibitionStatus): string {
    match s
    case Upcoming => "upcoming"
    case Current => "current"
    case Past => "past"
  }

  function ParseExhibitionStatus(s: string): (r: Option<ExhibitionStatus>)
    ensures r.Some? ==> ExhibitionStatusValue(r.value) == s
    ensures forall v :: ExhibitionStatusValue(v) == s ==> r == Some(v)
  {
    if s == "upcoming" then Some(Upcoming)
    else if s == "current" then Some(Current)
    else if s == "past" then Some(Past)
    else None
  }

  /** The enumerations are closed: exactly 4, 4, 3 and 3 distinct stored values. */
  lemma EnumerationsAreClosed()
    ensures |set a: Availability | true :: AvailabilityValue(a)| == 4
    ensures |set v: ProjectStatus | true :: ProjectStatusValue(v)| == 4
    ensures |set v: ExhibitionType | true :: ExhibitionTypeValue(v)| == 3
    ensures |set v: ExhibitionStatus | true :: ExhibitionStatusValue(v)| == 3
  {
    assert (set a: Availability | true :: AvailabilityValue(a)) == {"available", "sold", "notForSale", "private"} by {
      assert AvailabilityValue(Available) == "available" && AvailabilityValue(Sold) == "sold";
      assert AvailabilityValue(NotForSale) == "notForSale" && AvailabilityValue(Private) == "private";
    }
    assert (set v: ProjectStatus | true :: ProjectStatusValue(v)) == {"planning", "inProgress", "completed", "archived"} by {
      assert ProjectStatusValue(Planning) == "planning" && ProjectStatusValue(InProgress) == "inProgress";
      assert ProjectStatusValue(Completed) == "completed" && ProjectStatusValue(Archived) == "archived";
    }
    assert (set v: ExhibitionType | true :: ExhibitionTypeValue(v)) == {"solo", "group", "collaboration"} by {
      assert ExhibitionTypeValue(Solo) == "solo" && ExhibitionTypeValue(Group) == "group";
      assert ExhibitionTypeValue(Collaboration) == "collaboration";
    }
    assert (set v: ExhibitionStatus | true :: ExhibitionStatusValue(v)) == {"upcoming", "current", "past"} by {
      assert ExhibitionStatusValue(Upcoming) == "upcoming" && ExhibitionStatusValue(Current) == "current";
      assert ExhibitionStatusValue(Past) == "past";
    }
  }

  // ---------------------------------------------------------------------------
  // Documents
  // ---------------------------------------------------------------------------

  datatype Person = Person(
    meta: Meta,
    title: Option<string>,
    firstName: string,
    middleName: Option<string>,
    lastName: string,
    slug: Slug,
    roles: seq<Reference>,
    profileImage: Option<ImageAsset>,
    isCoreArtist: Option<bool>,
    isActive: Option<bool>,
    birthYear: Option<int>,
    birthPlace: Option<string>,
    currentLocation: Option<string>,
    cvFile: Option<FileAsset>,
    email: Option<string>,
    website: Option<string>)

  /** Deprecated: the retired artist shape is the person shape. */
  type Artist = Person

  datatype Artwork = Artwork(
    meta: Meta,
    title: string,
    slug: Slug,
    artists: seq<Reference>,
    year: Option<int>,
    medium: Option<Reference>,
    techniques: seq<Reference>,
    tags: seq<Reference>,
    media: seq<MediaItem>,
    isFeatured: Option<bool>,
    project: Option<Reference>,
    relatedArtworks: seq<Reference>,
    price: Option<int>,
    availability: Option<Availability>,
    orderRank: Option<int>)

  datatype Project = Project(
    meta: Meta,
    title: string,
    slug: Slug,
    status: Option<ProjectStatus>,
    creators: seq<Reference>,
    collaborators: seq<Reference>,
    coverImage: Option<ImageAsset>,
    startDate: Option<string>,
    endDate: Option<string>,
    media: seq<MediaItem>,
    tags: seq<Reference>,
    isFeatured: Option<bool>,
    orderRank: Option<int>)

  datatype Exhibition = Exhibition(
    meta: Meta,
    title: string,
    slug: Slug,
    exhibitionType: Option<ExhibitionType>,
    status: Option<ExhibitionStatus>,
    curators: seq<Reference>,
    location: Option<Reference>,
    venue: Option<string>,
    city: Option<string>,
    country: Option<string>,
    startDate: Option<string>,
    endDate: Option<string>,
    artworks: seq<Reference>,
    featuredProjects: seq<Reference>,
    isFeatured: Option<bool>)

  datatype Award = Award(
    meta: Meta,
    title: string,
    slug: Slug,
    organization: Option<string>,
    year: Option<int>,
    recipients: seq<Reference>,
    artwork: Option<Reference>,
    isMajorAward: Option<bool>)

  datatype Location = Location(
    meta: Meta,
    name: string,
    slug: Slug,
    locationType: Option<Reference>,
    address: Option<string>,
    city: Option<string>,
    country: Option<string>,
    website: Option<string>,
    openingHours: Option<string>)

  datatype Role = Role(meta: Meta, title: string, description: Option<string>, orderRank: Option<int>)

  datatype Medium = Medium(meta: Meta, title: string, description: Option<string>, orderRank: Option<int>)

  datatype Technique = Technique(meta: Meta, title: string, description: Option<string>, orderRank: Option<int>)

  datatype Tag = Tag(meta: Meta, title: string, slug: Slug)

  datatype Category = Category(meta: Meta, title: string, slug: Slug, description: Option<string>, parent: Option<Reference>)

  datatype LocationType = LocationType(meta: Meta, title: string)

  datatype MediaType = MediaType(meta: Meta, title: string, description: Option<string>, orderRank: Option<int>)

  datatype SiteSettings = SiteSettings(meta: Meta, title: string, description: Option<string>, contactEmail: Option<string>)

  /** The closed union of document kinds. */
  datatype SanityDocumentType =
    | PersonDoc(person: Person)
    | ArtworkDoc(artwork: Artwork)
    | ProjectDoc(project: Project)
    | ExhibitionDoc(exhibition: Exhibition)
    | AwardDoc(award: Award)
    | LocationDoc(location: Location)
    | RoleDoc(role: Role)
    | MediumDoc(medium: Medium)
    | TechniqueDoc(technique: Technique)
    | TagDoc(tag: Tag)
    | CategoryDoc(category: Category)
    | LocationTypeDoc(locationType: LocationType)
    | MediaTypeDoc(mediaType: MediaType)
    | SiteSettingsDoc(siteSettings: SiteSettings)

  /** The `_type` literal each kind of document carries. */
  function TypeName(d: SanityDocumentType): string {
    match d
    case PersonDoc(_) => "person"
    case ArtworkDoc(_) => "artwork"
    case ProjectDoc(_) => "project"
    case ExhibitionDoc(_) => "exhibition"
    case AwardDoc(_) => "award"
    case LocationDoc(_) => "location"
    case RoleDoc(_) => "role"
    case MediumDoc(_) => "medium"
    case TechniqueDoc(_) => "technique"
    case TagDoc(_) => "tag"
    case CategoryDoc(_) => "category"
    case LocationTypeDoc(_) => "locationType"
    case MediaTypeDoc(_) => "mediaType"
    case SiteSettingsDoc(_) => "siteSettings"
  }

  /** Distinct kinds carry distinct `_type` literals, so the discriminator decides the kind. */
  lemma TypeNameDecidesKind(d: SanityDocumentType, e: SanityDocumentType)
    ensures TypeName(d) == TypeName(e) <==> (
      && d.PersonDoc? == e.PersonDoc? && d.ArtworkDoc? == e.ArtworkDoc?
      && d.ProjectDoc? == e.ProjectDoc? && d.ExhibitionDoc? == e.ExhibitionDoc? && d.AwardDoc? == e.AwardDoc?
      && d.LocationDoc? == e.LocationDoc? && d.RoleDoc? == e.RoleDoc? && d.MediumDoc? == e.MediumDoc?
      && d.TechniqueDoc? == e.TechniqueDoc? && d.TagDoc? == e.TagDoc? && d.CategoryDoc? == e.CategoryDoc?
      && d.LocationTypeDoc? == e.LocationTypeDoc? && d.MediaTypeDoc? == e.MediaTypeDoc?
      && d.SiteSettingsDoc? == e.SiteSettingsDoc?)
  {
  }

  predicate IsPerson(d: SanityDocumentType)
    ensures IsPerson(d) <==> d.PersonDoc?
  {
    TypeName(d) == "person"
  }

  /** Deprecated: the artist guard is the person guard itself, not a second implementation. */
  const IsArtist: SanityDocumentType -> bool := IsPerson

  predicate IsArtwork(d: SanityDocumentType)
    ensures IsArtwork(d) <==> d.ArtworkDoc?
  {
    TypeName(d) == "artwork"
  }

  predicate IsProject(d: SanityDocumentType)
    ensures IsProject(d) <==> d.ProjectDoc?
  {
    TypeName(d) == "project"
  }

  predicate IsExhibition(d: SanityDocumentType)
    ensures IsExhibition(d) <==> d.ExhibitionDoc?
  {
    TypeName(d) == "exhibition"
  }

  predicate IsAward(d: SanityDocumentType)
    ensures IsAward(d) <==> d.AwardDoc?
  {
    TypeName(d) == "award"
  }

  predicate IsLocation(d: SanityDocumentType)
    ensures IsLocation(d) <==> d.LocationDoc?
  {
    TypeName(d) == "location"
  }

  /** How many of the document guards hold. */
  function DocumentGuardCount(d: SanityDocumentType): nat {
    (if IsPerson(d) then 1 else 0) + (if IsArtwork(d) then 1 else 0) + (if IsProject(d) then 1 else 0)
      + (if IsExhibition(d) then 1 else 0) + (if IsAward(d) then 1 else 0) + (if IsLocation(d) then 1 else 0)
  }

  /** The document guards are mutually exclusive; none holds for a taxonomy or settings document. */
  lemma DocumentGuardsExclusive(d: SanityDocumentType)
    ensures DocumentGuardCount(d) <= 1
    ensures DocumentGuardCount(d) == 0 <==> (
      !(d.PersonDoc? || d.ArtworkDoc? || d.ProjectDoc? || d.ExhibitionDoc? || d.AwardDoc? || d.LocationDoc?))
  {
  }

  /** The deprecated artist guard answers exactly as the person guard on every document. */
  lemma ArtistGuardIsPersonGuard(d: SanityDocumentType)
    ensures IsArtist(d) == IsPerson(d)
    ensures IsArtist(d) <==> d.PersonDoc?
  {
  }
}
