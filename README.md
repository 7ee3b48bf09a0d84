# Atelier Schork content layer, modelled in Dafny

This project models the core of the Atelier Schork website. The site reads all of its content (people, artworks, projects, exhibitions, awards, locations, taxonomies, site settings) from a Sanity content store, using fixed GROQ queries. The model covers four parts of the repository:

- **The query layer** (`apps/web/lib/sanity.queries.ts`).
  - Each exported query is a function over one immutable store: a sequence of documents plus an index from `_id` to document.
  - The GROQ operations are modelled in module `Groq`:
    - a filter `*[p]`;
    - an `order(...)` clause (an insertion sort by a lexicographic comparison of the listed keys);
    - a range `[a...b]`;
    - element access `[0]`;
    - forward expansion `->`, as a lookup in the index that may find nothing;
    - `references(...)`.
  - Reverse joins (`*[... references(^._id)]`, `project._ref == ^._id`) are filters over the whole store.
  - Each query's contract states what it returns:
    - *List queries:* the exact multiset of matching documents, that nothing else is included, and the sort order.
    - *Slug lookups:* the filter's first match in store order, and `null` exactly when nothing matches.
    - *Capped queries:* exactly the first `min(limit, matches)` documents of the ordered listing, so every match left out sorts no earlier than any kept.
- **The client module** (`apps/web/lib/sanity.client.ts`).
  - The configuration check that runs when the module loads.
  - `getFileUrl`, which parses `file-<assetId>-<ext>` references.
  - The option defaulting in `getImageUrl` and `getResponsiveImageUrls`. The image URL builder is foreign code, so it is modelled as the sequence of builder calls plus the settings those calls leave.
- **The typed content model** (`apps/web/lib/sanity.types.ts`):
  - the closed document union and its type guards;
  - the four-variant `MediaItem` union and its guards;
  - the closed string enumerations;
  - the deprecated `Artist`/`isArtist`/`ArtistExpanded` aliases.
- **The Studio's project schema** (`apps/studio/schemaTypes/project.ts`): the `endYear` cross-field validator and the list-preview formatter.

Modules:

| module | file |
|---|---|
| `Wrappers` | `wrappers.dfy` |
| `Js` (JavaScript truthiness, `split`/`join`, integer rendering) | `js.dfy` |
| `Groq` | `groq.dfy` |
| `SanityTypes` | `sanity_types.dfy` |
| `SanityQueries` | `sanity_queries.dfy` |
| `QueryLaws` (properties relating several queries) | `query_laws.dfy` |
| `SanityClient` | `sanity_client.dfy` |
| `ProjectSchema` | `project_schema.dfy` |

Some terms used in the table:

- `ListsExactly(r, docs, p)`: the multiset of `r` equals the multiset of documents in `docs` that satisfy `p`.
- `Within(r, docs, p)`: every element of `r` is in `docs` and satisfies `p`.
- `SortedBy(r, terms, absent)`: every earlier element compares no later than every later one under the `order(...)` terms.
- `EarliestWhere(docs, d, p)`: `d` is the first document of `docs` that satisfies `p`.
- `ArtworksProjected(st, r)`, and likewise `ProjectsProjected`, `ExhibitionsProjected` and `ProfilesProjected`: every entry of `r` is the view of its own document (`ArtworkView`, `ProjectView`, `ExhibitionView`, `ProfileView`). `LocationsProjected` says that each location's type is resolved and no exhibitions are joined.
- `CappedListing(r, st, p, terms, n)`: `r` has `min(n, matches)` elements and they are the first elements of the ordered listing `*[p] | order(terms)`. So `r` is sorted, holds only matches, and holds all of them when there are no more than `n`.

Notes on where the model follows the code:

- The "artist" queries are separate queries on `_type == "artist"`, not aliases of the person queries.
- `getPersonBySlug` joins no reverse references, whereas `getArtistBySlug` joins three.
- The model has no equivalence between these pairs. `QueryLaws.ArtistLookupMissesPeople` shows a store where they differ.

## Model

| member | source | states |
|---|---|---|
| Groq.DerefFindsDocument | apps/web/lib/sanity.queries.ts:116 | in a consistent store, a found target is a stored document with that id |
| Groq.Deref | apps/web/lib/sanity.queries.ts:116 | in a consistent store, `ref->` is present iff some stored document has that id, and is then that stored document |
| Groq.DerefField | apps/web/lib/sanity.queries.ts:107 | `field->` on an absent field is absent, and on a present one is the target of its reference |
| Groq.DerefAll | apps/web/lib/sanity.queries.ts:108 | `field[]->` has one entry per reference, in order, and entry `i` is the target of reference `i` |
| Groq.Filter | apps/web/lib/sanity.queries.ts:210 | `*[p]` keeps the elements satisfying `p` and only those, never more than the input; the order is fixed by FilterAppend and FilterSingleton |
| Groq.FilterSingleton | apps/web/lib/sanity.queries.ts:210 | a one-element store keeps its element iff it satisfies `p` |
| Groq.FilterAppend | apps/web/lib/sanity.queries.ts:218 | filtering a concatenation is the concatenation of the filtered parts: a filter keeps store order, which `[0]` and every unordered listing depend on |
| Groq.FilterMultiset | apps/web/lib/sanity.queries.ts:210 | the filter's multiset is the multiset of matching elements, each as often as stored |
| Groq.FilterCount | apps/web/lib/sanity.queries.ts:158 | the filter's length equals the number of positions that satisfy `p` |
| Groq.FilterCongruent | apps/web/lib/sanity.queries.ts:289 | two predicates that agree on every element give the same filter |
| Groq.FirstOfFilter | apps/web/lib/sanity.queries.ts:218 | `[0]` of a filter is present iff some element matches, and is then the earliest match |
| Groq.Slice | apps/web/lib/sanity.queries.ts:265 | `[lo...hi]` is positions `lo` up to `min(hi, length)`, exclusive, and empty when `lo` is past the end |
| Groq.CompareText | apps/web/lib/sanity.queries.ts:210 | a three-way result, -1, 0 or 1; zero iff equal, antisymmetric and transitive (the lemmas below) |
| Groq.CompareTextZero | apps/web/lib/sanity.queries.ts:210 | two strings compare equal iff they are the same string |
| Groq.CompareTextAntisymmetric | apps/web/lib/sanity.queries.ts:210 | string comparison is antisymmetric |
| Groq.CompareTextTransitive | apps/web/lib/sanity.queries.ts:210 | string comparison is transitive |
| Groq.CompareKeyTotalOrder | apps/web/lib/sanity.queries.ts:265 | key comparison is a total order, with absent keys placed by the store's fixed rule |
| Groq.CompareKey | apps/web/lib/sanity.queries.ts:265 | a three-way result for two sort keys, a total order by CompareKeyTotalOrder |
| Groq.CompareBy | apps/web/lib/sanity.queries.ts:265 | a three-way result for two documents under an `order(...)` clause, decided by the first term that differs |
| Groq.CompareByAntisymmetric | apps/web/lib/sanity.queries.ts:265 | a multi-key `order(...)` comparison is antisymmetric |
| Groq.CompareByTransitive | apps/web/lib/sanity.queries.ts:265 | a multi-key `order(...)` comparison is transitive |
| Groq.Insert | apps/web/lib/sanity.queries.ts:265 | inserting adds exactly the one document to the multiset |
| Groq.InsertKeepsSorted | apps/web/lib/sanity.queries.ts:265 | inserting into a sorted sequence keeps it sorted |
| Groq.OrderBy | apps/web/lib/sanity.queries.ts:265 | `| order(...)` returns a permutation of its input that is sorted by the clause |
| SanityQueries.ListsExactlyMeans | apps/web/lib/sanity.queries.ts:210 | "lists exactly" means each document appears as often as it is stored when it matches, and never otherwise |
| SanityQueries.TargetSlugsContain | apps/web/lib/sanity.queries.ts:305 | `$slug in refs[]->slug.current` iff some reference leads to a document with that slug |
| SanityQueries.IdsWhere | apps/web/lib/sanity.queries.ts:289 | `*[q]._id` contains exactly the ids of stored documents satisfying `q` |
| SanityQueries.ReferencesAnySelected | apps/web/lib/sanity.queries.ts:289 | `references(*[q]._id)` iff the document references some stored document satisfying `q` |
| SanityQueries.Select | apps/web/lib/sanity.queries.ts:210 | filter-then-order lists exactly the matching documents, sorted, with one entry per matching position |
| SanityQueries.SliceOfListing | apps/web/lib/sanity.queries.ts:273 | a range of a sorted listing is sorted, is drawn from the listing, and is the whole listing when it starts at 0 and the bound is not smaller |
| SanityQueries.SelectRange | apps/web/lib/sanity.queries.ts:273 | a ranged query has at most `hi - lo` elements, at the listing's positions from `lo`, sorted and matching; from 0 with a large enough bound it lists exactly |
| SanityQueries.SelectRangeIsCapped | apps/web/lib/sanity.queries.ts:273 | `*[p] | order(terms) [0...n]` is a capped listing: the first `min(n, matches)` of the ordered listing |
| SanityQueries.CappedTakesFirst | apps/web/lib/sanity.queries.ts:273 | a capped listing keeps the matches that sort first: each match left out sorts no earlier than each match kept |
| SanityQueries.SelectFirst | apps/web/lib/sanity.queries.ts:218 | `*[p][0]` is present iff something matches, and is then the earliest match |
| SanityQueries.RoleTitles | apps/web/lib/sanity.queries.ts:103 | `roles[]->title` keeps one entry per reference: present iff the reference resolves to a role that has a title, and then that title |
| SanityQueries.PersonCards | apps/web/lib/sanity.queries.ts:97-104 | `refs[]->{...}` keeps one entry per reference: present iff the reference resolves, carrying the target and the titles of its roles (`RoleTitles` of the target's `roles`) |
| SanityQueries.ArtworkView | apps/web/lib/sanity.queries.ts:90-122 | the artwork view carries the stored document. Its `artists` are `PersonCards` of the artist references. It resolves `medium`, `techniques[]`, `tags[]`, `project` and `relatedArtworks[]`, one entry per reference |
| SanityQueries.ExhibitionView | apps/web/lib/sanity.queries.ts:164-200 | the exhibition view carries the stored document and resolves `curators[]`, `location`, `artworks[]` and `featuredProjects[]` |
| SanityQueries.ProfileView | apps/web/lib/sanity.queries.ts:40-85 | the artist and person list view carries the stored document, resolves `roles[]` and joins nothing in reverse |
| SanityQueries.ProjectView | apps/web/lib/sanity.queries.ts:127-158 | the project view carries the stored document and no joined artworks. Its `artworkCount` is the number of artwork documents whose project reference is its id. Its `creators` are `PersonCards` of the creator references. Collaborators and tags are resolved one entry per reference |
| SanityQueries.AwardViews | apps/web/lib/sanity.queries.ts:420-427 | award views expand recipients and the artwork in getAllAwards, and leave both unprojected in getAwardsByProfile |
| SanityQueries.RootCategoryViews | apps/web/lib/sanity.queries.ts:558-562 | each root category's children are exactly its child categories, by title, and no parent is projected |
| SanityQueries.GetAllArtists | apps/web/lib/sanity.queries.ts:209-212 | exactly the `"artist"` documents, by last name ascending. Every entry is the list view of its own document. |
| SanityQueries.GetArtistBySlug | apps/web/lib/sanity.queries.ts:217-231 | the first artist with that slug, or none. Its roles are resolved. Its artworks (year desc), projects and exhibitions (start date desc) are exactly the documents of that type referencing it, each entry the view of its own type |
| SanityQueries.GetAllPeople | apps/web/lib/sanity.queries.ts:240-243 | exactly the `"person"` documents, by last name ascending. Every entry is the list view of its own document. |
| SanityQueries.GetPersonBySlug | apps/web/lib/sanity.queries.ts:248-251 | the first person with that slug, or none; when found, it is the list view of that document (roles resolved, no reverse joins) |
| SanityQueries.ArtworksInListOrder | apps/web/lib/sanity.queries.ts:265 | all artworks, by year descending then rank ascending |
| SanityQueries.ArtworkPage | apps/web/lib/sanity.queries.ts:260-267 | the page is at most `limit` long (default 100), holds the listing's positions from `offset` (default 0), and is sorted and of artworks only |
| SanityQueries.GetAllArtworks | apps/web/lib/sanity.queries.ts:260-267 | the expanded page carries exactly the page's documents. Every entry is the artwork view of its own document. |
| SanityQueries.GetFeaturedArtworks | apps/web/lib/sanity.queries.ts:272-275 | the featured artworks, rank ascending, capped at `limit` (default 6): exactly the first `min(limit, featured)` of that listing. Every entry is the artwork view of its own document. |
| SanityQueries.GetArtworkBySlug | apps/web/lib/sanity.queries.ts:280-283 | the first artwork with that slug, or none; when found, it is the artwork view of that document |
| SanityQueries.GetArtworksByArtist | apps/web/lib/sanity.queries.ts:288-291 | exactly the artworks referencing some `"artist"` document with that slug, year descending. Every entry is the artwork view of its own document. |
| SanityQueries.GetArtworksByProject | apps/web/lib/sanity.queries.ts:296-299 | exactly the artworks whose project reference leads to a document with that slug, rank asc then year desc. Every entry is the artwork view of its own document. |
| SanityQueries.GetArtworksByTechnique | apps/web/lib/sanity.queries.ts:304-307 | exactly the artworks one of whose techniques has that slug, year descending. Every entry is the artwork view of its own document. |
| SanityQueries.GetArtworksByTag | apps/web/lib/sanity.queries.ts:312-315 | exactly the artworks one of whose tags has that slug, year descending. Every entry is the artwork view of its own document. |
| SanityQueries.GetAllProjects | apps/web/lib/sanity.queries.ts:324-327 | exactly the projects, start date descending. Every entry is the project view of its own document. |
| SanityQueries.GetFeaturedProjects | apps/web/lib/sanity.queries.ts:332-335 | the featured projects, rank ascending, capped at `limit` (default 3): exactly the first `min(limit, featured)` of that listing. Every entry is the project view of its own document. |
| SanityQueries.GetProjectBySlug | apps/web/lib/sanity.queries.ts:340-348 | the first project with that slug, or none. When found, it is the project view of that document with its artworks joined: exactly those pointing at it, rank asc then year desc, `artworkCount` of them, each the artwork view of its document |
| SanityQueries.GetProjectsByStatus | apps/web/lib/sanity.queries.ts:353-358 | exactly the projects with that status value, start date descending. Every entry is the project view of its own document. |
| SanityQueries.GetAllExhibitions | apps/web/lib/sanity.queries.ts:367-370 | exactly the exhibitions, start date descending. Every entry is the exhibition view of its own document. |
| SanityQueries.GetUpcomingExhibitions | apps/web/lib/sanity.queries.ts:375-378 | exactly the upcoming exhibitions, start date ascending. Every entry is the exhibition view of its own document. |
| SanityQueries.GetCurrentExhibitions | apps/web/lib/sanity.queries.ts:383-386 | exactly the current exhibitions, start date descending. Every entry is the exhibition view of its own document. |
| SanityQueries.GetPastExhibitions | apps/web/lib/sanity.queries.ts:391-394 | the past exhibitions, start date descending, capped at `limit` (default 20): exactly the first `min(limit, past)` of that listing. Every entry is the exhibition view of its own document. |
| SanityQueries.GetExhibitionBySlug | apps/web/lib/sanity.queries.ts:399-402 | the first exhibition with that slug, or none; when found, it is the exhibition view of that document |
| SanityQueries.GetAllAwards | apps/web/lib/sanity.queries.ts:411-431 | exactly the awards, year descending, recipients and artwork expanded |
| SanityQueries.GetAwardsByProfile | apps/web/lib/sanity.queries.ts:436-447 | exactly the awards referencing an artist or person with that slug, year descending, recipients and artwork not projected |
| SanityQueries.GetAllLocations | apps/web/lib/sanity.queries.ts:456-470 | exactly the locations, name ascending, each with its location type resolved and no exhibitions joined |
| SanityQueries.GetLocationBySlug | apps/web/lib/sanity.queries.ts:475-497 | the first location with that slug, or none. Its location type is resolved. Its exhibitions are exactly those held there, start date descending |
| SanityQueries.GetAllRoles | apps/web/lib/sanity.queries.ts:506-509 | exactly the roles, rank asc then title asc |
| SanityQueries.GetAllMediums | apps/web/lib/sanity.queries.ts:514-517 | exactly the mediums, rank asc then title asc |
| SanityQueries.GetAllTechniques | apps/web/lib/sanity.queries.ts:522-525 | exactly the techniques, rank asc then title asc |
| SanityQueries.GetAllTags | apps/web/lib/sanity.queries.ts:530-533 | exactly the tags, title ascending only |
| SanityQueries.GetAllCategories | apps/web/lib/sanity.queries.ts:538-547 | exactly the categories, title ascending, parent expanded |
| SanityQueries.GetRootCategories | apps/web/lib/sanity.queries.ts:552-565 | exactly the categories without a parent, title ascending, each with exactly its children by title; no parent is projected |
| SanityQueries.GetSiteSettings | apps/web/lib/sanity.queries.ts:574-577 | the first settings document in store order, or none |
| SanityQueries.SearchContent | apps/web/lib/sanity.queries.ts:586-605 | four capped listings of 10. Each is of its own type, matches `*term*` on its fields and is sorted in its own order: artworks by year desc, projects by start date desc, artists and people by last name. Every entry is the view of its own type for its document |
| QueryLaws.AdjacentSlices | apps/web/lib/sanity.queries.ts:265 | adjacent ranges of one listing concatenate to the range spanning both |
| QueryLaws.ArtworkViewsAppend | apps/web/lib/sanity.queries.ts:265 | expanding is done element by element, so it commutes with concatenation |
| QueryLaws.ArtworkPageIsSlice | apps/web/lib/sanity.queries.ts:264-266 | page `(offset, limit)` is the range `[offset...offset + limit]` of the artwork listing |
| QueryLaws.AdjacentPagesOfListing | apps/web/lib/sanity.queries.ts:264-266 | for any page function that ranges over one listing, adjacent pages concatenate |
| QueryLaws.AdjacentArtworkPages | apps/web/lib/sanity.queries.ts:264-266 | two adjacent artwork pages are the page spanning both: paging neither skips nor repeats |
| QueryLaws.AdjacentPagesConcatenate | apps/web/lib/sanity.queries.ts:260-267 | the same for the expanded getAllArtworks results |
| QueryLaws.DefaultPageIsFirstHundred | apps/web/lib/sanity.queries.ts:264 | without arguments, getAllArtworks is the page at offset 0 of length 100 |
| QueryLaws.ArtworkCountCountsReferrers | apps/web/lib/sanity.queries.ts:158 | `artworkCount` is the number of artwork documents whose project reference is the project id |
| QueryLaws.SlugIdentifies | apps/web/lib/sanity.queries.ts:341 | where slugs are unique per type, one slug names one document |
| QueryLaws.ArtworkCountMatchesArtworksByProject | apps/web/lib/sanity.queries.ts:296-299 | in a consistent store with unique slugs, getArtworksByProject has `artworkCount` elements |
| QueryLaws.ArtistLookupMissesPeople | apps/web/lib/sanity.queries.ts:217-218 | a store where the person lookup finds a slug and the artist lookup does not: the two are not aliases |
| QueryLaws.ArtistLookupIgnoresPersonDocuments | apps/web/lib/sanity.queries.ts:218 | adding a person document never changes whether an artist lookup succeeds |
| SanityTypes.IsImageMedia | apps/web/lib/sanity.types.ts:561-563 | true iff the media item is the image variant |
| SanityTypes.IsVideoMedia | apps/web/lib/sanity.types.ts:565-567 | true iff the media item is the video variant |
| SanityTypes.IsVimeoMedia | apps/web/lib/sanity.types.ts:569-571 | true iff the media item is the Vimeo variant |
| SanityTypes.IsYoutubeMedia | apps/web/lib/sanity.types.ts:573-575 | true iff the media item is the YouTube variant |
| SanityTypes.ExactlyOneMediaGuard | apps/web/lib/sanity.types.ts:110 | exactly one of the four media guards holds for every media item |
| SanityTypes.ParseAvailability | apps/web/lib/sanity.types.ts:229 | reads back exactly the four availability values and nothing else |
| SanityTypes.ParseProjectStatus | apps/web/lib/sanity.types.ts:242 | reads back exactly the four project status values and nothing else |
| SanityTypes.ParseExhibitionType | apps/web/lib/sanity.types.ts:267 | reads back exactly the three exhibition types and nothing else |
| SanityTypes.ParseExhibitionStatus | apps/web/lib/sanity.types.ts:268 | reads back exactly the three exhibition statuses and nothing else |
| SanityTypes.EnumerationsAreClosed | apps/web/lib/sanity.types.ts:229-268 | the enumerations have exactly 4, 4, 3 and 3 distinct stored values |
| SanityTypes.TypeNameDecidesKind | apps/web/lib/sanity.types.ts:429-443 | two documents of the union have the same `_type` iff they are the same kind |
| SanityTypes.IsPerson | apps/web/lib/sanity.types.ts:532-534 | true iff the document is a person |
| SanityTypes.IsArtwork | apps/web/lib/sanity.types.ts:541-543 | true iff the document is an artwork |
| SanityTypes.IsProject | apps/web/lib/sanity.types.ts:545-547 | true iff the document is a project |
| SanityTypes.IsExhibition | apps/web/lib/sanity.types.ts:549-551 | true iff the document is an exhibition |
| SanityTypes.IsAward | apps/web/lib/sanity.types.ts:553-555 | true iff the document is an award |
| SanityTypes.IsLocation | apps/web/lib/sanity.types.ts:557-559 | true iff the document is a location |
| SanityTypes.DocumentGuardsExclusive | apps/web/lib/sanity.types.ts:532-559 | at most one document guard holds, and none holds for taxonomy and settings documents |
| SanityTypes.ArtistGuardIsPersonGuard | apps/web/lib/sanity.types.ts:536-539 | the deprecated `isArtist` is `isPerson` itself |
| SanityClient.LoadConfig | apps/web/lib/sanity.client.ts:12-28 | loading succeeds iff both variables are set and non-empty; the project id is checked first; the API version is fixed; the CDN is used iff `NODE_ENV` is `production` |
| SanityClient.GetFileUrl | apps/web/lib/sanity.client.ts:110-122 | without a warning iff parts 2 and 3 of the `-`-split are non-empty, giving the CDN URL; otherwise `""` with a warning naming the reference |
| SanityClient.EmptyUrlIffWarned | apps/web/lib/sanity.client.ts:116-121 | the result is `""` exactly when the warning is logged |
| SanityClient.BothSourceFormsAgree | apps/web/lib/sanity.client.ts:111 | `{_ref: r}` and `{asset: {_ref: r}}` give the same result |
| SanityClient.WellFormedRefGivesCdnUrl | apps/web/lib/sanity.client.ts:114-121 | `<kind>-<id>-<ext>[-...]` with non-empty id and ext gives that asset's CDN URL |
| SanityClient.MalformedRefWarns | apps/web/lib/sanity.client.ts:114-119 | fewer than three parts, or an empty id or ext, gives `""` and the warning |
| SanityClient.TrailingPartsIgnored | apps/web/lib/sanity.client.ts:114 | parts after the third never change the URL |
| SanityClient.DocumentedReferenceExample | apps/web/lib/sanity.client.ts:108 | `file-abc123-pdf` gives the URL of asset `abc123` with extension `pdf` |
| SanityClient.RefWithoutSeparatorWarns | apps/web/lib/sanity.client.ts:116-119 | a reference without `-` is rejected with a warning |
| SanityClient.GetImageUrl | apps/web/lib/sanity.client.ts:56-74 | the builder ends with the given or default width 1200, quality 90 and format webp, and with a height only when one is given and truthy |
| SanityClient.GetResponsiveImageUrls | apps/web/lib/sanity.client.ts:79-86 | widths 640, 1024 and 1920 with the other defaults, plus the untransformed original |
| SanityClient.DefaultImageRequest | apps/web/lib/sanity.client.ts:63-65 | with no options, the request is 1200 wide, quality 90, webp, with no height |
| SanityClient.ZeroHeightIgnoredZeroWidthKept | apps/web/lib/sanity.client.ts:65-71 | a zero height is falsy and not applied; a zero width is given, so no default replaces it |
| ProjectSchema.ValidateEndYear | apps/studio/schemaTypes/project.ts:86-98 | an ongoing project is valid; otherwise the message is returned iff both years are truthy and the end is before the start |
| ProjectSchema.MissingYearIsValid | apps/studio/schemaTypes/project.ts:94-97 | without an end year, a document or a start year, the result is valid |
| ProjectSchema.InRangeYearsAreOrdered | apps/studio/schemaTypes/project.ts:74-96 | for years of at least 1900 on a project that is not ongoing, it is rejected iff the end is before the start |
| ProjectSchema.ZeroStartYearIsNotCompared | apps/studio/schemaTypes/project.ts:94 | a zero start year is falsy, so it is not compared |
| ProjectSchema.YearRange | apps/studio/schemaTypes/project.ts:210-216 | the year range never contains `•`, and reads "No dates" when nothing is shown |
| ProjectSchema.CreatorName | apps/studio/schemaTypes/project.ts:218 | "first last" when both parts are set, otherwise the part that is set, otherwise empty (and empty only then) |
| ProjectSchema.Prepare | apps/studio/schemaTypes/project.ts:209-226 | the title and media pass through unchanged; the subtitle is the year range alone when there is no creator name, and otherwise the year range, ` • ` and the creator name |
| ProjectSchema.YearRangeReadsBack | apps/studio/schemaTypes/project.ts:210-216 | the year-range text decodes to exactly the case and the years the formatter meant: `? - Ongoing`, `s - Ongoing`, `s - e`, `s` or `No dates` |
| ProjectSchema.SubtitleKeepsYearRange | apps/studio/schemaTypes/project.ts:219 | the subtitle's text before the first ` • ` is the whole year range, with or without a creator |
| ProjectSchema.SubtitleKeepsCreator | apps/studio/schemaTypes/project.ts:218-219 | the subtitle's text after the first ` • ` is the whole creator name, and is empty when there is no creator |
| ProjectSchema.SubtitleShowsYears | apps/studio/schemaTypes/project.ts:209-219 | the years a preview shows can be read back from its subtitle, whatever the creator's name |
| Js.JoinSplit | apps/web/lib/sanity.client.ts:114 | `split` loses nothing: joining its pieces gives back the string |
| Js.SplitJoin | apps/web/lib/sanity.client.ts:114 | splitting a join of separator-free pieces gives back the pieces |
| Js.Split | apps/web/lib/sanity.client.ts:114 | `split` gives at least one piece, and no piece contains the separator |
| Js.IntToString | apps/studio/schemaTypes/project.ts:211-215 | `${n}` is non-empty, all digits after an optional leading minus |
| Js.FalsyValues | apps/web/lib/sanity.client.ts:116 | the falsy values are exactly `undefined`, `""`, `0` and `false` |
| Js.IntToStringRoundTrip | apps/studio/schemaTypes/project.ts:211-215 | `${n}` for an integer reads back as that integer |

## Left out

- Remote execution is not modelled: `sanityClient.fetch`, `createClient`, HTTP and the query strings as text. Each query is the function its GROQ text declares.
- `Promise.all` in `searchContent` is not modelled. The four queries are evaluated one after another and combined.
- GROQ `match` tokenisation and `pt::text` are not modelled.
  - Matching is a parameter `Matcher`, applied to the pattern `*term*`.
  - Rich text is represented by its plain-text rendering.
- The placement of absent sort keys is a parameter of the store (`AbsentKeys`), not a constant.
- Groq.OrderBy: the sort is stable by construction, because an element is inserted before the first element it does not sort after. Stability itself is not proved.
- Which scalar fields a projection selects is not modelled. A view keeps the whole stored document, plus every `->` expansion and reverse join its projection declares. The fields an expansion's inner `{...}` selects are not modelled either: an expanded reference is the whole target document.
- The `artworkProjection` projects `medium` (sanity.queries.ts:107), while `ArtworkExpanded` declares `mediaTypes` (sanity.types.ts:477). The model follows the query and does not reconcile the two.
- The status list of the project schema (project.ts:107-111) differs from the `Project.status` type (sanity.types.ts:242). The model types status as the latter, for `getProjectsByStatus`, and does not reconcile them.
- The `@sanity/image-url` builder is foreign code.
  - Its URL rendering (`.url()`), `urlFor` beyond recording the source, and `getImageDimensions` (which reads the builder's internals) are left out.
  - A request is the source plus the builder calls made on it.
- `console.warn` is modelled as a returned warning text. The module-level `throw` is modelled as a `Failure` result.
  - GetFileUrl takes the loaded configuration as a parameter. It exists only when loading succeeded.
- Numbers are modelled as Dafny integers.
  - Fractional, `NaN` and negative limits or offsets are not modelled: `limit` and `offset` are `nat`.
  - Image options and years are `int`, and floating-point rendering does not arise.
- The year bounds depend on the clock (`new Date().getFullYear() + 1`, project.ts:72-75, 82-85) and are left out. Only the lower bound 1900 appears, in ProjectSchema.InRangeYearsAreOrdered.
- `Geopoint` coordinates are floats and are not modelled.
- React pages and components, the dashboard configuration, and the `medium.ts` schema are presentation or declarative configuration, and are left out.
- An absent list-of-references field is modelled as the empty list. On such a document GROQ gives `null` for `field[]->…` (for example `tags[]->{...}`, `roles[]->title`, `artists[]->{...}`, `recipients[]->{...}`), where the model gives `[]`. Every list expansion (DerefAll, PersonCards, RoleTitles) therefore yields `[]` where the source yields `null`.
- Fetch errors are not modelled: each query awaits `sanityClient.fetch`, and any error propagates unchanged.
