/**
 * The declared semantics of every exported query of the content layer. Each
 * query is a type filter plus a predicate, an `order(...)` clause, an
 * optional range, forward expansions (`->`) of reference fields and reverse
 * joins (`*[... references(^._id)]`), evaluated over one store.
 *
 * A view (`XxxExpanded`) carries the whole stored document together with the
 * expansions and joins its projection declares; which scalar fields a
 * projection selects is not modelled.
 */
module SanityQueries {
  import opened Wrappers
  import opened Groq
  import SanityTypes

  // ---------------------------------------------------------------------------
  // Order clauses used by the queries
  // ---------------------------------------------------------------------------

  const LastNameAsc := [OrderTerm(LastName, Asc)]
  const YearDesc := [OrderTerm(Year, Desc)]
  const YearDescRankAsc := [OrderTerm(Year, Desc), OrderTerm(OrderRank, Asc)]
  const RankAsc := [OrderTerm(OrderRank, Asc)]
  const RankAscYearDesc := [OrderTerm(OrderRank, Asc), OrderTerm(Year, Desc)]
  const StartDateDesc := [OrderTerm(StartDate, Desc)]
  const StartDateAsc := [OrderTerm(StartDate, Asc)]
  const TitleAsc := [OrderTerm(Title, Asc)]
  const NameAsc := [OrderTerm(Name, Asc)]
  const RankAscTitleAsc := [OrderTerm(OrderRank, Asc), OrderTerm(Title, Asc)]

  // ---------------------------------------------------------------------------
  // What a query result is specified against
  // ---------------------------------------------------------------------------

  /** The documents of `docs` that satisfy `p`, each as often as `docs` holds it. */
  ghost function Matching(docs: seq<Doc>, p: Doc -> bool): multiset<Doc> {
    multiset(Filter(docs, p))
  }

  /** `r` holds every document of `docs` that satisfies `p`, as often as `docs` does, and nothing else. */
  ghost predicate ListsExactly(r: seq<Doc>, docs: seq<Doc>, p: Doc -> bool) {
    multiset(r) == Matching(docs, p)
  }

  /** Read element by element: each document occurs in `r` as often as in `docs` if it satisfies `p`, and never otherwise. */
  lemma ListsExactlyMeans(r: seq<Doc>, docs: seq<Doc>, p: Doc -> bool)
    ensures ListsExactly(r, docs, p) <==> forall d :: multiset(r)[d] == if p(d) then multiset(docs)[d] else 0
  {
    FilterMultiset(docs, p);
    if forall d :: multiset(r)[d] == if p(d) then multiset(docs)[d] else 0 {
      assert multiset(r) == Matching(docs, p);
    }
  }

  /** Two filters that agree on every document of the store select the same documents. */
  lemma MatchingCongruent(docs: seq<Doc>, p: Doc -> bool, q: Doc -> bool)
    requires forall d :: d in docs ==> p(d) == q(d)
    ensures Matching(docs, p) == Matching(docs, q)
  {
    FilterCongruent(docs, p, q);
  }

  /** Every element of `r` is a document of `docs` that satisfies `p`. */
  ghost predicate Within(r: seq<Doc>, docs: seq<Doc>, p: Doc -> bool) {
    forall d :: d in r ==> d in docs && p(d)
  }

  /** Some document of `docs` satisfies `p`. */
  ghost predicate AnyWhere(docs: seq<Doc>, p: Doc -> bool) {
    exists i :: 0 <= i < |docs| && p(docs[i])
  }

  /** `d` is the earliest document of `docs`, in store order, that satisfies `p`. */
  ghost predicate EarliestWhere(docs: seq<Doc>, d: Doc, p: Doc -> bool) {
    exists i :: 0 <= i < |docs| && docs[i] == d && p(d) && forall j :: 0 <= j < i ==> !p(docs[j])
  }

  // ---------------------------------------------------------------------------
  // Filters
  // ---------------------------------------------------------------------------

  /** `_type == t` */
  function OfType(t: string): Doc -> bool {
    (d: Doc) => d.docType == t
  }

  /** `_type == t && slug.current == $slug` */
  function WithSlug(t: string, slug: string): Doc -> bool {
    (d: Doc) => d.docType == t && d.slug == Some(slug)
  }

  /** `_type == t && isFeatured == true` */
  function FeaturedOfType(t: string): Doc -> bool {
    (d: Doc) => d.docType == t && d.isFeatured == Some(true)
  }

  /** `_type == "artwork" && project._ref == ^._id` */
  function ArtworkOfProject(projectId: string): Doc -> bool {
    (d: Doc) => d.docType == "artwork" && d.project == Some(projectId)
  }

  /** `_type == t && references(^._id)` */
  function ReferencingOfType(t: string, id: string): Doc -> bool {
    (d: Doc) => d.docType == t && References(d, id)
  }

  /** `field[]->slug.current`: the slugs of the referenced documents, absent where a reference dangles. */
  function TargetSlugs(st: Store, refs: seq<string>): (r: seq<Option<string>>)
    ensures |r| == |refs|
  {
    seq(|refs|, i requires 0 <= i < |refs| => var t := Deref(st, refs[i]); if t.Some? then t.value.slug else None)
  }

  /** Some reference in `refs` leads to a document whose slug is `slug`. */
  ghost predicate SomeTargetHasSlug(st: Store, refs: seq<string>, slug: string) {
    exists i :: 0 <= i < |refs| && Deref(st, refs[i]).Some? && Deref(st, refs[i]).value.slug == Some(slug)
  }

  lemma TargetSlugsContain(st: Store, refs: seq<string>, slug: string)
    ensures Some(slug) in TargetSlugs(st, refs) <==> SomeTargetHasSlug(st, refs, slug)
  {
    var ts := TargetSlugs(st, refs);
    if Some(slug) in ts {
      var i :| 0 <= i < |ts| && ts[i] == Some(slug);
      assert Deref(st, refs[i]).Some? && Deref(st, refs[i]).value.slug == Some(slug);
    }
    if SomeTargetHasSlug(st, refs, slug) {
      var i :| 0 <= i < |refs| && Deref(st, refs[i]).Some? && Deref(st, refs[i]).value.slug == Some(slug);
      assert ts[i] == Some(slug);
    }
  }

  /** `_type == "artwork" && $slug in techniques[]->slug.current` */
  function ArtworkWithTechnique(st: Store, slug: string): Doc -> bool {
    (d: Doc) => d.docType == "artwork" && Some(slug) in TargetSlugs(st, d.techniques)
  }

  /** `_type == "artwork" && $slug in tags[]->slug.current` */
  function ArtworkWithTag(st: Store, slug: string): Doc -> bool {
    (d: Doc) => d.docType == "artwork" && Some(slug) in TargetSlugs(st, d.tags)
  }

  /** `_type == "artwork" && project->slug.current == $projectSlug` */
  function ArtworkInProjectWithSlug(st: Store, slug: string): Doc -> bool {
    (d: Doc) => d.docType == "artwork" && DerefField(st, d.project).Some? && DerefField(st, d.project).value.slug == Some(slug)
  }

  /** `subquery._id`: the ids of the documents a filter selects, in store order. */
  function IdsWhere(st: Store, p: Doc -> bool): (ids: seq<string>)
    ensures forall id :: id in ids <==> exists d :: d in st.docs && p(d) && d.id == id
  {
    var s := Filter(st.docs, p);
    var ids := seq(|s|, i requires 0 <= i < |s| => s[i].id);
    assert forall d :: d in st.docs && p(d) ==> d.id in ids by {
      forall d | d in st.docs && p(d) ensures d.id in ids {
        var i :| 0 <= i < |s| && s[i] == d;
        assert ids[i] == d.id;
      }
    }
    ids
  }

  /** `references(*[q]._id)`: a document references one of the ids a subquery selects iff it references such a document. */
  lemma ReferencesAnySelected(st: Store, q: Doc -> bool, d: Doc)
    ensures ReferencesAny(d, IdsWhere(st, q)) <==> exists a :: a in st.docs && q(a) && References(d, a.id)
  {
    var ids := IdsWhere(st, q);
    if ReferencesAny(d, ids) {
      var i :| 0 <= i < |ids| && References(d, ids[i]);
      assert ids[i] in ids;
    }
    if exists a :: a in st.docs && q(a) && References(d, a.id) {
      var a :| a in st.docs && q(a) && References(d, a.id);
      assert a.id in ids;
      var i :| 0 <= i < |ids| && ids[i] == a.id;
    }
  }

  // ---------------------------------------------------------------------------
  // The evaluation pipeline: filter, order, range, first
  // ---------------------------------------------------------------------------

  /** `*[p] | order(terms)` */
  function Select(st: Store, p: Doc -> bool, terms: seq<OrderTerm>): (r: seq<Doc>)
    ensures ListsExactly(r, st.docs, p)
    ensures Within(r, st.docs, p)
    ensures SortedBy(r, terms, st.absent)
    ensures |r| == |Positions(st.docs, p)|
  {
    FilterCount(st.docs, p);
    var r := OrderBy(Filter(st.docs, p), terms, st.absent);
    assert forall d :: d in r <==> d in Filter(st.docs, p) by {
      forall d ensures d in r <==> d in Filter(st.docs, p) {
        assert d in r <==> d in multiset(r);
      }
    }
    r
  }

  /** A window of a sorted listing is sorted, holds only listed documents, and is the whole listing when it covers it. */
  lemma SliceOfListing(all: seq<Doc>, lo: nat, hi: nat, terms: seq<OrderTerm>, absent: AbsentKeys)
    requires lo <= hi
    requires SortedBy(all, terms, absent)
    ensures SortedBy(Slice(all, lo, hi), terms, absent)
    ensures forall d :: d in Slice(all, lo, hi) ==> d in all
    ensures lo == 0 && |all| <= hi ==> Slice(all, lo, hi) == all
  {
    var r := Slice(all, lo, hi);
    forall i, j | 0 <= i < j < |r| ensures InOrderAt(r, i, j, terms, absent) {
      assert r[i] == all[lo + i] && r[j] == all[lo + j];
      assert InOrderAt(all, lo + i, lo + j, terms, absent);
    }
    forall d | d in r ensures d in all {
      var i :| 0 <= i < |r| && r[i] == d;
      assert all[lo + i] == d;
    }
  }

  /** `*[p] | order(terms) [lo...hi]` */
  function SelectRange(st: Store, p: Doc -> bool, terms: seq<OrderTerm>, lo: nat, hi: nat): (r: seq<Doc>)
    requires lo <= hi
    ensures |r| <= hi - lo
    ensures var all := Select(st, p, terms);
      |r| == (if lo <= |all| then Min(hi, |all|) - lo else 0)
      && forall i :: 0 <= i < |r| ==> r[i] == all[lo + i]
    ensures Within(r, st.docs, p)
    ensures SortedBy(r, terms, st.absent)
    ensures lo == 0 && |Positions(st.docs, p)| <= hi ==> ListsExactly(r, st.docs, p)
  {
    var all := Select(st, p, terms);
    SliceOfListing(all, lo, hi, terms, st.absent);
    Slice(all, lo, hi)
  }

  /**
   * `*[p] | order(terms) [0...n]` as a capped listing promises it: at most `n`
   * matches, in order, and exactly the first `min(n, matches)` of the full
   * listing, so all of the matches when there are no more than `n`.
   */
  ghost predicate CappedListing(r: seq<Doc>, st: Store, p: Doc -> bool, terms: seq<OrderTerm>, n: nat) {
    && |r| <= n
    && Within(r, st.docs, p)
    && SortedBy(r, terms, st.absent)
    && |r| == Min(n, |Positions(st.docs, p)|)
    && (forall i :: 0 <= i < |r| ==> r[i] == Select(st, p, terms)[i])
    && (|Positions(st.docs, p)| <= n ==> ListsExactly(r, st.docs, p))
  }

  lemma SelectRangeIsCapped(st: Store, p: Doc -> bool, terms: seq<OrderTerm>, n: nat)
    ensures CappedListing(SelectRange(st, p, terms, 0, n), st, p, terms, n)
  {
  }

  /** A capped listing keeps the matches that sort first: each match it leaves out sorts no earlier than each it keeps. */
  lemma CappedTakesFirst(st: Store, p: Doc -> bool, terms: seq<OrderTerm>, n: nat)
    ensures forall i, j :: 0 <= i < |SelectRange(st, p, terms, 0, n)| <= j < |Select(st, p, terms)| ==>
      CompareBy(SelectRange(st, p, terms, 0, n)[i], Select(st, p, terms)[j], terms, st.absent) <= 0
  {
    var r, all := SelectRange(st, p, terms, 0, n), Select(st, p, terms);
    forall i, j | 0 <= i < |r| <= j < |all| ensures CompareBy(r[i], all[j], terms, st.absent) <= 0 {
      assert r[i] == all[i];
      assert InOrderAt(all, i, j, terms, st.absent);
    }
  }

  /** `*[p][0]` */
  function SelectFirst(st: Store, p: Doc -> bool): (r: Option<Doc>)
    ensures r.Some? <==> AnyWhere(st.docs, p)
    ensures r.Some? ==> EarliestWhere(st.docs, r.value, p)
  {
    FirstOfFilter(st.docs, p);
    First(Filter(st.docs, p))
  }

  // ---------------------------------------------------------------------------
  // Views: the stored document plus what its projection expands or joins
  // ---------------------------------------------------------------------------

  /** `people[]->{ ..., "roles": roles[]->title }`: a person reached through a reference, with role titles. */
  datatype PersonCard = PersonCard(doc: Doc, roleTitles: seq<Option<string>>)

  datatype ArtworkExpanded = ArtworkExpanded(
    doc: Doc,
    artists: seq<Option<PersonCard>>,
    medium: Option<Doc>,
    techniques: seq<Option<Doc>>,
    tags: seq<Option<Doc>>,
    project: Option<Doc>,
    relatedArtworks: seq<Option<Doc>>)

  datatype ProjectExpanded = ProjectExpanded(
    doc: Doc,
    creators: seq<Option<PersonCard>>,
    collaborators: seq<Option<Doc>>,
    tags: seq<Option<Doc>>,
    artworkCount: nat,
    artworks: Option<seq<ArtworkExpanded>>)

  datatype ExhibitionExpanded = ExhibitionExpanded(
    doc: Doc,
    curators: seq<Option<Doc>>,
    location: Option<Doc>,
    artworks: seq<Option<Doc>>,
    featuredProjects: seq<Option<Doc>>)

  /** `artworks`, `projects` and `exhibitionDocs` are present only where a query joins them. */
  datatype PersonExpanded = PersonExpanded(
    doc: Doc,
    roles: seq<Option<Doc>>,
    artworks: Option<seq<ArtworkExpanded>>,
    projects: Option<seq<ProjectExpanded>>,
    exhibitionDocs: Option<seq<ExhibitionExpanded>>)

  /** Deprecated: the artist result shape is the person result shape. */
  type ArtistExpanded = PersonExpanded

  /** `recipients` and `artwork` are present only where the query projects them; a present `artwork` is itself absent for a missing reference. */
  datatype AwardExpanded = AwardExpanded(doc: Doc, recipients: Option<seq<Option<Doc>>>, artwork: Option<Option<Doc>>)

  datatype LocationExpanded = LocationExpanded(doc: Doc, locationType: Option<Doc>, exhibitions: Option<seq<Doc>>)

  datatype CategoryExpanded = CategoryExpanded(doc: Doc, parent: Option<Doc>, children: Option<seq<Doc>>)

  /** `roles[]->title`: absent for a dangling reference or a role without a title. */
  function RoleTitles(st: Store, refs: seq<string>): (r: seq<Option<string>>)
    ensures |r| == |refs|
    ensures forall i :: 0 <= i < |r| ==> (r[i].Some? <==> Deref(st, refs[i]).Some? && Deref(st, refs[i]).value.title.Some?)
    ensures forall i :: 0 <= i < |r| && r[i].Some? ==> r[i] == Deref(st, refs[i]).value.title
  {
    seq(|refs|, i requires 0 <= i < |refs| => var t := Deref(st, refs[i]); if t.Some? then t.value.title else None)
  }

  function PersonCards(st: Store, refs: seq<string>): (r: seq<Option<PersonCard>>)
    ensures |r| == |refs|
    ensures forall i :: 0 <= i < |r| ==> (r[i].Some? <==> Deref(st, refs[i]).Some?)
    ensures forall i :: 0 <= i < |r| && r[i].Some? ==> r[i].value.doc == Deref(st, refs[i]).value
    ensures forall i :: 0 <= i < |r| && r[i].Some? ==> r[i].value.roleTitles == RoleTitles(st, r[i].value.doc.roles)
  {
    seq(|refs|, i requires 0 <= i < |refs| =>
      var t := Deref(st, refs[i]);
      if t.Some? then Some(PersonCard(t.value, RoleTitles(st, t.value.roles))) else None)
  }

  /** The artwork projection. */
  function ArtworkView(st: Store, d: Doc): (v: ArtworkExpanded)
    ensures v.doc == d
    ensures v.artists == PersonCards(st, d.artists)
    ensures v.medium == DerefField(st, d.medium) && v.project == DerefField(st, d.project)
    ensures v.techniques == DerefAll(st, d.techniques) && v.tags == DerefAll(st, d.tags)
    ensures v.relatedArtworks == DerefAll(st, d.relatedArtworks)
  {
    ArtworkExpanded(d, PersonCards(st, d.artists), DerefField(st, d.medium),
      DerefAll(st, d.techniques), DerefAll(st, d.tags), DerefField(st, d.project), DerefAll(st, d.relatedArtworks))
  }

  /** The project projection, with its computed `artworkCount`. */
  function ProjectView(st: Store, d: Doc): (v: ProjectExpanded)
    ensures v.doc == d && v.artworks == None
    ensures v.artworkCount == |Positions(st.docs, ArtworkOfProject(d.id))|
    ensures v.creators == PersonCards(st, d.creators) && v.collaborators == DerefAll(st, d.collaborators) && v.tags == DerefAll(st, d.tags)
  {
    FilterCount(st.docs, ArtworkOfProject(d.id));
    ProjectExpanded(d, PersonCards(st, d.creators), DerefAll(st, d.collaborators), DerefAll(st, d.tags),
      |Filter(st.docs, ArtworkOfProject(d.id))|, None)
  }

  /** The exhibition projection. */
  function ExhibitionView(st: Store, d: Doc): (v: ExhibitionExpanded)
    ensures v.doc == d
    ensures v.curators == DerefAll(st, d.curators) && v.location == DerefField(st, d.location)
    ensures v.artworks == DerefAll(st, d.artworks) && v.featuredProjects == DerefAll(st, d.featuredProjects)
  {
    ExhibitionExpanded(d, DerefAll(st, d.curators), DerefField(st, d.location),
      DerefAll(st, d.artworks), DerefAll(st, d.featuredProjects))
  }

  /** The person and artist projections (list view: no reverse joins). */
  function ProfileView(st: Store, d: Doc): (v: PersonExpanded)
    ensures v.doc == d && v.artworks == None && v.projects == None && v.exhibitionDocs == None
    ensures v.roles == DerefAll(st, d.roles)
  {
    PersonExpanded(d, DerefAll(st, d.roles), None, None, None)
  }

  function ArtworkDocs(vs: seq<ArtworkExpanded>): (r: seq<Doc>)
    ensures |r| == |vs| && forall i :: 0 <= i < |vs| ==> r[i] == vs[i].doc
  {
    seq(|vs|, i requires 0 <= i < |vs| => vs[i].doc)
  }

  function ProjectDocs(vs: seq<ProjectExpanded>): (r: seq<Doc>)
    ensures |r| == |vs| && forall i :: 0 <= i < |vs| ==> r[i] == vs[i].doc
  {
    seq(|vs|, i requires 0 <= i < |vs| => vs[i].doc)
  }

  function ExhibitionDocs(vs: seq<ExhibitionExpanded>): (r: seq<Doc>)
    ensures |r| == |vs| && forall i :: 0 <= i < |vs| ==> r[i] == vs[i].doc
  {
    seq(|vs|, i requires 0 <= i < |vs| => vs[i].doc)
  }

  function PersonDocs(vs: seq<PersonExpanded>): (r: seq<Doc>)
    ensures |r| == |vs| && forall i :: 0 <= i < |vs| ==> r[i] == vs[i].doc
  {
    seq(|vs|, i requires 0 <= i < |vs| => vs[i].doc)
  }

  function AwardDocs(vs: seq<AwardExpanded>): (r: seq<Doc>)
    ensures |r| == |vs| && forall i :: 0 <= i < |vs| ==> r[i] == vs[i].doc
  {
    seq(|vs|, i requires 0 <= i < |vs| => vs[i].doc)
  }

  function LocationDocs(vs: seq<LocationExpanded>): (r: seq<Doc>)
    ensures |r| == |vs| && forall i :: 0 <= i < |vs| ==> r[i] == vs[i].doc
  {
    seq(|vs|, i requires 0 <= i < |vs| => vs[i].doc)
  }

  function CategoryDocs(vs: seq<CategoryExpanded>): (r: seq<Doc>)
    ensures |r| == |vs| && forall i :: 0 <= i < |vs| ==> r[i] == vs[i].doc
  {
    seq(|vs|, i requires 0 <= i < |vs| => vs[i].doc)
  }

  /** Every entry of `r` is the artwork projection of its own document. */
  ghost predicate ArtworksProjected(st: Store, r: seq<ArtworkExpanded>) {
    forall i :: 0 <= i < |r| ==> r[i] == ArtworkView(st, r[i].doc)
  }

  /** Every entry of `r` is the project projection of its own document. */
  ghost predicate ProjectsProjected(st: Store, r: seq<ProjectExpanded>) {
    forall i :: 0 <= i < |r| ==> r[i] == ProjectView(st, r[i].doc)
  }

  /** Every entry of `r` is the exhibition projection of its own document. */
  ghost predicate ExhibitionsProjected(st: Store, r: seq<ExhibitionExpanded>) {
    forall i :: 0 <= i < |r| ==> r[i] == ExhibitionView(st, r[i].doc)
  }

  /** Every entry of `r` is the person (or artist) list projection of its own document. */
  ghost predicate ProfilesProjected(st: Store, r: seq<PersonExpanded>) {
    forall i :: 0 <= i < |r| ==> r[i] == ProfileView(st, r[i].doc)
  }

  /** Every entry of `r` has its location type expanded and no exhibitions joined. */
  ghost predicate LocationsProjected(st: Store, r: seq<LocationExpanded>) {
    forall i :: 0 <= i < |r| ==> r[i].locationType == DerefField(st, r[i].doc.locationType) && r[i].exhibitions == None
  }

  function ArtworkViews(st: Store, s: seq<Doc>): (r: seq<ArtworkExpanded>)
    ensures ArtworkDocs(r) == s
    ensures forall i :: 0 <= i < |r| ==> r[i] == ArtworkView(st, s[i])
    ensures ArtworksProjected(st, r)
  {
    seq(|s|, i requires 0 <= i < |s| => ArtworkView(st, s[i]))
  }

  function ProjectViews(st: Store, s: seq<Doc>): (r: seq<ProjectExpanded>)
    ensures ProjectDocs(r) == s
    ensures forall i :: 0 <= i < |r| ==> r[i] == ProjectView(st, s[i])
    ensures ProjectsProjected(st, r)
  {
    seq(|s|, i requires 0 <= i < |s| => ProjectView(st, s[i]))
  }

  function ExhibitionViews(st: Store, s: seq<Doc>): (r: seq<ExhibitionExpanded>)
    ensures ExhibitionDocs(r) == s
    ensures forall i :: 0 <= i < |r| ==> r[i] == ExhibitionView(st, s[i])
    ensures ExhibitionsProjected(st, r)
  {
    seq(|s|, i requires 0 <= i < |s| => ExhibitionView(st, s[i]))
  }

  function ProfileViews(st: Store, s: seq<Doc>): (r: seq<PersonExpanded>)
    ensures PersonDocs(r) == s
    ensures forall i :: 0 <= i < |r| ==> r[i].artworks == None && r[i].projects == None && r[i].exhibitionDocs == None
    ensures forall i :: 0 <= i < |r| ==> r[i] == ProfileView(st, s[i])
    ensures ProfilesProjected(st, r)
  {
    seq(|s|, i requires 0 <= i < |s| => ProfileView(st, s[i]))
  }

  /** The award projection: with `expand`, recipients and the artwork are expanded (getAllAwards); otherwise neither is projected. */
  function AwardViews(st: Store, s: seq<Doc>, expand: bool): (r: seq<AwardExpanded>)
    ensures AwardDocs(r) == s
    ensures expand ==> forall i :: 0 <= i < |r| ==> r[i].recipients == Some(DerefAll(st, s[i].recipients))
    ensures expand ==> forall i :: 0 <= i < |r| ==> r[i].artwork == Some(DerefField(st, s[i].artwork))
    ensures !expand ==> forall i :: 0 <= i < |r| ==> r[i].recipients == None && r[i].artwork == None
  {
    seq(|s|, i requires 0 <= i < |s| =>
      if expand then AwardExpanded(s[i], Some(DerefAll(st, s[i].recipients)), Some(DerefField(st, s[i].artwork)))
      else AwardExpanded(s[i], None, None))
  }

  /** The location list projection. */
  function LocationViews(st: Store, s: seq<Doc>): (r: seq<LocationExpanded>)
    ensures LocationDocs(r) == s
    ensures forall i :: 0 <= i < |r| ==> r[i].locationType == DerefField(st, s[i].locationType) && r[i].exhibitions == None
    ensures LocationsProjected(st, r)
  {
    seq(|s|, i requires 0 <= i < |s| => LocationExpanded(s[i], DerefField(st, s[i].locationType), None))
  }

  /** The category list projection: parent expanded, no children. */
  function CategoryViews(st: Store, s: seq<Doc>): (r: seq<CategoryExpanded>)
    ensures CategoryDocs(r) == s
    ensures forall i :: 0 <= i < |r| ==> r[i].parent == DerefField(st, s[i].parent) && r[i].children == None
  {
    seq(|s|, i requires 0 <= i < |s| => CategoryExpanded(s[i], DerefField(st, s[i].parent), None))
  }

  /** The root category projection: each root with its direct children by title. */
  function RootCategoryViews(st: Store, s: seq<Doc>): (r: seq<CategoryExpanded>)
    ensures CategoryDocs(r) == s
    ensures forall i :: 0 <= i < |r| ==> r[i].children == Some(Select(st, ChildCategoryOf(s[i].id), TitleAsc))
    ensures forall i :: 0 <= i < |r| ==> r[i].parent == None
  {
    seq(|s|, i requires 0 <= i < |s| => CategoryExpanded(s[i], None, Some(Select(st, ChildCategoryOf(s[i].id), TitleAsc))))
  }

  // ---------------------------------------------------------------------------
  // Artist queries (the retired generation: `_type == "artist"`)
  // ---------------------------------------------------------------------------

  /**
   * getAllArtists. What it lists is stated on the documents behind the views
   * (ListsExactly, SortedBy); the views themselves are list views, with roles
   * expanded and no reverse joins.
   */
  function GetAllArtists(st: Store): (r: seq<ArtistExpanded>)
    ensures ListsExactly(PersonDocs(r), st.docs, OfType("artist"))
    ensures SortedBy(PersonDocs(r), LastNameAsc, st.absent)
    ensures forall i :: 0 <= i < |r| ==> r[i].artworks == None
    ensures ProfilesProjected(st, r)
  {
    ProfileViews(st, Select(st, OfType("artist"), LastNameAsc))
  }

  /** getArtistBySlug: the artist with its reverse-referenced artworks, projects and exhibitions. */
  function GetArtistBySlug(st: Store, slug: string): (r: Option<ArtistExpanded>)
    ensures r.Some? <==> AnyWhere(st.docs, WithSlug("artist", slug))
    ensures r.Some? ==> EarliestWhere(st.docs, r.value.doc, WithSlug("artist", slug))
    ensures r.Some? ==> var a := r.value;
      && a.artworks.Some? && a.projects.Some? && a.exhibitionDocs.Some?
      && ListsExactly(ArtworkDocs(a.artworks.value), st.docs, ReferencingOfType("artwork", a.doc.id))
      && SortedBy(ArtworkDocs(a.artworks.value), YearDesc, st.absent)
      && ListsExactly(ProjectDocs(a.projects.value), st.docs, ReferencingOfType("project", a.doc.id))
      && SortedBy(ProjectDocs(a.projects.value), StartDateDesc, st.absent)
      && ListsExactly(ExhibitionDocs(a.exhibitionDocs.value), st.docs, ReferencingOfType("exhibition", a.doc.id))
      && SortedBy(ExhibitionDocs(a.exhibitionDocs.value), StartDateDesc, st.absent)
    ensures r.Some? ==> r.value.roles == DerefAll(st, r.value.doc.roles)
    ensures r.Some? ==> (
      && ArtworksProjected(st, r.value.artworks.value)
      && ProjectsProjected(st, r.value.projects.value)
      && ExhibitionsProjected(st, r.value.exhibitionDocs.value))
  {
    var found := SelectFirst(st, WithSlug("artist", slug));
    if found.None? then None
    else
      var d := found.value;
      Some(PersonExpanded(d, DerefAll(st, d.roles),
        Some(ArtworkViews(st, Select(st, ReferencingOfType("artwork", d.id), YearDesc))),
        Some(ProjectViews(st, Select(st, ReferencingOfType("project", d.id), StartDateDesc))),
        Some(ExhibitionViews(st, Select(st, ReferencingOfType("exhibition", d.id), StartDateDesc)))))
  }

  // ---------------------------------------------------------------------------
  // Person queries
  // ---------------------------------------------------------------------------

  /** getAllPeople: as getAllArtists, over `"person"` documents. */
  function GetAllPeople(st: Store): (r: seq<PersonExpanded>)
    ensures ListsExactly(PersonDocs(r), st.docs, OfType("person"))
    ensures SortedBy(PersonDocs(r), LastNameAsc, st.absent)
    ensures forall i :: 0 <= i < |r| ==> r[i].artworks == None
    ensures ProfilesProjected(st, r)
  {
    ProfileViews(st, Select(st, OfType("person"), LastNameAsc))
  }

  /** getPersonBySlug: the person only; this query joins no reverse references. */
  function GetPersonBySlug(st: Store, slug: string): (r: Option<PersonExpanded>)
    ensures r.Some? <==> AnyWhere(st.docs, WithSlug("person", slug))
    ensures r.Some? ==> EarliestWhere(st.docs, r.value.doc, WithSlug("person", slug))
    ensures r.Some? ==> r.value.artworks == None && r.value.projects == None && r.value.exhibitionDocs == None
    ensures r.Some? ==> r.value == ProfileView(st, r.value.doc)
  {
    var found := SelectFirst(st, WithSlug("person", slug));
    if found.None? then None else Some(ProfileView(st, found.value))
  }

  // ---------------------------------------------------------------------------
  // Artwork queries
  // ---------------------------------------------------------------------------

  /** The optional `{ limit, offset }` argument of getAllArtworks. */
  datatype PageParams = PageParams(limit: Option<nat>, offset: Option<nat>)

  /** `limit = 100` when not given. */
  function PageLimit(params: Option<PageParams>): nat {
    if params.Some? && params.value.limit.Some? then params.value.limit.value else 100
  }

  /** `offset = 0` when not given. */
  function PageOffset(params: Option<PageParams>): nat {
    if params.Some? && params.value.offset.Some? then params.value.offset.value else 0
  }

  /** Every artwork, by year descending then rank ascending: the listing getAllArtworks pages through. */
  function ArtworksInListOrder(st: Store): (r: seq<Doc>)
    ensures ListsExactly(r, st.docs, OfType("artwork"))
    ensures SortedBy(r, YearDescRankAsc, st.absent)
  {
    Select(st, OfType("artwork"), YearDescRankAsc)
  }

  /** The artwork documents getAllArtworks returns: positions `[offset, offset + limit)` of the listing. */
  function ArtworkPage(st: Store, params: Option<PageParams>): (r: seq<Doc>)
    ensures |r| <= PageLimit(params)
    ensures |r| == if PageOffset(params) <= |ArtworksInListOrder(st)|
      then Min(PageOffset(params) + PageLimit(params), |ArtworksInListOrder(st)|) - PageOffset(params) else 0
    ensures forall i :: 0 <= i < |r| ==> r[i] == ArtworksInListOrder(st)[PageOffset(params) + i]
    ensures Within(r, st.docs, OfType("artwork"))
    ensures SortedBy(r, YearDescRankAsc, st.absent)
  {
    var limit, offset := PageLimit(params), PageOffset(params);
    SelectRange(st, OfType("artwork"), YearDescRankAsc, offset, offset + limit)
  }

  /** getAllArtworks: one page of the artwork listing, expanded. */
  function GetAllArtworks(st: Store, params: Option<PageParams>): (r: seq<ArtworkExpanded>)
    ensures ArtworkDocs(r) == ArtworkPage(st, params)
    ensures ArtworksProjected(st, r)
  {
    ArtworkViews(st, ArtworkPage(st, params))
  }

  /** getFeaturedArtworks (limit 6 when not given). */
  function GetFeaturedArtworks(st: Store, limit: Option<nat>): (r: seq<ArtworkExpanded>)
    ensures CappedListing(ArtworkDocs(r), st, FeaturedOfType("artwork"), RankAsc, if limit.Some? then limit.value else 6)
    ensures ArtworksProjected(st, r)
  {
    var n := if limit.Some? then limit.value else 6;
    SelectRangeIsCapped(st, FeaturedOfType("artwork"), RankAsc, n);
    ArtworkViews(st, SelectRange(st, FeaturedOfType("artwork"), RankAsc, 0, n))
  }

  /** getArtworkBySlug */
  function GetArtworkBySlug(st: Store, slug: string): (r: Option<ArtworkExpanded>)
    ensures r.Some? <==> AnyWhere(st.docs, WithSlug("artwork", slug))
    ensures r.Some? ==> EarliestWhere(st.docs, r.value.doc, WithSlug("artwork", slug))
    ensures r.Some? ==> r.value == ArtworkView(st, r.value.doc)
  {
    var found := SelectFirst(st, WithSlug("artwork", slug));
    if found.None? then None else Some(ArtworkView(st, found.value))
  }

  /** Artworks that reference some artist-typed document with the given slug. */
  ghost predicate ReferencesArtistWithSlug(st: Store, d: Doc, slug: string) {
    exists a :: a in st.docs && a.docType == "artist" && a.slug == Some(slug) && References(d, a.id)
  }

  /** The artworks getArtworksByArtist is specified to return. */
  ghost function ArtworkOfArtist(st: Store, slug: string): Doc -> bool {
    (d: Doc) => d.docType == "artwork" && ReferencesArtistWithSlug(st, d, slug)
  }

  /** getArtworksByArtist: artworks referencing any `"artist"` document with that slug, newest first. */
  function GetArtworksByArtist(st: Store, artistSlug: string): (r: seq<ArtworkExpanded>)
    ensures ListsExactly(ArtworkDocs(r), st.docs, ArtworkOfArtist(st, artistSlug))
    ensures SortedBy(ArtworkDocs(r), YearDesc, st.absent)
    ensures ArtworksProjected(st, r)
  {
    var ids := IdsWhere(st, WithSlug("artist", artistSlug));
    var p := (d: Doc) => d.docType == "artwork" && ReferencesAny(d, ids);
    assert forall d :: d in st.docs ==> p(d) == ArtworkOfArtist(st, artistSlug)(d) by {
      forall d ensures ReferencesAny(d, ids) <==> ReferencesArtistWithSlug(st, d, artistSlug) {
        ReferencesAnySelected(st, WithSlug("artist", artistSlug), d);
      }
    }
    MatchingCongruent(st.docs, p, ArtworkOfArtist(st, artistSlug));
    ArtworkViews(st, Select(st, p, YearDesc))
  }

  /** Artworks whose project reference leads to a document with the given slug. */
  ghost predicate InProjectWithSlug(st: Store, d: Doc, slug: string) {
    d.project.Some? && Deref(st, d.project.value).Some? && Deref(st, d.project.value).value.slug == Some(slug)
  }

  /** The artworks getArtworksByProject is specified to return. */
  ghost function ArtworkOfProjectWithSlug(st: Store, slug: string): Doc -> bool {
    (d: Doc) => d.docType == "artwork" && InProjectWithSlug(st, d, slug)
  }

  /** getArtworksByProject: by rank ascending, then year descending. */
  function GetArtworksByProject(st: Store, projectSlug: string): (r: seq<ArtworkExpanded>)
    ensures ListsExactly(ArtworkDocs(r), st.docs, ArtworkOfProjectWithSlug(st, projectSlug))
    ensures SortedBy(ArtworkDocs(r), RankAscYearDesc, st.absent)
    ensures ArtworksProjected(st, r)
  {
    var p := ArtworkInProjectWithSlug(st, projectSlug);
    assert forall d :: d in st.docs ==> p(d) == ArtworkOfProjectWithSlug(st, projectSlug)(d);
    MatchingCongruent(st.docs, p, ArtworkOfProjectWithSlug(st, projectSlug));
    ArtworkViews(st, Select(st, p, RankAscYearDesc))
  }

  /** The artworks getArtworksByTechnique is specified to return. */
  ghost function ArtworkWhoseTechniqueHasSlug(st: Store, slug: string): Doc -> bool {
    (d: Doc) => d.docType == "artwork" && SomeTargetHasSlug(st, d.techniques, slug)
  }

  /** getArtworksByTechnique: the artworks one of whose techniques has that slug, newest first. */
  function GetArtworksByTechnique(st: Store, techniqueSlug: string): (r: seq<ArtworkExpanded>)
    ensures ListsExactly(ArtworkDocs(r), st.docs, ArtworkWhoseTechniqueHasSlug(st, techniqueSlug))
    ensures SortedBy(ArtworkDocs(r), YearDesc, st.absent)
    ensures ArtworksProjected(st, r)
  {
    var p := ArtworkWithTechnique(st, techniqueSlug);
    assert forall d :: d in st.docs ==> p(d) == ArtworkWhoseTechniqueHasSlug(st, techniqueSlug)(d) by {
      forall d ensures p(d) == ArtworkWhoseTechniqueHasSlug(st, techniqueSlug)(d) {
        TargetSlugsContain(st, d.techniques, techniqueSlug);
      }
    }
    MatchingCongruent(st.docs, p, ArtworkWhoseTechniqueHasSlug(st, techniqueSlug));
    ArtworkViews(st, Select(st, p, YearDesc))
  }

  /** The artworks getArtworksByTag is specified to return. */
  ghost function ArtworkWhoseTagHasSlug(st: Store, slug: string): Doc -> bool {
    (d: Doc) => d.docType == "artwork" && SomeTargetHasSlug(st, d.tags, slug)
  }

  /** getArtworksByTag: the artworks one of whose tags has that slug, newest first. */
  function GetArtworksByTag(st: Store, tagSlug: string): (r: seq<ArtworkExpanded>)
    ensures ListsExactly(ArtworkDocs(r), st.docs, ArtworkWhoseTagHasSlug(st, tagSlug))
    ensures SortedBy(ArtworkDocs(r), YearDesc, st.absent)
    ensures ArtworksProjected(st, r)
  {
    var p := ArtworkWithTag(st, tagSlug);
    assert forall d :: d in st.docs ==> p(d) == ArtworkWhoseTagHasSlug(st, tagSlug)(d) by {
      forall d ensures p(d) == ArtworkWhoseTagHasSlug(st, tagSlug)(d) {
        TargetSlugsContain(st, d.tags, tagSlug);
      }
    }
    MatchingCongruent(st.docs, p, ArtworkWhoseTagHasSlug(st, tagSlug));
    ArtworkViews(st, Select(st, p, YearDesc))
  }

  // ---------------------------------------------------------------------------
  // Project queries
  // ---------------------------------------------------------------------------

  /** getAllProjects */
  function GetAllProjects(st: Store): (r: seq<ProjectExpanded>)
    ensures ListsExactly(ProjectDocs(r), st.docs, OfType("project"))
    ensures SortedBy(ProjectDocs(r), StartDateDesc, st.absent)
    ensures ProjectsProjected(st, r)
  {
    ProjectViews(st, Select(st, OfType("project"), StartDateDesc))
  }

  /** getFeaturedProjects (limit 3 when not given). */
  function GetFeaturedProjects(st: Store, limit: Option<nat>): (r: seq<ProjectExpanded>)
    ensures CappedListing(ProjectDocs(r), st, FeaturedOfType("project"), RankAsc, if limit.Some? then limit.value else 3)
    ensures ProjectsProjected(st, r)
  {
    var n := if limit.Some? then limit.value else 3;
    SelectRangeIsCapped(st, FeaturedOfType("project"), RankAsc, n);
    ProjectViews(st, SelectRange(st, FeaturedOfType("project"), RankAsc, 0, n))
  }

  /** getProjectBySlug: the project with exactly the artworks that point at it. */
  function GetProjectBySlug(st: Store, slug: string): (r: Option<ProjectExpanded>)
    ensures r.Some? <==> AnyWhere(st.docs, WithSlug("project", slug))
    ensures r.Some? ==> EarliestWhere(st.docs, r.value.doc, WithSlug("project", slug))
    ensures r.Some? ==> var p := r.value;
      && p.artworks.Some?
      && ListsExactly(ArtworkDocs(p.artworks.value), st.docs, ArtworkOfProject(p.doc.id))
      && SortedBy(ArtworkDocs(p.artworks.value), RankAscYearDesc, st.absent)
      && |p.artworks.value| == p.artworkCount
    ensures r.Some? ==> r.value.(artworks := None) == ProjectView(st, r.value.doc) && ArtworksProjected(st, r.value.artworks.value)
  {
    var found := SelectFirst(st, WithSlug("project", slug));
    if found.None? then None
    else
      var d := found.value;
      var artworks := Select(st, ArtworkOfProject(d.id), RankAscYearDesc);
      FilterCount(st.docs, ArtworkOfProject(d.id));
      Some(ProjectView(st, d).(artworks := Some(ArtworkViews(st, artworks))))
  }

  /** `_type == "project" && status == $status` */
  function ProjectWithStatus(s: string): Doc -> bool {
    (d: Doc) => d.docType == "project" && d.status == Some(s)
  }

  /** getProjectsByStatus */
  function GetProjectsByStatus(st: Store, status: SanityTypes.ProjectStatus): (r: seq<ProjectExpanded>)
    ensures ListsExactly(ProjectDocs(r), st.docs, ProjectWithStatus(SanityTypes.ProjectStatusValue(status)))
    ensures SortedBy(ProjectDocs(r), StartDateDesc, st.absent)
    ensures ProjectsProjected(st, r)
  {
    ProjectViews(st, Select(st, ProjectWithStatus(SanityTypes.ProjectStatusValue(status)), StartDateDesc))
  }

  // ---------------------------------------------------------------------------
  // Exhibition queries
  // ---------------------------------------------------------------------------

  /** `_type == "exhibition" && status == s` */
  function ExhibitionWithStatus(s: string): Doc -> bool {
    (d: Doc) => d.docType == "exhibition" && d.status == Some(s)
  }

  /** getAllExhibitions */
  function GetAllExhibitions(st: Store): (r: seq<ExhibitionExpanded>)
    ensures ListsExactly(ExhibitionDocs(r), st.docs, OfType("exhibition"))
    ensures SortedBy(ExhibitionDocs(r), StartDateDesc, st.absent)
    ensures ExhibitionsProjected(st, r)
  {
    ExhibitionViews(st, Select(st, OfType("exhibition"), StartDateDesc))
  }

  /** getUpcomingExhibitions: soonest first (the one ascending exhibition list). */
  function GetUpcomingExhibitions(st: Store): (r: seq<ExhibitionExpanded>)
    ensures ListsExactly(ExhibitionDocs(r), st.docs, ExhibitionWithStatus("upcoming"))
    ensures SortedBy(ExhibitionDocs(r), StartDateAsc, st.absent)
    ensures ExhibitionsProjected(st, r)
  {
    ExhibitionViews(st, Select(st, ExhibitionWithStatus("upcoming"), StartDateAsc))
  }

  /** getCurrentExhibitions */
  function GetCurrentExhibitions(st: Store): (r: seq<ExhibitionExpanded>)
    ensures ListsExactly(ExhibitionDocs(r), st.docs, ExhibitionWithStatus("current"))
    ensures SortedBy(ExhibitionDocs(r), StartDateDesc, st.absent)
    ensures ExhibitionsProjected(st, r)
  {
    ExhibitionViews(st, Select(st, ExhibitionWithStatus("current"), StartDateDesc))
  }

  /** getPastExhibitions (limit 20 when not given). */
  function GetPastExhibitions(st: Store, limit: Option<nat>): (r: seq<ExhibitionExpanded>)
    ensures CappedListing(ExhibitionDocs(r), st, ExhibitionWithStatus("past"), StartDateDesc, if limit.Some? then limit.value else 20)
    ensures ExhibitionsProjected(st, r)
  {
    var n := if limit.Some? then limit.value else 20;
    SelectRangeIsCapped(st, ExhibitionWithStatus("past"), StartDateDesc, n);
    ExhibitionViews(st, SelectRange(st, ExhibitionWithStatus("past"), StartDateDesc, 0, n))
  }

  /** getExhibitionBySlug */
  function GetExhibitionBySlug(st: Store, slug: string): (r: Option<ExhibitionExpanded>)
    ensures r.Some? <==> AnyWhere(st.docs, WithSlug("exhibition", slug))
    ensures r.Some? ==> EarliestWhere(st.docs, r.value.doc, WithSlug("exhibition", slug))
    ensures r.Some? ==> r.value == ExhibitionView(st, r.value.doc)
  {
    var found := SelectFirst(st, WithSlug("exhibition", slug));
    if found.None? then None else Some(ExhibitionView(st, found.value))
  }

  // ---------------------------------------------------------------------------
  // Award queries
  // ---------------------------------------------------------------------------

  /** getAllAwards: newest first, recipients expanded. */
  function GetAllAwards(st: Store): (r: seq<AwardExpanded>)
    ensures ListsExactly(AwardDocs(r), st.docs, OfType("award"))
    ensures SortedBy(AwardDocs(r), YearDesc, st.absent)
    ensures forall i :: 0 <= i < |r| ==> r[i].recipients == Some(DerefAll(st, r[i].doc.recipients))
    ensures forall i :: 0 <= i < |r| ==> r[i].artwork == Some(DerefField(st, r[i].doc.artwork))
  {
    AwardViews(st, Select(st, OfType("award"), YearDesc), true)
  }

  /** A profile is an `"artist"` or a `"person"` document with the slug. */
  function ProfileWithSlug(slug: string): Doc -> bool {
    (d: Doc) => (d.docType == "artist" || d.docType == "person") && d.slug == Some(slug)
  }

  /** Awards that reference some artist or person document with the given slug. */
  ghost predicate ReferencesProfileWithSlug(st: Store, d: Doc, slug: string) {
    exists a :: a in st.docs && ProfileWithSlug(slug)(a) && References(d, a.id)
  }

  /** The awards getAwardsByProfile is specified to return. */
  ghost function AwardOfProfile(st: Store, slug: string): Doc -> bool {
    (d: Doc) => d.docType == "award" && ReferencesProfileWithSlug(st, d, slug)
  }

  /** getAwardsByProfile: awards referencing an artist or a person with that slug; recipients are not projected. */
  function GetAwardsByProfile(st: Store, slug: string): (r: seq<AwardExpanded>)
    ensures ListsExactly(AwardDocs(r), st.docs, AwardOfProfile(st, slug))
    ensures SortedBy(AwardDocs(r), YearDesc, st.absent)
    ensures forall i :: 0 <= i < |r| ==> r[i].recipients == None && r[i].artwork == None
  {
    var ids := IdsWhere(st, ProfileWithSlug(slug));
    var p := (d: Doc) => d.docType == "award" && ReferencesAny(d, ids);
    assert forall d :: d in st.docs ==> p(d) == AwardOfProfile(st, slug)(d) by {
      forall d ensures ReferencesAny(d, ids) <==> ReferencesProfileWithSlug(st, d, slug) {
        ReferencesAnySelected(st, ProfileWithSlug(slug), d);
      }
    }
    MatchingCongruent(st.docs, p, AwardOfProfile(st, slug));
    AwardViews(st, Select(st, p, YearDesc), false)
  }

  // ---------------------------------------------------------------------------
  // Location queries
  // ---------------------------------------------------------------------------

  /** getAllLocations: by name ascending. */
  function GetAllLocations(st: Store): (r: seq<LocationExpanded>)
    ensures ListsExactly(LocationDocs(r), st.docs, OfType("location"))
    ensures SortedBy(LocationDocs(r), NameAsc, st.absent)
    ensures forall i :: 0 <= i < |r| ==> r[i].exhibitions == None
    ensures LocationsProjected(st, r)
  {
    LocationViews(st, Select(st, OfType("location"), NameAsc))
  }

  /** `_type == "exhibition" && location._ref == ^._id` */
  function ExhibitionAt(locationId: string): Doc -> bool {
    (d: Doc) => d.docType == "exhibition" && d.location == Some(locationId)
  }

  /** getLocationBySlug: the location with the exhibitions held there, latest first. */
  function GetLocationBySlug(st: Store, slug: string): (r: Option<LocationExpanded>)
    ensures r.Some? <==> AnyWhere(st.docs, WithSlug("location", slug))
    ensures r.Some? ==> EarliestWhere(st.docs, r.value.doc, WithSlug("location", slug))
    ensures r.Some? ==> (
      && r.value.exhibitions.Some?
      && ListsExactly(r.value.exhibitions.value, st.docs, ExhibitionAt(r.value.doc.id))
      && SortedBy(r.value.exhibitions.value, StartDateDesc, st.absent))
    ensures r.Some? ==> r.value.locationType == DerefField(st, r.value.doc.locationType)
  {
    var found := SelectFirst(st, WithSlug("location", slug));
    if found.None? then None
    else
      var d := found.value;
      Some(LocationExpanded(d, DerefField(st, d.locationType), Some(Select(st, ExhibitionAt(d.id), StartDateDesc))))
  }

  // ---------------------------------------------------------------------------
  // Taxonomy queries
  // ---------------------------------------------------------------------------

  /** getAllRoles: by rank, then title. */
  function GetAllRoles(st: Store): (r: seq<Doc>)
    ensures ListsExactly(r, st.docs, OfType("role"))
    ensures SortedBy(r, RankAscTitleAsc, st.absent)
  {
    Select(st, OfType("role"), RankAscTitleAsc)
  }

  /** getAllMediums: by rank, then title. */
  function GetAllMediums(st: Store): (r: seq<Doc>)
    ensures ListsExactly(r, st.docs, OfType("medium"))
    ensures SortedBy(r, RankAscTitleAsc, st.absent)
  {
    Select(st, OfType("medium"), RankAscTitleAsc)
  }

  /** getAllTechniques: by rank, then title. */
  function GetAllTechniques(st: Store): (r: seq<Doc>)
    ensures ListsExactly(r, st.docs, OfType("technique"))
    ensures SortedBy(r, RankAscTitleAsc, st.absent)
  {
    Select(st, OfType("technique"), RankAscTitleAsc)
  }

  /** getAllTags: by title only. */
  function GetAllTags(st: Store): (r: seq<Doc>)
    ensures ListsExactly(r, st.docs, OfType("tag"))
    ensures SortedBy(r, TitleAsc, st.absent)
  {
    Select(st, OfType("tag"), TitleAsc)
  }

  /** getAllCategories: by title, parent expanded. */
  function GetAllCategories(st: Store): (r: seq<CategoryExpanded>)
    ensures ListsExactly(CategoryDocs(r), st.docs, OfType("category"))
    ensures SortedBy(CategoryDocs(r), TitleAsc, st.absent)
    ensures forall i :: 0 <= i < |r| ==> r[i].parent == DerefField(st, r[i].doc.parent) && r[i].children == None
  {
    CategoryViews(st, Select(st, OfType("category"), TitleAsc))
  }

  /** `_type == "category" && !defined(parent)` */
  function RootCategory(): Doc -> bool {
    (d: Doc) => d.docType == "category" && d.parent.None?
  }

  /** `_type == "category" && parent._ref == ^._id` */
  function ChildCategoryOf(id: string): Doc -> bool {
    (d: Doc) => d.docType == "category" && d.parent == Some(id)
  }

  /** getRootCategories: the categories without a parent, each with its direct children by title. */
  function GetRootCategories(st: Store): (r: seq<CategoryExpanded>)
    ensures ListsExactly(CategoryDocs(r), st.docs, RootCategory())
    ensures SortedBy(CategoryDocs(r), TitleAsc, st.absent)
    ensures forall i :: 0 <= i < |r| ==> (
      && r[i].children.Some?
      && ListsExactly(r[i].children.value, st.docs, ChildCategoryOf(r[i].doc.id))
      && SortedBy(r[i].children.value, TitleAsc, st.absent))
    ensures forall i :: 0 <= i < |r| ==> r[i].parent == None
  {
    RootCategoryViews(st, Select(st, RootCategory(), TitleAsc))
  }

  // ---------------------------------------------------------------------------
  // Site settings
  // ---------------------------------------------------------------------------

  /** getSiteSettings: the first settings document in store order (the query has no ordering). */
  function GetSiteSettings(st: Store): (r: Option<Doc>)
    ensures r.Some? <==> AnyWhere(st.docs, OfType("siteSettings"))
    ensures r.Some? ==> EarliestWhere(st.docs, r.value, OfType("siteSettings"))
  {
    SelectFirst(st, OfType("siteSettings"))
  }

  // ---------------------------------------------------------------------------
  // Search
  // ---------------------------------------------------------------------------

  /** `value match pattern`, as the store evaluates it (tokenisation is the store's). */
  type Matcher = (string, string) -> bool

  /** `field match pattern` for a field that may be absent: an absent field never matches. */
  predicate FieldMatches(m: Matcher, field: Option<string>, pattern: string) {
    field.Some? && m(field.value, pattern)
  }

  /** The search term is bound as `*term*`. */
  function SearchPattern(term: string): string {
    "*" + term + "*"
  }

  /** `title match $searchTerm || pt::text(description) match $searchTerm` */
  function TitleOrDescriptionMatches(m: Matcher, t: string, pattern: string): Doc -> bool {
    (d: Doc) => d.docType == t && (FieldMatches(m, d.title, pattern) || FieldMatches(m, d.descriptionText, pattern))
  }

  /** `firstName match ... || lastName match ... || pt::text(biography) match ...` */
  function NameOrBiographyMatches(m: Matcher, t: string, pattern: string): Doc -> bool {
    (d: Doc) => d.docType == t && (FieldMatches(m, d.firstName, pattern) || FieldMatches(m, d.lastName, pattern)
      || FieldMatches(m, d.biographyText, pattern))
  }

  datatype SearchResults = SearchResults(
    artworks: seq<ArtworkExpanded>,
    projects: seq<ProjectExpanded>,
    artists: seq<ArtistExpanded>,
    people: seq<PersonExpanded>)

  /**
   * searchContent: four independent capped queries whose results are combined
   * in a fixed order; each list holds at most 10 matching documents of its type.
   */
  function SearchContent(st: Store, m: Matcher, searchTerm: string): (r: SearchResults)
    ensures CappedListing(ArtworkDocs(r.artworks), st, TitleOrDescriptionMatches(m, "artwork", "*" + searchTerm + "*"), YearDesc, 10)
    ensures CappedListing(ProjectDocs(r.projects), st, TitleOrDescriptionMatches(m, "project", "*" + searchTerm + "*"), StartDateDesc, 10)
    ensures CappedListing(PersonDocs(r.artists), st, NameOrBiographyMatches(m, "artist", "*" + searchTerm + "*"), LastNameAsc, 10)
    ensures CappedListing(PersonDocs(r.people), st, NameOrBiographyMatches(m, "person", "*" + searchTerm + "*"), LastNameAsc, 10)
    ensures ArtworksProjected(st, r.artworks) && ProjectsProjected(st, r.projects)
    ensures ProfilesProjected(st, r.artists) && ProfilesProjected(st, r.people)
  {
    var pattern := SearchPattern(searchTerm);
    var artworks := ArtworkViews(st, SelectRange(st, TitleOrDescriptionMatches(m, "artwork", pattern), YearDesc, 0, 10));
    var projects := ProjectViews(st, SelectRange(st, TitleOrDescriptionMatches(m, "project", pattern), StartDateDesc, 0, 10));
    var artists := ProfileViews(st, SelectRange(st, NameOrBiographyMatches(m, "artist", pattern), LastNameAsc, 0, 10));
    var people := ProfileViews(st, SelectRange(st, NameOrBiographyMatches(m, "person", pattern), LastNameAsc, 0, 10));
    SelectRangeIsCapped(st, TitleOrDescriptionMatches(m, "artwork", pattern), YearDesc, 10);
    SelectRangeIsCapped(st, TitleOrDescriptionMatches(m, "project", pattern), StartDateDesc, 10);
    SelectRangeIsCapped(st, NameOrBiographyMatches(m, "artist", pattern), LastNameAsc, 10);
    SelectRangeIsCapped(st, NameOrBiographyMatches(m, "person", pattern), LastNameAsc, 10);
    SearchResults(artworks, projects, artists, people)
  }
}
