/**
 * Properties that relate several queries of the content layer to each other.
 */
module QueryLaws {
  import opened Wrappers
  import opened Groq
  import opened SanityQueries

  // ---------------------------------------------------------------------------
  // Pagination
  // ---------------------------------------------------------------------------

  /** The query parameters selecting `limit` artworks from `offset`. */
  function PageAt(offset: nat, limit: nat): Option<PageParams> {
    Some(PageParams(Some(limit), Some(offset)))
  }

  /** Adjacent windows of one sequence concatenate to the window spanning both. */
  lemma AdjacentSlices<T>(s: seq<T>, lo: nat, a: nat, b: nat)
    ensures Slice(s, lo, lo + a) + Slice(s, lo + a, lo + a + b) == Slice(s, lo, lo + (a + b))
  {
    var left, right, both := Slice(s, lo, lo + a), Slice(s, lo + a, lo + a + b), Slice(s, lo, lo + (a + b));
    assert |left + right| == |both|;
    forall i | 0 <= i < |both| ensures (left + right)[i] == both[i] {
      if i >= |left| {
        assert (left + right)[i] == right[i - |left|];
      }
    }
  }

  lemma ArtworkViewsAppend(st: Store, x: seq<Doc>, y: seq<Doc>)
    ensures ArtworkViews(st, x) + ArtworkViews(st, y) == ArtworkViews(st, x + y)
  {
    var l, r := ArtworkViews(st, x), ArtworkViews(st, y);
    forall i | 0 <= i < |x + y| ensures (l + r)[i] == ArtworkViews(st, x + y)[i] {
      if i >= |x| {
        assert (l + r)[i] == r[i - |x|];
      }
    }
  }

  lemma ArtworkPageIsSlice(st: Store, offset: nat, limit: nat)
    ensures ArtworkPage(st, PageAt(offset, limit)) == Slice(ArtworksInListOrder(st), offset, offset + limit)
  {
    assert PageLimit(PageAt(offset, limit)) == limit && PageOffset(PageAt(offset, limit)) == offset;
  }

  /** Adjacent pages of any listing concatenate to the page that spans both. */
  lemma AdjacentPagesOfListing<T>(all: seq<T>, page: (nat, nat) -> seq<T>, offset: nat, a: nat, b: nat)
    requires forall o: nat, l: nat :: page(o, l) == Slice(all, o, o + l)
    ensures page(offset, a) + page(offset + a, b) == page(offset, a + b)
  {
    AdjacentSlices(all, offset, a, b);
  }

  /** Adjacent pages of artwork documents concatenate to the page that spans both. */
  lemma AdjacentArtworkPages(st: Store, offset: nat, a: nat, b: nat)
    ensures ArtworkPage(st, PageAt(offset, a)) + ArtworkPage(st, PageAt(offset + a, b))
      == ArtworkPage(st, PageAt(offset, a + b))
  {
    var page := (o: nat, l: nat) => ArtworkPage(st, PageAt(o, l));
    forall o: nat, l: nat ensures page(o, l) == Slice(ArtworksInListOrder(st), o, o + l) {
      ArtworkPageIsSlice(st, o, l);
    }
    AdjacentPagesOfListing(ArtworksInListOrder(st), page, offset, a, b);
  }

  /** Two adjacent pages together are the page that spans both: paging neither skips nor repeats an artwork. */
  lemma AdjacentPagesConcatenate(st: Store, offset: nat, a: nat, b: nat)
    ensures GetAllArtworks(st, PageAt(offset, a)) + GetAllArtworks(st, PageAt(offset + a, b))
      == GetAllArtworks(st, PageAt(offset, a + b))
  {
    AdjacentArtworkPages(st, offset, a, b);
    ArtworkViewsAppend(st, ArtworkPage(st, PageAt(offset, a)), ArtworkPage(st, PageAt(offset + a, b)));
  }

  /** Without arguments getAllArtworks returns the first 100 artworks of the listing. */
  lemma DefaultPageIsFirstHundred(st: Store)
    ensures GetAllArtworks(st, None) == GetAllArtworks(st, PageAt(0, 100))
    ensures |GetAllArtworks(st, None)| == Min(100, |ArtworksInListOrder(st)|)
  {
    assert ArtworkPage(st, None) == ArtworkPage(st, PageAt(0, 100));
  }

  // ---------------------------------------------------------------------------
  // The computed artwork count of a project
  // ---------------------------------------------------------------------------

  /** `artworkCount` is the number of artwork documents whose project reference is the project's id. */
  lemma ArtworkCountCountsReferrers(st: Store, project: Doc)
    ensures ProjectView(st, project).artworkCount
      == |set i | 0 <= i < |st.docs| && st.docs[i].docType == "artwork" && st.docs[i].project == Some(project.id)|
  {
    var p := ArtworkOfProject(project.id);
    FilterCount(st.docs, p);
    assert Positions(st.docs, p)
      == set i | 0 <= i < |st.docs| && st.docs[i].docType == "artwork" && st.docs[i].project == Some(project.id);
  }

  /** Every artwork's project reference, when set, leads to a project document. */
  ghost predicate ProjectRefsTargetProjects(st: Store) {
    forall d :: d in st.docs && d.docType == "artwork" && d.project.Some? ==>
      Deref(st, d.project.value).Some? && Deref(st, d.project.value).value.docType == "project"
  }

  /** Two documents of one type in a store whose slugs are unique within types are the same document. */
  lemma SlugIdentifies(st: Store, x: Doc, y: Doc)
    requires SlugsUniqueWithinType(st)
    requires x in st.docs && y in st.docs && x.docType == y.docType && x.slug.Some? && x.slug == y.slug
    ensures x == y
  {
    var i :| 0 <= i < |st.docs| && st.docs[i] == x;
    var j :| 0 <= j < |st.docs| && st.docs[j] == y;
    assert i == j;
  }

  /**
   * The count a project listing shows equals the number of artworks its
   * project page's filter-by-slug query returns, provided ids index the
   * documents, slugs are unique per type and project references lead to projects.
   */
  lemma ArtworkCountMatchesArtworksByProject(st: Store, slug: string)
    requires Consistent(st) && SlugsUniqueWithinType(st) && ProjectRefsTargetProjects(st)
    requires GetProjectBySlug(st, slug).Some?
    ensures |GetArtworksByProject(st, slug)| == GetProjectBySlug(st, slug).value.artworkCount
  {
    var project := GetProjectBySlug(st, slug).value.doc;
    assert project in st.docs && project.docType == "project" && project.slug == Some(slug);
    var bySlug := ArtworkInProjectWithSlug(st, slug);
    var byId := ArtworkOfProject(project.id);
    forall d | d in st.docs ensures bySlug(d) == byId(d) {
      if bySlug(d) {
        var t := Deref(st, d.project.value).value;
        DerefFindsDocument(st, d.project.value, t);
        SlugIdentifies(st, t, project);
      }
      if byId(d) {
        DerefFindsDocument(st, project.id, project);
      }
    }
    FilterCongruent(st.docs, bySlug, byId);
  }

  // ---------------------------------------------------------------------------
  // The two profile generations
  // ---------------------------------------------------------------------------

  /** A store holding one person, slug "ada". */
  function OnePersonStore(): Store {
    var ada := NewDoc("person-1", "person").(slug := Some("ada"));
    Store([ada], map["person-1" := ada], AbsentLast)
  }

  /**
   * The artist and person lookups are not interchangeable: a person is found
   * by getPersonBySlug and not by getArtistBySlug, which filters on the
   * retired `"artist"` type.
   */
  lemma ArtistLookupMissesPeople()
    ensures GetPersonBySlug(OnePersonStore(), "ada").Some?
    ensures GetArtistBySlug(OnePersonStore(), "ada").None?
  {
    var st := OnePersonStore();
    assert WithSlug("person", "ada")(st.docs[0]);
    forall i | 0 <= i < |st.docs| ensures !WithSlug("artist", "ada")(st.docs[i]) {
      assert st.docs[i].docType == "person";
    }
  }

  /** An artist lookup sees no person document at all: adding one changes nothing. */
  lemma ArtistLookupIgnoresPersonDocuments(st: Store, person: Doc, slug: string)
    requires person.docType == "person"
    ensures GetArtistBySlug(st.(docs := st.docs + [person]), slug).Some? == GetArtistBySlug(st, slug).Some?
  {
    var st' := st.(docs := st.docs + [person]);
    var p := WithSlug("artist", slug);
    if AnyWhere(st'.docs, p) {
      var i :| 0 <= i < |st'.docs| && p(st'.docs[i]);
      assert i < |st.docs| && st.docs[i] == st'.docs[i];
    }
    if AnyWhere(st.docs, p) {
      var i :| 0 <= i < |st.docs| && p(st.docs[i]);
      assert st'.docs[i] == st.docs[i];
    }
  }
}
