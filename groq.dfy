/**
 * The part of GROQ (the content store's query language) that the query layer
 * uses, stated over a finite corpus: documents as the store holds them, a
 * store as a sequence of documents plus an id-keyed index, reference
 * dereferencing (`->`), filtering (`*[...]`), ordering (`| order(...)`),
 * range slicing (`[a...b]`) and element access (`[0]`).
 */
module Groq {
  import opened Wrappers

  // ---------------------------------------------------------------------------
  // Documents and the store
  // ---------------------------------------------------------------------------

  /**
   * A document as the store holds it. The store is schema-less: `_type` is any
   * string (legacy `"artist"` documents included) and every scalar or
   * single-reference field may be absent. A list of references is a `seq`, and
   * a missing list is held as the empty one. A reference field holds the referenced `_id` only. Rich-text
   * fields are represented by their plain-text rendering (`pt::text`).
   * `otherRefs` collects every reference the document holds in fields that no
   * query reads one by one; `references()` sees them too.
   */
  datatype Doc = Doc(
    id: string,
    docType: string,
    slug: Option<string>,
    title: Option<string>,
    name: Option<string>,
    firstName: Option<string>,
    lastName: Option<string>,
    year: Option<int>,
    orderRank: Option<int>,
    startDate: Option<string>,
    status: Option<string>,
    isFeatured: Option<bool>,
    project: Option<string>,
    location: Option<string>,
    parent: Option<string>,
    medium: Option<string>,
    locationType: Option<string>,
    artists: seq<string>,
    roles: seq<string>,
    techniques: seq<string>,
    tags: seq<string>,
    creators: seq<string>,
    collaborators: seq<string>,
    curators: seq<string>,
    recipients: seq<string>,
    relatedArtworks: seq<string>,
    artworks: seq<string>,
    featuredProjects: seq<string>,
    artwork: Option<string>,
    otherRefs: seq<string>,
    descriptionText: Option<string>,
    biographyText: Option<string>)

  /** A document with the given id and type and no other field. */
  function NewDoc(id: string, docType: string): (d: Doc)
    ensures d.id == id && d.docType == docType
  {
    Doc(id, docType, None, None, None, None, None, None, None, None, None, None,
        None, None, None, None, None, [], [], [], [], [], [], [], [], [], [], [], None, [], None, None)
  }

  /**
   * Where the store places documents whose sort key is absent. The query layer
   * relies on no particular placement, so it is a parameter of the store.
   */
  datatype AbsentKeys = AbsentFirst | AbsentLast

  /** A dataset: its documents in store order, an index by `_id`, and its ordering rule. */
  datatype Store = Store(docs: seq<Doc>, index: map<string, Doc>, absent: AbsentKeys)

  /** The index holds exactly the documents of the dataset, each under its own `_id`. */
  ghost predicate Consistent(st: Store) {
    && (forall d :: d in st.docs ==> d.id in st.index && st.index[d.id] == d)
    && (forall id :: id in st.index ==> st.index[id] in st.docs && st.index[id].id == id)
  }

  /** Within one `_type`, no two documents share a slug. */
  ghost predicate SlugsUniqueWithinType(st: Store) {
    forall i, j :: 0 <= i < j < |st.docs| && st.docs[i].docType == st.docs[j].docType && st.docs[i].slug.Some?
      ==> st.docs[i].slug != st.docs[j].slug
  }

  // ---------------------------------------------------------------------------
  // References
  // ---------------------------------------------------------------------------

  /** `ref->`: the referenced document, or absent when it is missing (a dangling reference is no error). */
  function Deref(st: Store, ref: string): (r: Option<Doc>)
    ensures Consistent(st) ==> (r.Some? <==> exists d :: d in st.docs && d.id == ref)
    ensures Consistent(st) && r.Some? ==> r.value in st.docs && r.value.id == ref
  {
    if ref in st.index then Some(st.index[ref]) else None
  }

  /** `field->` on an optional reference field. */
  function DerefField(st: Store, ref: Option<string>): (r: Option<Doc>)
    ensures ref.None? ==> r.None?
    ensures ref.Some? ==> r == Deref(st, ref.value)
  {
    if ref.Some? then Deref(st, ref.value) else None
  }

  /** `field[]->`: one entry per reference, absent where the target is missing. */
  function DerefAll(st: Store, refs: seq<string>): (r: seq<Option<Doc>>)
    ensures |r| == |refs|
    ensures forall i :: 0 <= i < |r| ==> r[i] == Deref(st, refs[i])
  {
    seq(|refs|, i requires 0 <= i < |refs| => Deref(st, refs[i]))
  }

  /** Dereferencing finds exactly the document of the dataset with that id. */
  lemma DerefFindsDocument(st: Store, ref: string, d: Doc)
    requires Consistent(st)
    ensures Deref(st, ref) == Some(d) <==> d in st.docs && d.id == ref
  {
  }

  function OptionalRefs(r: Option<string>): seq<string> {
    if r.Some? then [r.value] else []
  }

  /** Every `_ref` the document holds. */
  function AllRefs(d: Doc): seq<string> {
    OptionalRefs(d.project) + OptionalRefs(d.location) + OptionalRefs(d.parent)
      + OptionalRefs(d.medium) + OptionalRefs(d.locationType)
      + d.artists + d.roles + d.techniques + d.tags + d.creators + d.collaborators
      + d.curators + d.recipients + d.relatedArtworks + d.artworks + d.featuredProjects
      + OptionalRefs(d.artwork) + d.otherRefs
  }

  /** `references(id)`: the document holds a reference to `id` somewhere. */
  predicate References(d: Doc, id: string) {
    id in AllRefs(d)
  }

  /** `references(ids)` on an array of ids: it references at least one of them. */
  predicate ReferencesAny(d: Doc, ids: seq<string>) {
    exists i :: 0 <= i < |ids| && References(d, ids[i])
  }

  // ---------------------------------------------------------------------------
  // Filtering, element access and slicing
  // ---------------------------------------------------------------------------

  /** `s[p]`: the elements satisfying `p`, in their original order. */
  function Filter<T(!new)>(s: seq<T>, p: T -> bool): (r: seq<T>)
    ensures |r| <= |s|
    ensures forall x :: x in r <==> x in s && p(x)
    decreases |s|
  {
    if |s| == 0 then []
    else
      var init, last := s[..|s| - 1], s[|s| - 1];
      assert s == init + [last];
      Filter(init, p) + (if p(last) then [last] else [])
  }

  /** `[x][p]` keeps `x` exactly when it satisfies `p`. */
  lemma FilterSingleton<T(!new)>(x: T, p: T -> bool)
    ensures Filter([x], p) == if p(x) then [x] else []
  {
    assert [x][..0] == [];
  }

  /**
   * Filtering a concatenation filters each part and keeps the parts in order;
   * with FilterSingleton this fixes the result: the satisfying elements, in
   * store order.
   */
  lemma {:induction false} FilterAppend<T(!new)>(a: seq<T>, b: seq<T>, p: T -> bool)
    ensures Filter(a + b, p) == Filter(a, p) + Filter(b, p)
    decreases |b|
  {
    if |b| == 0 {
      assert a + b == a;
    } else {
      var init, last := b[..|b| - 1], b[|b| - 1];
      assert b == init + [last];
      assert (a + b)[..|a + b| - 1] == a + init;
      FilterAppend(a, init, p);
    }
  }

  /** Filtering keeps every occurrence of a satisfying element and nothing else. */
  lemma {:induction false} FilterMultiset<T(!new)>(s: seq<T>, p: T -> bool)
    ensures forall x :: multiset(Filter(s, p))[x] == if p(x) then multiset(s)[x] else 0
    decreases |s|
  {
    if |s| > 0 {
      var init, last := s[..|s| - 1], s[|s| - 1];
      FilterMultiset(init, p);
      assert s == init + [last];
      assert Filter(s, p) == Filter(init, p) + (if p(last) then [last] else []);
    }
  }

  /** The positions of `s` whose element satisfies `p`. */
  ghost function Positions<T>(s: seq<T>, p: T -> bool): set<int> {
    set i | 0 <= i < |s| && p(s[i])
  }

  lemma PositionsSnoc<T>(s: seq<T>, p: T -> bool)
    requires |s| > 0
    ensures Positions(s, p) == Positions(s[..|s| - 1], p) + (if p(s[|s| - 1]) then {|s| - 1} else {})
  {
    var init := s[..|s| - 1];
    forall i ensures i in Positions(s, p) <==> i in Positions(init, p) || (i == |s| - 1 && p(s[i])) {
      if 0 <= i < |s| - 1 { assert s[i] == init[i]; }
    }
  }

  /** The number of elements kept is the number of positions whose element satisfies `p`. */
  lemma {:induction false} FilterCount<T(!new)>(s: seq<T>, p: T -> bool)
    ensures |Filter(s, p)| == |Positions(s, p)|
    decreases |s|
  {
    if |s| == 0 {
      assert Positions(s, p) == {};
    } else {
      var n := |s|;
      var init := s[..n - 1];
      FilterCount(init, p);
      PositionsSnoc(s, p);
      var last: set<int> := if p(s[n - 1]) then {n - 1} else {};
      assert |Filter(s, p)| == |Filter(init, p)| + |last|;
      assert Positions(init, p) !! last;
    }
  }

  /** Two filters that agree on every element of `s` keep the same elements. */
  lemma {:induction false} FilterCongruent<T(!new)>(s: seq<T>, p: T -> bool, q: T -> bool)
    requires forall i :: 0 <= i < |s| ==> p(s[i]) == q(s[i])
    ensures Filter(s, p) == Filter(s, q)
    decreases |s|
  {
    if |s| > 0 {
      FilterCongruent(s[..|s| - 1], p, q);
    }
  }

  /** `s[0]`: the first element, or absent for an empty sequence. */
  function First<T>(s: seq<T>): Option<T> {
    if |s| == 0 then None else Some(s[0])
  }

  /** `s[p][0]` is the earliest element satisfying `p`, and is absent exactly when there is none. */
  lemma {:induction false} FirstOfFilter<T(!new)>(s: seq<T>, p: T -> bool)
    ensures First(Filter(s, p)).Some? <==> exists i :: 0 <= i < |s| && p(s[i])
    ensures First(Filter(s, p)).Some? ==>
      exists i :: 0 <= i < |s| && s[i] == First(Filter(s, p)).value && p(s[i])
        && forall j :: 0 <= j < i ==> !p(s[j])
    decreases |s|
  {
    if |s| > 0 {
      var n := |s|;
      var init, last := s[..n - 1], s[n - 1];
      var rest := Filter(init, p);
      assert Filter(s, p) == rest + (if p(last) then [last] else []);
      FirstOfFilter(init, p);
      if rest != [] {
        var i :| 0 <= i < n - 1 && init[i] == rest[0] && p(init[i])
          && forall j :: 0 <= j < i ==> !p(init[j]);
        assert s[i] == init[i];
        forall j | 0 <= j < i ensures !p(s[j]) { assert s[j] == init[j]; }
      } else {
        forall j | 0 <= j < n - 1 ensures !p(s[j]) { assert s[j] == init[j]; }
      }
    }
  }

  function Min(a: int, b: int): int {
    if a <= b then a else b
  }

  /** `s[lo...hi]`: the elements at positions `lo` up to, not including, `hi`. */
  function Slice<T>(s: seq<T>, lo: nat, hi: nat): (r: seq<T>)
    ensures |r| == if lo <= hi && lo <= |s| then Min(hi, |s|) - lo else 0
    ensures forall i :: 0 <= i < |r| ==> r[i] == s[lo + i]
  {
    if lo <= hi && lo <= |s| then s[lo..Min(hi, |s|)] else []
  }

  // ---------------------------------------------------------------------------
  // Ordering
  // ---------------------------------------------------------------------------

  datatype Direction = Asc | Desc

  /** The fields the queries sort on. */
  datatype SortField = Year | OrderRank | LastName | StartDate | Title | Name

  /** One component of an `order(...)` clause. */
  datatype OrderTerm = OrderTerm(field: SortField, dir: Direction)

  /** A sort key: absent, a number or a string. */
  datatype Key = Absent | Num(n: int) | Text(s: string)

  function NumKey(v: Option<int>): Key {
    if v.Some? then Num(v.value) else Absent
  }

  function TextKey(v: Option<string>): Key {
    if v.Some? then Text(v.value) else Absent
  }

  function KeyOf(d: Doc, f: SortField): Key {
    match f
    case Year => NumKey(d.year)
    case OrderRank => NumKey(d.orderRank)
    case LastName => TextKey(d.lastName)
    case StartDate => TextKey(d.startDate)
    case Title => TextKey(d.title)
    case Name => TextKey(d.name)
  }

  /** Three-way lexicographic comparison of strings by character code. */
  function CompareText(a: string, b: string): (c: int)
    ensures -1 <= c <= 1
    decreases |a|
  {
    if |a| == 0 && |b| == 0 then 0
    else if |a| == 0 then -1
    else if |b| == 0 then 1
    else if a[0] < b[0] then -1
    else if a[0] > b[0] then 1
    else CompareText(a[1..], b[1..])
  }

  lemma {:induction false} CompareTextZero(a: string, b: string)
    ensures CompareText(a, b) == 0 <==> a == b
    decreases |a|
  {
    if |a| > 0 && |b| > 0 && a[0] == b[0] {
      CompareTextZero(a[1..], b[1..]);
      assert a == [a[0]] + a[1..] && b == [b[0]] + b[1..];
    }
  }

  lemma {:induction false} CompareTextAntisymmetric(a: string, b: string)
    ensures CompareText(a, b) == -CompareText(b, a)
    decreases |a|
  {
    if |a| > 0 && |b| > 0 && a[0] == b[0] {
      CompareTextAntisymmetric(a[1..], b[1..]);
    }
  }

  lemma {:induction false} CompareTextTransitive(a: string, b: string, c: string)
    requires CompareText(a, b) < 0 && CompareText(b, c) < 0
    ensures CompareText(a, c) < 0
    decreases |a|
  {
    if |a| > 0 && |b| > 0 && |c| > 0 && a[0] == b[0] && b[0] == c[0] {
      CompareTextTransitive(a[1..], b[1..], c[1..]);
    }
  }

  /** Three-way comparison of sort keys; absent keys go where the store puts them. */
  function CompareKey(a: Key, b: Key, absent: AbsentKeys): (c: int)
    ensures -1 <= c <= 1
  {
    match (a, b)
    case (Absent, Absent) => 0
    case (Absent, _) => if absent == AbsentFirst then -1 else 1
    case (_, Absent) => if absent == AbsentFirst then 1 else -1
    case (Num(x), Num(y)) => if x < y then -1 else if x > y then 1 else 0
    case (Text(x), Text(y)) => CompareText(x, y)
    // a field holds one kind of value; the mixed cases only keep the order total
    case (Num(_), Text(_)) => -1
    case (Text(_), Num(_)) => 1
  }

  /** Key comparison is a total order: zero only for equal keys, antisymmetric and transitive. */
  lemma CompareKeyTotalOrder(a: Key, b: Key, c: Key, absent: AbsentKeys)
    ensures CompareKey(a, b, absent) == 0 <==> a == b
    ensures CompareKey(a, b, absent) == -CompareKey(b, a, absent)
    ensures CompareKey(a, b, absent) < 0 && CompareKey(b, c, absent) < 0 ==> CompareKey(a, c, absent) < 0
  {
    if a.Text? && b.Text? {
      CompareTextZero(a.s, b.s);
      CompareTextAntisymmetric(a.s, b.s);
      if c.Text? && CompareText(a.s, b.s) < 0 && CompareText(b.s, c.s) < 0 {
        CompareTextTransitive(a.s, b.s, c.s);
      }
    }
  }

  function Directed(c: int, dir: Direction): int {
    if dir == Asc then c else -c
  }

  /** Three-way comparison of two documents under an `order(...)` clause: first differing term decides. */
  function CompareBy(a: Doc, b: Doc, terms: seq<OrderTerm>, absent: AbsentKeys): (c: int)
    ensures -1 <= c <= 1
    decreases |terms|
  {
    if |terms| == 0 then 0
    else
      var c := Directed(CompareKey(KeyOf(a, terms[0].field), KeyOf(b, terms[0].field), absent), terms[0].dir);
      if c != 0 then c else CompareBy(a, b, terms[1..], absent)
  }

  lemma {:induction false} CompareByAntisymmetric(a: Doc, b: Doc, terms: seq<OrderTerm>, absent: AbsentKeys)
    ensures CompareBy(a, b, terms, absent) == -CompareBy(b, a, terms, absent)
    decreases |terms|
  {
    if |terms| > 0 {
      var f := terms[0].field;
      CompareKeyTotalOrder(KeyOf(a, f), KeyOf(b, f), KeyOf(b, f), absent);
      CompareByAntisymmetric(a, b, terms[1..], absent);
    }
  }

  lemma {:induction false} CompareByTransitive(a: Doc, b: Doc, c: Doc, terms: seq<OrderTerm>, absent: AbsentKeys)
    requires CompareBy(a, b, terms, absent) <= 0 && CompareBy(b, c, terms, absent) <= 0
    ensures CompareBy(a, c, terms, absent) <= 0
    decreases |terms|
  {
    if |terms| > 0 {
      var f := terms[0].field;
      var ka, kb, kc := KeyOf(a, f), KeyOf(b, f), KeyOf(c, f);
      CompareKeyTotalOrder(ka, kb, kc, absent);
      CompareKeyTotalOrder(kb, kc, ka, absent);
      CompareKeyTotalOrder(kc, kb, ka, absent);
      CompareKeyTotalOrder(ka, kc, kb, absent);
      if ka == kb && kb == kc {
        CompareByTransitive(a, b, c, terms[1..], absent);
      }
    }
  }

  /** The documents at positions `i < j` of `s` are in the order the clause asks for. */
  predicate InOrderAt(s: seq<Doc>, i: int, j: int, terms: seq<OrderTerm>, absent: AbsentKeys)
    requires 0 <= i < j < |s|
  {
    CompareBy(s[i], s[j], terms, absent) <= 0
  }

  /** `s` is in the order the clause asks for. */
  predicate SortedBy(s: seq<Doc>, terms: seq<OrderTerm>, absent: AbsentKeys) {
    forall i, j :: 0 <= i < j < |s| ==> InOrderAt(s, i, j, terms, absent)
  }

  lemma SortedTail(s: seq<Doc>, terms: seq<OrderTerm>, absent: AbsentKeys)
    requires |s| > 0 && SortedBy(s, terms, absent)
    ensures SortedBy(s[1..], terms, absent)
  {
    forall i, j | 0 <= i < j < |s[1..]| ensures InOrderAt(s[1..], i, j, terms, absent) {
      assert InOrderAt(s, i + 1, j + 1, terms, absent);
    }
  }

  /** Places `x` before the first element it does not sort after. */
  function Insert(x: Doc, s: seq<Doc>, terms: seq<OrderTerm>, absent: AbsentKeys): (r: seq<Doc>)
    ensures multiset(r) == multiset(s) + multiset{x}
    decreases |s|
  {
    if |s| == 0 then [x]
    else if CompareBy(x, s[0], terms, absent) <= 0 then [x] + s
    else
      assert s == [s[0]] + s[1..];
      [s[0]] + Insert(x, s[1..], terms, absent)
  }

  /** A document that sorts before every element of a sorted sequence can go in front of it. */
  lemma ConsKeepsSorted(y: Doc, t: seq<Doc>, terms: seq<OrderTerm>, absent: AbsentKeys)
    requires SortedBy(t, terms, absent)
    requires forall d :: d in t ==> CompareBy(y, d, terms, absent) <= 0
    ensures SortedBy([y] + t, terms, absent)
  {
    var r := [y] + t;
    forall i, j | 0 <= i < j < |r| ensures InOrderAt(r, i, j, terms, absent) {
      if i > 0 {
        assert InOrderAt(t, i - 1, j - 1, terms, absent);
      } else {
        assert r[j] == t[j - 1];
      }
    }
  }

  /** The head of a sorted sequence sorts before every element of it. */
  lemma HeadSortsFirst(s: seq<Doc>, terms: seq<OrderTerm>, absent: AbsentKeys)
    requires |s| > 0 && SortedBy(s, terms, absent)
    ensures forall d :: d in s ==> CompareBy(s[0], d, terms, absent) <= 0
  {
    forall d | d in s ensures CompareBy(s[0], d, terms, absent) <= 0 {
      var k :| 0 <= k < |s| && s[k] == d;
      if k == 0 {
        CompareByAntisymmetric(s[0], s[0], terms, absent);
      } else {
        assert InOrderAt(s, 0, k, terms, absent);
      }
    }
  }

  lemma {:induction false} InsertKeepsSorted(x: Doc, s: seq<Doc>, terms: seq<OrderTerm>, absent: AbsentKeys)
    requires SortedBy(s, terms, absent)
    ensures SortedBy(Insert(x, s, terms, absent), terms, absent)
    decreases |s|
  {
    if |s| == 0 {
    } else if CompareBy(x, s[0], terms, absent) <= 0 {
      HeadSortsFirst(s, terms, absent);
      forall d | d in s ensures CompareBy(x, d, terms, absent) <= 0 {
        CompareByTransitive(x, s[0], d, terms, absent);
      }
      ConsKeepsSorted(x, s, terms, absent);
    } else {
      var rest := Insert(x, s[1..], terms, absent);
      SortedTail(s, terms, absent);
      InsertKeepsSorted(x, s[1..], terms, absent);
      HeadSortsFirst(s, terms, absent);
      CompareByAntisymmetric(x, s[0], terms, absent);
      forall d | d in rest ensures CompareBy(s[0], d, terms, absent) <= 0 {
        assert d in multiset(rest);
        if d != x {
          assert d in s[1..];
        }
      }
      ConsKeepsSorted(s[0], rest, terms, absent);
    }
  }

  /** Inserting the head of `s` into a sorted permutation of its tail gives a sorted permutation of `s`. */
  lemma InsertSortsOneMore(s: seq<Doc>, rest: seq<Doc>, terms: seq<OrderTerm>, absent: AbsentKeys)
    requires |s| > 0 && multiset(rest) == multiset(s[1..]) && SortedBy(rest, terms, absent)
    ensures multiset(Insert(s[0], rest, terms, absent)) == multiset(s)
    ensures |Insert(s[0], rest, terms, absent)| == |s|
    ensures SortedBy(Insert(s[0], rest, terms, absent), terms, absent)
  {
    InsertKeepsSorted(s[0], rest, terms, absent);
    assert s == [s[0]] + s[1..];
  }

  /**
   * `| order(terms)`: sorts `s` by the clause. Insertion puts each document before the
   * first one it does not sort after, so documents that compare equal keep their order.
   */
  function OrderBy(s: seq<Doc>, terms: seq<OrderTerm>, absent: AbsentKeys): (r: seq<Doc>)
    ensures multiset(r) == multiset(s)
    ensures |r| == |s|
    ensures SortedBy(r, terms, absent)
    decreases |s|
  {
    if |s| == 0 then []
    else
      var rest := OrderBy(s[1..], terms, absent);
      InsertSortsOneMore(s, rest, terms, absent);
      Insert(s[0], rest, terms, absent)
  }
}
