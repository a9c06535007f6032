/** The resources listing endpoint: filter by author and tag names, then
    offset/limit, answered as a `{data, count}` envelope. */
module Listing {
  import opened Wrappers
  import opened Seqs
  import opened Models

  /** The `le=100` bound on the `limit` query parameter. */
  const MaxLimit := 100
  const DefaultOffset: nat := 0
  const DefaultLimit: nat := 100

  /** The response envelope: `count` is the size of this page. */
  datatype Page = Page(data: seq<ResourceView>, count: int)

  // ---------------------------------------------------------------------
  // The query as the handler builds it.
  // ---------------------------------------------------------------------

  /** The where-clause of one joined row: the OR of `Author.name == n` for
      every author filter and `Tag.name == n` for every tag filter. */
  predicate WhereClause(authorNames: seq<string>, tagNames: seq<string>, a: Author, t: Tag) {
    a.name in authorNames || t.name in tagNames
  }

  /** Some row of Resource ⋈ ResourceAuthorLink ⋈ Author ⋈ ResourceTagLink ⋈ Tag
      (all inner joins) belongs to `r` and satisfies the where-clause. */
  predicate JoinedRowMatches(s: Store, authorNames: seq<string>, tagNames: seq<string>, r: Resource) {
    exists a, t :: a in s.authors && t in s.tags
      && AuthorLink(r.id, a.id) in s.authorLinks && TagLink(r.id, t.id) in s.tagLinks
      && WhereClause(authorNames, tagNames, a, t)
  }

  function JoinFilter(s: Store, authorNames: seq<string>, tagNames: seq<string>): Resource -> bool {
    (r: Resource) => JoinedRowMatches(s, authorNames, tagNames, r)
  }

  /** `select(Resource).distinct().join(...)...offset(offset).limit(limit).where(...)`. */
  function JoinStatement(s: Store, authorNames: seq<string>, tagNames: seq<string>, offset: nat, limit: nat): (rows: seq<Resource>)
    ensures |rows| <= limit && NoDuplicates(rows)
    ensures forall x :: x in rows ==> x in s.resources && JoinedRowMatches(s, authorNames, tagNames, x)
  {
    Window(Distinct(Filter(s.resources, JoinFilter(s, authorNames, tagNames))), offset, limit)
  }

  /** `read_resources`, with its four `if` statements applied in order so that
      a later branch overwrites the result of an earlier one. Limits above
      100 are refused before any query runs. */
  function ReadResources(s: Store, author: seq<string>, tag: seq<string>, offset: nat, limit: nat): (r: Result<Page>)
    ensures r.Err? <==> limit > MaxLimit
    ensures r.Err? ==> r.status == 422
    ensures r.Ok? ==> |r.value.data| <= limit && r.value.count == |r.value.data|
  {
    if limit > MaxLimit then
      Err(422, "Input should be less than or equal to 100")
    else
      var data0: seq<Resource> := [];
      var data1 := if |author| > 0 then JoinStatement(s, author, [], offset, limit) else data0;
      var data2 := if |tag| > 0 then JoinStatement(s, [], tag, offset, limit) else data1;
      var data3 := if |author| > 0 && |tag| > 0 then JoinStatement(s, author, tag, offset, limit) else data2;
      var data := if |author| == 0 && |tag| == 0 then Window(s.resources, offset, limit) else data3;
      Ok(Page(ProjectAll(s, data), |data|))
  }

  /** The request with every query parameter left at its default. */
  function ReadResourcesDefaults(s: Store): (r: Result<Page>)
    ensures r.Ok?
    ensures |r.value.data| == Min(|s.resources|, DefaultLimit)
    ensures forall i :: 0 <= i < |r.value.data| ==> r.value.data[i] == Project(s, s.resources[i])
  {
    ReadResources(s, [], [], DefaultOffset, DefaultLimit)
  }

  // ---------------------------------------------------------------------
  // Reference meaning of the listing, stated per resource.
  // ---------------------------------------------------------------------

  predicate HasAuthor(s: Store, r: Resource) {
    exists a :: a in s.authors && AuthorLink(r.id, a.id) in s.authorLinks
  }

  predicate HasTag(s: Store, r: Resource) {
    exists t :: t in s.tags && TagLink(r.id, t.id) in s.tagLinks
  }

  /** Some author credited on `r` has one of the given names. */
  predicate AuthorNamed(s: Store, r: Resource, names: seq<string>) {
    exists a :: a in s.authors && AuthorLink(r.id, a.id) in s.authorLinks && a.name in names
  }

  /** Some tag on `r` has one of the given names. */
  predicate TagNamed(s: Store, r: Resource, names: seq<string>) {
    exists t :: t in s.tags && TagLink(r.id, t.id) in s.tagLinks && t.name in names
  }

  /** In a well-formed store the inner join to `Author` loses nothing:
      having a linked author is having an author-link row at all, and
      likewise for tags. */
  lemma {:induction false} LinkRowsResolve(s: Store, r: Resource)
    requires WellFormed(s)
    ensures HasAuthor(s, r) <==> exists l :: l in s.authorLinks && l.resourceId == r.id
    ensures HasTag(s, r) <==> exists l :: l in s.tagLinks && l.resourceId == r.id
  {
    if l :| l in s.authorLinks && l.resourceId == r.id {
      var ids := AuthorIds(s.authors);
      var k :| 0 <= k < |ids| && ids[k] == l.authorId;
      assert s.authors[k] in s.authors && AuthorLink(r.id, s.authors[k].id) == l;
    }
    if l :| l in s.tagLinks && l.resourceId == r.id {
      var ids := TagIds(s.tags);
      var k :| 0 <= k < |ids| && ids[k] == l.tagId;
      assert s.tags[k] in s.tags && TagLink(r.id, s.tags[k].id) == l;
    }
  }

  /** Under a non-empty filter a resource is listed when it has at least one
      author and at least one tag, and an author name or a tag name matches. */
  predicate Qualifies(s: Store, authorNames: seq<string>, tagNames: seq<string>, r: Resource) {
    HasAuthor(s, r) && HasTag(s, r) && (AuthorNamed(s, r, authorNames) || TagNamed(s, r, tagNames))
  }

  function QualifyFilter(s: Store, authorNames: seq<string>, tagNames: seq<string>): Resource -> bool {
    (r: Resource) => Qualifies(s, authorNames, tagNames, r)
  }

  /** All resources the request selects, before offset and limit. */
  function Matching(s: Store, authorNames: seq<string>, tagNames: seq<string>): seq<Resource> {
    if |authorNames| == 0 && |tagNames| == 0 then s.resources
    else Distinct(Filter(s.resources, QualifyFilter(s, authorNames, tagNames)))
  }

  /** The five-way inner join with an OR-ed where-clause selects exactly the
      resources that have an author, have a tag, and match by author or tag. */
  lemma JoinMeansQualifies(s: Store, authorNames: seq<string>, tagNames: seq<string>, r: Resource)
    ensures JoinedRowMatches(s, authorNames, tagNames, r) <==> Qualifies(s, authorNames, tagNames, r)
  {
    if Qualifies(s, authorNames, tagNames, r) {
      var a0 :| a0 in s.authors && AuthorLink(r.id, a0.id) in s.authorLinks;
      var t0 :| t0 in s.tags && TagLink(r.id, t0.id) in s.tagLinks;
      if AuthorNamed(s, r, authorNames) {
        var a :| a in s.authors && AuthorLink(r.id, a.id) in s.authorLinks && a.name in authorNames;
        assert WhereClause(authorNames, tagNames, a, t0);
      } else {
        var t :| t in s.tags && TagLink(r.id, t.id) in s.tagLinks && t.name in tagNames;
        assert WhereClause(authorNames, tagNames, a0, t);
      }
    }
  }

  lemma {:induction false} JoinFilterIsQualifyFilter(s: Store, authorNames: seq<string>, tagNames: seq<string>)
    ensures Filter(s.resources, JoinFilter(s, authorNames, tagNames))
         == Filter(s.resources, QualifyFilter(s, authorNames, tagNames))
  {
    forall r | r in s.resources
      ensures JoinFilter(s, authorNames, tagNames)(r) == QualifyFilter(s, authorNames, tagNames)(r)
    {
      JoinMeansQualifies(s, authorNames, tagNames, r);
    }
    FilterCongruence(s.resources, JoinFilter(s, authorNames, tagNames), QualifyFilter(s, authorNames, tagNames));
  }

  /** Whatever branch runs, the response is the offset/limit window of
      `Matching`, each resource projected with its authors, tags and image. */
  lemma ReadResourcesIsWindowOfMatching(s: Store, author: seq<string>, tag: seq<string>, offset: nat, limit: nat)
    requires limit <= MaxLimit
    ensures var w := Window(Matching(s, author, tag), offset, limit);
      ReadResources(s, author, tag, offset, limit) == Ok(Page(ProjectAll(s, w), |w|))
  {
    JoinFilterIsQualifyFilter(s, author, tag);
  }

  /** Membership in `Matching` for every combination of filters. */
  lemma MatchingMembership(s: Store, author: seq<string>, tag: seq<string>, r: Resource)
    ensures r in Matching(s, author, tag) <==>
      r in s.resources && ((|author| == 0 && |tag| == 0) || Qualifies(s, author, tag, r))
  {
  }

  /** Without filters every resource is listed, even one with no author or tag. */
  lemma UnfilteredListsEveryResource(s: Store, offset: nat, limit: nat)
    requires limit <= MaxLimit
    ensures var w := Window(s.resources, offset, limit);
      ReadResources(s, [], [], offset, limit) == Ok(Page(ProjectAll(s, w), |w|))
  {
  }

  /** Author filter only: a match on an author name, and at least one tag
      (the join through the tag table drops untagged resources). */
  lemma AuthorFilterOnly(s: Store, author: seq<string>, r: Resource)
    requires |author| > 0
    ensures r in Matching(s, author, []) <==>
      r in s.resources && AuthorNamed(s, r, author) && HasTag(s, r)
  {
  }

  /** Tag filter only: a match on a tag name, and at least one author. */
  lemma TagFilterOnly(s: Store, tag: seq<string>, r: Resource)
    requires |tag| > 0
    ensures r in Matching(s, [], tag) <==>
      r in s.resources && TagNamed(s, r, tag) && HasAuthor(s, r)
  {
  }

  /** Both filters: the union of the author and tag matches, among
      resources that have at least one author and one tag. */
  lemma BothFilters(s: Store, author: seq<string>, tag: seq<string>, r: Resource)
    requires |author| > 0 && |tag| > 0
    ensures r in Matching(s, author, tag) <==>
      r in s.resources && HasAuthor(s, r) && HasTag(s, r)
      && (AuthorNamed(s, r, author) || TagNamed(s, r, tag))
  {
  }

  /** A resource without an author or without a tag is never listed under
      any filter, although the unfiltered listing includes it. */
  lemma UnlinkedHiddenByFilters(s: Store, author: seq<string>, tag: seq<string>, r: Resource)
    requires r in s.resources
    requires !HasAuthor(s, r) || !HasTag(s, r)
    requires |author| > 0 || |tag| > 0
    ensures r in Matching(s, [], [])
    ensures r !in Matching(s, author, tag)
  {
  }

  /** Filtered listings never repeat a resource. */
  lemma FilteredHasNoDuplicates(s: Store, author: seq<string>, tag: seq<string>, offset: nat, limit: nat)
    requires |author| > 0 || |tag| > 0
    ensures NoDuplicates(Matching(s, author, tag))
    ensures NoDuplicates(Window(Matching(s, author, tag), offset, limit))
  {
  }

  /** Unique primary keys make the resource rows themselves distinct. */
  lemma KeysMakeRowsDistinct(s: Store)
    requires NoDuplicates(ResourceIds(s.resources))
    ensures NoDuplicates(s.resources)
  {
    var ids := ResourceIds(s.resources);
    forall i, j | 0 <= i < j < |s.resources| ensures s.resources[i] != s.resources[j] {
      assert ids[i] != ids[j];
    }
  }

  /** Distinct stored resources have distinct ids. */
  lemma {:induction false} DistinctRowsHaveDistinctIds(s: Store, w: seq<Resource>)
    requires NoDuplicates(ResourceIds(s.resources))
    requires NoDuplicates(w)
    requires forall x :: x in w ==> x in s.resources
    ensures forall i, j :: 0 <= i < j < |w| ==> w[i].id != w[j].id
  {
    var ids := ResourceIds(s.resources);
    forall i, j | 0 <= i < j < |w| ensures w[i].id != w[j].id {
      assert w[i] in w && w[j] in w;
      var k :| 0 <= k < |s.resources| && s.resources[k] == w[i];
      var l :| 0 <= l < |s.resources| && s.resources[l] == w[j];
      assert k != l;
      if k < l {
        assert ids[k] != ids[l];
      } else {
        assert ids[l] != ids[k];
      }
    }
  }

  /** In a well-formed store no page of any listing holds two resources with
      the same id. */
  lemma {:induction false} PageIdsDistinct(s: Store, author: seq<string>, tag: seq<string>, offset: nat, limit: nat)
    requires WellFormed(s)
    requires limit <= MaxLimit
    ensures ReadResources(s, author, tag, offset, limit).Ok?
    ensures var d := ReadResources(s, author, tag, offset, limit).value.data;
      forall i, j :: 0 <= i < j < |d| ==> d[i].id != d[j].id
  {
    var m := Matching(s, author, tag);
    var w := Window(m, offset, limit);
    ReadResourcesIsWindowOfMatching(s, author, tag, offset, limit);
    KeysMakeRowsDistinct(s);
    assert NoDuplicates(w);
    assert forall x :: x in w ==> x in s.resources by {
      forall x | x in w ensures x in s.resources {
        var i :| 0 <= i < |w| && w[i] == x;
        assert w[i] in m;
      }
    }
    DistinctRowsHaveDistinctIds(s, w);
  }

  /** Adding a name to either filter never drops a resource from the
      unwindowed selection, because the names are OR-ed. Starting from no
      filter at all it can, see `UnlinkedHiddenByFilters`. */
  lemma FilterMonotone(s: Store, author: seq<string>, tag: seq<string>, name: string, r: Resource)
    requires |author| > 0 || |tag| > 0
    requires r in Matching(s, author, tag)
    ensures r in Matching(s, author + [name], tag)
    ensures r in Matching(s, author, tag + [name])
  {
    if AuthorNamed(s, r, author) {
      var a :| a in s.authors && AuthorLink(r.id, a.id) in s.authorLinks && a.name in author;
      assert a.name in author + [name];
    } else {
      var t :| t in s.tags && TagLink(r.id, t.id) in s.tagLinks && t.name in tag;
      assert t.name in tag + [name];
    }
  }
}
