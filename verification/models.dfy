/** The catalogue schema: four entity tables keyed by integer id and two
    junction tables keyed by composite (resource, other) ids. */
module Models {
  import opened Wrappers
  import opened Seqs

  datatype Image = Image(id: int, name: string, url: string, altText: string)

  /** A guide. `imageId` is the nullable foreign key of its thumbnail. */
  datatype Resource = Resource(id: int, title: string, description: string, url: string, imageId: Option<int>)

  datatype Tag = Tag(id: int, name: string)

  datatype Author = Author(id: int, name: string, personalSite: string)

  /** A row of the resource-tag junction table; the pair is its primary key. */
  datatype TagLink = TagLink(resourceId: int, tagId: int)

  /** A row of the resource-author junction table; the pair is its primary key. */
  datatype AuthorLink = AuthorLink(resourceId: int, authorId: int)

  /** The database: every table as its rows in storage order. */
  datatype Store = Store(
    images: seq<Image>,
    resources: seq<Resource>,
    tags: seq<Tag>,
    authors: seq<Author>,
    tagLinks: seq<TagLink>,
    authorLinks: seq<AuthorLink>)

  const EmptyStore := Store([], [], [], [], [], [])

  function ImageIds(rows: seq<Image>): seq<int> {
    MapSeq((i: Image) => i.id, rows)
  }

  function ResourceIds(rows: seq<Resource>): seq<int> {
    MapSeq((r: Resource) => r.id, rows)
  }

  function TagIds(rows: seq<Tag>): seq<int> {
    MapSeq((t: Tag) => t.id, rows)
  }

  function AuthorIds(rows: seq<Author>): seq<int> {
    MapSeq((a: Author) => a.id, rows)
  }

  /** The id an autoincrementing key hands out next: above every id in use. */
  function FreshId(ids: seq<int>): (b: int)
    ensures 1 <= b
    ensures forall i :: 0 <= i < |ids| ==> ids[i] < b
  {
    if |ids| == 0 then 1 else Max(FreshId(ids[..|ids| - 1]), ids[|ids| - 1] + 1)
  }

  // ---------------------------------------------------------------------
  // Well-formedness: the constraints the schema declares or relies on.
  // ---------------------------------------------------------------------

  /** Every entity table has a unique integer primary key. */
  predicate KeysUnique(s: Store) {
    && NoDuplicates(ImageIds(s.images))
    && NoDuplicates(ResourceIds(s.resources))
    && NoDuplicates(TagIds(s.tags))
    && NoDuplicates(AuthorIds(s.authors))
  }

  /** The composite primary keys of the junction tables: no pair twice. */
  predicate LinksUnique(s: Store) {
    NoDuplicates(s.tagLinks) && NoDuplicates(s.authorLinks)
  }

  /** Every resource-tag link names an existing resource and tag. */
  predicate TagLinksResolve(s: Store) {
    forall l :: l in s.tagLinks ==> l.resourceId in ResourceIds(s.resources) && l.tagId in TagIds(s.tags)
  }

  /** Every resource-author link names an existing resource and author. */
  predicate AuthorLinksResolve(s: Store) {
    forall l :: l in s.authorLinks ==> l.resourceId in ResourceIds(s.resources) && l.authorId in AuthorIds(s.authors)
  }

  /** A resource's image id is absent or names an existing image. */
  predicate ImagesResolve(s: Store) {
    forall r :: r in s.resources && r.imageId.Some? ==> r.imageId.value in ImageIds(s.images)
  }

  /** Every foreign key names an existing row. */
  predicate ForeignKeysResolve(s: Store) {
    TagLinksResolve(s) && AuthorLinksResolve(s) && ImagesResolve(s)
  }

  /** An image is the thumbnail of at most one resource (the scalar
      back-reference of the image relationship). */
  predicate ThumbnailsUnique(s: Store) {
    forall i, j :: 0 <= i < j < |s.resources| && s.resources[i].imageId.Some? ==>
      s.resources[i].imageId != s.resources[j].imageId
  }

  predicate WellFormed(s: Store) {
    KeysUnique(s) && LinksUnique(s) && ForeignKeysResolve(s) && ThumbnailsUnique(s)
  }

  // ---------------------------------------------------------------------
  // Relationships, resolved through the junction tables.
  // ---------------------------------------------------------------------

  /** Whether an author is credited on resource `r`. */
  function CreditsOn(s: Store, r: Resource): Author -> bool {
    (a: Author) => AuthorLink(r.id, a.id) in s.authorLinks
  }

  /** Whether a tag is attached to resource `r`. */
  function TaggedOn(s: Store, r: Resource): Tag -> bool {
    (t: Tag) => TagLink(r.id, t.id) in s.tagLinks
  }

  /** Whether resource `r` credits author `a`. */
  function CreditedBy(s: Store, a: Author): Resource -> bool {
    (r: Resource) => AuthorLink(r.id, a.id) in s.authorLinks
  }

  /** Whether resource `r` carries tag `t`. */
  function CarriesTag(s: Store, t: Tag): Resource -> bool {
    (r: Resource) => TagLink(r.id, t.id) in s.tagLinks
  }

  lemma CreditsOnApplied(s: Store, r: Resource, a: Author)
    ensures CreditsOn(s, r)(a) == (AuthorLink(r.id, a.id) in s.authorLinks)
  {
  }

  lemma TaggedOnApplied(s: Store, r: Resource, t: Tag)
    ensures TaggedOn(s, r)(t) == (TagLink(r.id, t.id) in s.tagLinks)
  {
  }

  lemma CarriesTagApplied(s: Store, t: Tag, r: Resource)
    ensures CarriesTag(s, t)(r) == (TagLink(r.id, t.id) in s.tagLinks)
  {
  }

  /** `Resource.authors`. */
  function AuthorsOf(s: Store, r: Resource): (authors: seq<Author>)
    ensures forall a :: a in authors <==> a in s.authors && AuthorLink(r.id, a.id) in s.authorLinks
  {
    Filter(s.authors, CreditsOn(s, r))
  }

  /** `Author.credited_resources`. */
  function CreditedResources(s: Store, a: Author): (resources: seq<Resource>)
    ensures forall r :: r in resources <==> r in s.resources && AuthorLink(r.id, a.id) in s.authorLinks
  {
    Filter(s.resources, CreditedBy(s, a))
  }

  /** `Resource.tags`. */
  function TagsOf(s: Store, r: Resource): (tags: seq<Tag>)
    ensures forall t :: t in tags <==> t in s.tags && TagLink(r.id, t.id) in s.tagLinks
  {
    Filter(s.tags, TaggedOn(s, r))
  }

  /** `Tag.related_resources`. */
  function RelatedResources(s: Store, t: Tag): (resources: seq<Resource>)
    ensures forall r :: r in resources <==> r in s.resources && TagLink(r.id, t.id) in s.tagLinks
  {
    Filter(s.resources, CarriesTag(s, t))
  }

  /** The first image row with the given id. */
  function FindImage(images: seq<Image>, id: int): (o: Option<Image>)
    ensures o.Some? ==> o.value in images && o.value.id == id
    ensures o.None? ==> forall i :: 0 <= i < |images| ==> images[i].id != id
  {
    if |images| == 0 then None
    else if images[0].id == id then Some(images[0])
    else FindImage(images[1..], id)
  }

  /** `Resource.image`: the row the nullable foreign key points at. */
  function ImageOf(s: Store, r: Resource): (o: Option<Image>)
    ensures r.imageId.None? ==> o.None?
    ensures o.Some? ==> o.value in s.images && r.imageId == Some(o.value.id)
    ensures r.imageId.Some? && (exists img :: img in s.images && img.id == r.imageId.value) ==> o.Some?
  {
    if r.imageId.None? then None else FindImage(s.images, r.imageId.value)
  }

  /** The first resource whose thumbnail is the image with the given id. */
  function FindThumbnail(resources: seq<Resource>, imageId: int): (o: Option<Resource>)
    ensures o.Some? ==> o.value in resources && o.value.imageId == Some(imageId)
    ensures o.None? ==> forall i :: 0 <= i < |resources| ==> resources[i].imageId != Some(imageId)
  {
    if |resources| == 0 then None
    else if resources[0].imageId == Some(imageId) then Some(resources[0])
    else FindThumbnail(resources[1..], imageId)
  }

  /** `Image.resource_thumbnail`, the scalar back-reference. */
  function ThumbnailOf(s: Store, img: Image): (o: Option<Resource>)
    ensures o.Some? ==> o.value in s.resources && o.value.imageId == Some(img.id)
    ensures o.None? ==> forall r :: r in s.resources ==> r.imageId != Some(img.id)
  {
    FindThumbnail(s.resources, img.id)
  }

  /** `Resource.authors` and `Author.credited_resources` are two views of one
      junction table; so are `Resource.tags` and `Tag.related_resources`. */
  lemma RelationshipViewsAgree(s: Store, r: Resource, a: Author, t: Tag)
    requires r in s.resources && a in s.authors && t in s.tags
    ensures a in AuthorsOf(s, r) <==> r in CreditedResources(s, a)
    ensures a in AuthorsOf(s, r) <==> AuthorLink(r.id, a.id) in s.authorLinks
    ensures t in TagsOf(s, r) <==> r in RelatedResources(s, t)
    ensures t in TagsOf(s, r) <==> TagLink(r.id, t.id) in s.tagLinks
  {
  }

  lemma ImageKeyIdentifies(s: Store, a: Image, b: Image)
    requires KeysUnique(s) && a in s.images && b in s.images && a.id == b.id
    ensures a == b
  {
    var i :| 0 <= i < |s.images| && s.images[i] == a;
    var j :| 0 <= j < |s.images| && s.images[j] == b;
    var ids := ImageIds(s.images);
    assert ids[i] == a.id && ids[j] == b.id;
    NoDuplicatesIndex(ids, i, j);
  }

  lemma ThumbnailIdentifies(s: Store, a: Resource, b: Resource)
    requires ThumbnailsUnique(s) && a in s.resources && b in s.resources
    requires a.imageId.Some? && a.imageId == b.imageId
    ensures a == b
  {
    var i :| 0 <= i < |s.resources| && s.resources[i] == a;
    var j :| 0 <= j < |s.resources| && s.resources[j] == b;
  }

  /** In a well-formed store `Resource.image` and `Image.resource_thumbnail`
      are inverse: a resource shows an image exactly when that image's
      back-reference is that resource. */
  lemma ImageAndThumbnailAgree(s: Store, r: Resource, img: Image)
    requires WellFormed(s)
    requires r in s.resources && img in s.images
    ensures ImageOf(s, r) == Some(img) <==> ThumbnailOf(s, img) == Some(r)
  {
    if ImageOf(s, r) == Some(img) {
      var t := ThumbnailOf(s, img);
      assert t.Some?;
      ThumbnailIdentifies(s, t.value, r);
    }
    if ThumbnailOf(s, img) == Some(r) {
      var o := ImageOf(s, r);
      assert ImageIds(s.images)[0] == s.images[0].id;
      var k :| 0 <= k < |s.images| && s.images[k] == img;
      assert o.Some?;
      ImageKeyIdentifies(s, o.value, img);
    }
  }

  // ---------------------------------------------------------------------
  // The response projection of a resource.
  // ---------------------------------------------------------------------

  /** `ResourceWithAuthorsAndTags`: a resource with its relationships loaded. */
  datatype ResourceView = ResourceView(
    id: int, title: string, description: string, url: string,
    authors: seq<Author>, tags: seq<Tag>, image: Option<Image>)

  function Project(s: Store, r: Resource): (v: ResourceView)
    ensures v.id == r.id && v.title == r.title && v.description == r.description && v.url == r.url
    ensures forall a :: a in v.authors <==> a in s.authors && AuthorLink(r.id, a.id) in s.authorLinks
    ensures forall t :: t in v.tags <==> t in s.tags && TagLink(r.id, t.id) in s.tagLinks
    ensures v.image.Some? ==> v.image.value in s.images && r.imageId == Some(v.image.value.id)
    ensures r.imageId.Some? && (exists img :: img in s.images && img.id == r.imageId.value) ==> v.image.Some?
  {
    ResourceView(r.id, r.title, r.description, r.url, AuthorsOf(s, r), TagsOf(s, r), ImageOf(s, r))
  }

  function ProjectAll(s: Store, rs: seq<Resource>): (vs: seq<ResourceView>)
    ensures |vs| == |rs|
    ensures forall i :: 0 <= i < |rs| ==> vs[i] == Project(s, rs[i])
  {
    MapSeq((r: Resource) => Project(s, r), rs)
  }

  /** A resource with no junction rows and no thumbnail projects to the
      declared defaults: empty author and tag lists and no image. */
  lemma ProjectionDefaults(s: Store, r: Resource)
    requires forall l :: l in s.authorLinks ==> l.resourceId != r.id
    requires forall l :: l in s.tagLinks ==> l.resourceId != r.id
    requires r.imageId.None?
    ensures Project(s, r).authors == []
    ensures Project(s, r).tags == []
    ensures Project(s, r).image == None
  {
  }
}
