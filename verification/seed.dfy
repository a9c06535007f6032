/** The startup seed: a fixed demo catalogue inserted in one commit unless
    an author with the sentinel name already exists. */
module Seed {
  import opened Wrappers
  import opened Seqs
  import opened Models

  /** The author name whose presence means the demo data is already there. */
  const Sentinel := "Midokuni"

  const SiteUrl := "https://hina.loves.midokuni.com/"

  const ImageName := "An image"
  const Description := "Guide"
  const Url0 := "https://static.wikitide.net/bluearchivewiki/3/38/Lobby_Banner_20251112_01.png"
  const Url1 := "https://static.wikitide.net/bluearchivewiki/c/ce/Lobby_Banner_20240904_01.png"
  const Url2 := "https://static.wikitide.net/bluearchivewiki/a/a7/Lobby_Banner_20220907_01.png"
  const Url3 := "https://i.imgur.com/8Iv7PhJ.jpg"
  const Title0 := "Hina Loves Midokuni"
  const Title1 := "Joexyz"
  const Title2 := "Shared guide"
  const Title3 := "わたし和小市"
  const Joexyz := "Joexyz"
  const Koichi := "こいち"
  const EN := "EN"
  const CN := "CN"
  const JP := "JP"
  const KR := "KR"
  const BeginnerFocused := "Beginner-focused"
  const Advanced := "Advanced"

  /** The four demo images, numbered from `base`. */
  function SeedImages(base: int): seq<Image> {
    [ Image(base, ImageName, Url0, "subie"),
      Image(base + 1, ImageName, Url1, "ui"),
      Image(base + 2, ImageName, Url2, "hina"),
      Image(base + 3, ImageName, Url3, "yesod") ]
  }

  /** The six demo tags, numbered from `base`. */
  function SeedTags(base: int): seq<Tag> {
    [ Tag(base, EN), Tag(base + 1, CN), Tag(base + 2, JP), Tag(base + 3, KR),
      Tag(base + 4, BeginnerFocused), Tag(base + 5, Advanced) ]
  }

  /** The four demo guides; guide i has demo image i as its thumbnail. */
  function SeedResources(base: int, imageBase: int): seq<Resource> {
    [ Resource(base, Title0, Description, SiteUrl, Some(imageBase)),
      Resource(base + 1, Title1, Description, SiteUrl, Some(imageBase + 1)),
      Resource(base + 2, Title2, Description, SiteUrl, Some(imageBase + 2)),
      Resource(base + 3, Title3, Description, SiteUrl, Some(imageBase + 3)) ]
  }

  /** The three demo authors, numbered from `base`. */
  function SeedAuthors(base: int): seq<Author> {
    [ Author(base, Sentinel, SiteUrl), Author(base + 1, Joexyz, SiteUrl), Author(base + 2, Koichi, SiteUrl) ]
  }

  /** The junction rows behind each demo guide's `tags` list. */
  function SeedTagLinks(resourceBase: int, tagBase: int): seq<TagLink> {
    [ TagLink(resourceBase, tagBase), TagLink(resourceBase, tagBase + 1),
      TagLink(resourceBase + 1, tagBase), TagLink(resourceBase + 1, tagBase + 1), TagLink(resourceBase + 1, tagBase + 4),
      TagLink(resourceBase + 2, tagBase), TagLink(resourceBase + 2, tagBase + 1), TagLink(resourceBase + 2, tagBase + 3),
      TagLink(resourceBase + 3, tagBase), TagLink(resourceBase + 3, tagBase + 2), TagLink(resourceBase + 3, tagBase + 4) ]
  }

  /** The junction rows behind each demo author's `credited_resources` list. */
  function SeedAuthorLinks(resourceBase: int, authorBase: int): seq<AuthorLink> {
    [ AuthorLink(resourceBase, authorBase), AuthorLink(resourceBase + 2, authorBase),
      AuthorLink(resourceBase + 1, authorBase + 1), AuthorLink(resourceBase + 2, authorBase + 1),
      AuthorLink(resourceBase + 3, authorBase + 2) ]
  }

  /** Whether the seeded junction rows attach demo tag k to demo guide i. */
  predicate SeedTagged(i: int, k: int) {
    || (i == 0 && (k == 0 || k == 1))
    || (i == 1 && (k == 0 || k == 1 || k == 4))
    || (i == 2 && (k == 0 || k == 1 || k == 3))
    || (i == 3 && (k == 0 || k == 2 || k == 4))
  }

  /** Whether the seeded junction rows credit demo author k on demo guide i. */
  predicate SeedCredited(i: int, k: int) {
    || (k == 0 && (i == 0 || i == 2))
    || (k == 1 && (i == 1 || i == 2))
    || (k == 2 && i == 3)
  }

  /** The tag junction rows list exactly the pairs of `SeedTagged`. */
  lemma SeedTagLinksTable(resourceBase: int, tagBase: int, i: int, k: int)
    ensures TagLink(resourceBase + i, tagBase + k) in SeedTagLinks(resourceBase, tagBase) <==> SeedTagged(i, k)
  {
  }

  /** The author junction rows list exactly the pairs of `SeedCredited`. */
  lemma SeedAuthorLinksTable(resourceBase: int, authorBase: int, i: int, k: int)
    ensures AuthorLink(resourceBase + i, authorBase + k) in SeedAuthorLinks(resourceBase, authorBase) <==> SeedCredited(i, k)
  {
  }

  predicate HasAuthorNamed(s: Store, name: string) {
    exists a :: a in s.authors && a.name == name
  }

  /** `create_test_data`: if no author is named `Sentinel`, append the demo
      rows, with ids above every id in use, in a single transition. */
  function CreateTestData(s: Store): (r: Store)
    ensures HasAuthorNamed(s, Sentinel) ==> r == s
    ensures HasAuthorNamed(r, Sentinel)
    ensures !HasAuthorNamed(s, Sentinel) ==>
      && |r.images| == |s.images| + 4 && r.images[..|s.images|] == s.images
      && |r.tags| == |s.tags| + 6 && r.tags[..|s.tags|] == s.tags
      && |r.resources| == |s.resources| + 4 && r.resources[..|s.resources|] == s.resources
      && |r.authors| == |s.authors| + 3 && r.authors[..|s.authors|] == s.authors
      && |r.tagLinks| == |s.tagLinks| + 11 && r.tagLinks[..|s.tagLinks|] == s.tagLinks
      && |r.authorLinks| == |s.authorLinks| + 5 && r.authorLinks[..|s.authorLinks|] == s.authorLinks
  {
    if HasAuthorNamed(s, Sentinel) then s
    else
      var r := SeedInsert(s);
      assert r.authors[|s.authors|] in r.authors;
      r
  }

  /** The single commit: every demo row appended, numbered from the bases
      `imageBase`, `tagBase`, `resourceBase` and `authorBase`. */
  function Commit(s: Store, imageBase: int, tagBase: int, resourceBase: int, authorBase: int): Store {
    Store(
      s.images + SeedImages(imageBase),
      s.resources + SeedResources(resourceBase, imageBase),
      s.tags + SeedTags(tagBase),
      s.authors + SeedAuthors(authorBase),
      s.tagLinks + SeedTagLinks(resourceBase, tagBase),
      s.authorLinks + SeedAuthorLinks(resourceBase, authorBase))
  }

  /** The commit keeps every old row in place and appends the demo rows,
      numbered from the bases in list order. */
  lemma CommitAppends(s: Store, ib: int, tb: int, rb: int, ab: int)
    ensures var c := Commit(s, ib, tb, rb, ab);
      && |c.images| == |s.images| + 4 && c.images[..|s.images|] == s.images
      && ImageIds(c.images) == ImageIds(s.images) + [ib, ib + 1, ib + 2, ib + 3]
    ensures var c := Commit(s, ib, tb, rb, ab);
      && |c.tags| == |s.tags| + 6 && c.tags[..|s.tags|] == s.tags
      && TagIds(c.tags) == TagIds(s.tags) + [tb, tb + 1, tb + 2, tb + 3, tb + 4, tb + 5]
    ensures var c := Commit(s, ib, tb, rb, ab);
      && |c.resources| == |s.resources| + 4 && c.resources[..|s.resources|] == s.resources
      && ResourceIds(c.resources) == ResourceIds(s.resources) + [rb, rb + 1, rb + 2, rb + 3]
    ensures var c := Commit(s, ib, tb, rb, ab);
      && |c.authors| == |s.authors| + 3 && c.authors[..|s.authors|] == s.authors
      && AuthorIds(c.authors) == AuthorIds(s.authors) + [ab, ab + 1, ab + 2]
    ensures var c := Commit(s, ib, tb, rb, ab);
      && |c.tagLinks| == |s.tagLinks| + 11 && c.tagLinks[..|s.tagLinks|] == s.tagLinks
      && |c.authorLinks| == |s.authorLinks| + 5 && c.authorLinks[..|s.authorLinks|] == s.authorLinks
  {
    SeededImageIds(s.images, ib);
    SeededTagIds(s.tags, tb);
    SeededResourceIds(s.resources, rb, ib);
    SeededAuthorIds(s.authors, ab);
  }

  /** The commit as the seed performs it: each table numbered from a fresh id. */
  function SeedInsert(s: Store): (r: Store)
    ensures forall x, k :: x in ImageIds(s.images) && |s.images| <= k < |r.images| ==> x < r.images[k].id
    ensures forall x, k :: x in TagIds(s.tags) && |s.tags| <= k < |r.tags| ==> x < r.tags[k].id
    ensures forall x, k :: x in ResourceIds(s.resources) && |s.resources| <= k < |r.resources| ==> x < r.resources[k].id
    ensures forall x, k :: x in AuthorIds(s.authors) && |s.authors| <= k < |r.authors| ==> x < r.authors[k].id
  {
    ImagesAppendedAbove(s.images, FreshId(ImageIds(s.images)));
    TagsAppendedAbove(s.tags, FreshId(TagIds(s.tags)));
    ResourcesAppendedAbove(s.resources, FreshId(ResourceIds(s.resources)), FreshId(ImageIds(s.images)));
    AuthorsAppendedAbove(s.authors, FreshId(AuthorIds(s.authors)));
    Commit(s, FreshId(ImageIds(s.images)), FreshId(TagIds(s.tags)),
      FreshId(ResourceIds(s.resources)), FreshId(AuthorIds(s.authors)))
  }

  /** Every id and resource reference already in `s` lies below the bases,
      so no existing row can be confused with a seeded one. */
  predicate Below(s: Store, imageBase: int, tagBase: int, resourceBase: int, authorBase: int) {
    && (forall x :: x in s.images ==> x.id < imageBase)
    && (forall x :: x in s.tags ==> x.id < tagBase)
    && (forall x :: x in s.resources ==> x.id < resourceBase)
    && (forall x :: x in s.resources && x.imageId.Some? ==> x.imageId.value < imageBase)
    && (forall x :: x in s.authors ==> x.id < authorBase)
    && (forall l :: l in s.tagLinks ==> l.resourceId < resourceBase && l.tagId < tagBase)
    && (forall l :: l in s.authorLinks ==> l.resourceId < resourceBase && l.authorId < authorBase)
  }

  /** In a store whose references resolve, fresh ids lie above everything. */
  lemma FreshBasesBelow(s: Store)
    requires ForeignKeysResolve(s)
    ensures Below(s, FreshId(ImageIds(s.images)), FreshId(TagIds(s.tags)),
      FreshId(ResourceIds(s.resources)), FreshId(AuthorIds(s.authors)))
  {
    BelowFresh(ImageIds(s.images));
    BelowFresh(TagIds(s.tags));
    BelowFresh(ResourceIds(s.resources));
    BelowFresh(AuthorIds(s.authors));
    forall x | x in s.images ensures x.id in ImageIds(s.images) {
      var k :| 0 <= k < |s.images| && s.images[k] == x;
      assert ImageIds(s.images)[k] == x.id;
    }
    forall x | x in s.tags ensures x.id in TagIds(s.tags) {
      var k :| 0 <= k < |s.tags| && s.tags[k] == x;
      assert TagIds(s.tags)[k] == x.id;
    }
    forall x | x in s.resources ensures x.id in ResourceIds(s.resources) {
      var k :| 0 <= k < |s.resources| && s.resources[k] == x;
      assert ResourceIds(s.resources)[k] == x.id;
    }
    forall x | x in s.authors ensures x.id in AuthorIds(s.authors) {
      var k :| 0 <= k < |s.authors| && s.authors[k] == x;
      assert AuthorIds(s.authors)[k] == x.id;
    }
  }

  lemma ImagesAppendedAbove(images: seq<Image>, b: int)
    requires b == FreshId(ImageIds(images))
    ensures forall x, k :: x in ImageIds(images) && |images| <= k < |images + SeedImages(b)| ==> x < (images + SeedImages(b))[k].id
  {
    BelowFresh(ImageIds(images));
    forall x, k | x in ImageIds(images) && |images| <= k < |images + SeedImages(b)|
      ensures x < (images + SeedImages(b))[k].id
    {
      assert (images + SeedImages(b))[k] == SeedImages(b)[k - |images|];
    }
  }

  lemma TagsAppendedAbove(tags: seq<Tag>, b: int)
    requires b == FreshId(TagIds(tags))
    ensures forall x, k :: x in TagIds(tags) && |tags| <= k < |tags + SeedTags(b)| ==> x < (tags + SeedTags(b))[k].id
  {
    BelowFresh(TagIds(tags));
    forall x, k | x in TagIds(tags) && |tags| <= k < |tags + SeedTags(b)|
      ensures x < (tags + SeedTags(b))[k].id
    {
      assert (tags + SeedTags(b))[k] == SeedTags(b)[k - |tags|];
    }
  }

  lemma ResourcesAppendedAbove(resources: seq<Resource>, b: int, imageBase: int)
    requires b == FreshId(ResourceIds(resources))
    ensures forall x, k :: x in ResourceIds(resources) && |resources| <= k < |resources + SeedResources(b, imageBase)| ==>
      x < (resources + SeedResources(b, imageBase))[k].id
  {
    BelowFresh(ResourceIds(resources));
    forall x, k | x in ResourceIds(resources) && |resources| <= k < |resources + SeedResources(b, imageBase)|
      ensures x < (resources + SeedResources(b, imageBase))[k].id
    {
      assert (resources + SeedResources(b, imageBase))[k] == SeedResources(b, imageBase)[k - |resources|];
    }
  }

  lemma AuthorsAppendedAbove(authors: seq<Author>, b: int)
    requires b == FreshId(AuthorIds(authors))
    ensures forall x, k :: x in AuthorIds(authors) && |authors| <= k < |authors + SeedAuthors(b)| ==> x < (authors + SeedAuthors(b))[k].id
  {
    BelowFresh(AuthorIds(authors));
    forall x, k | x in AuthorIds(authors) && |authors| <= k < |authors + SeedAuthors(b)|
      ensures x < (authors + SeedAuthors(b))[k].id
    {
      assert (authors + SeedAuthors(b))[k] == SeedAuthors(b)[k - |authors|];
    }
  }

  /** Seeding twice is seeding once: the first run inserts the sentinel. */
  lemma SeedIdempotent(s: Store)
    ensures CreateTestData(CreateTestData(s)) == CreateTestData(s)
  {
  }

  /** Old keys stay below the seed's base, so old and seeded keys differ. */
  lemma {:induction false} AppendedKeysUnique(existing: seq<int>, added: seq<int>, base: int)
    requires NoDuplicates(existing) && NoDuplicates(added)
    requires base == FreshId(existing)
    requires forall j :: 0 <= j < |added| ==> base <= added[j]
    ensures NoDuplicates(existing + added)
  {
    NoDuplicatesConcat(existing, added);
  }

  /** Every id already in use is below the id the seed numbers from. */
  lemma BelowFresh(ids: seq<int>)
    ensures forall x :: x in ids ==> x < FreshId(ids)
  {
  }

  lemma SeededImageIds(images: seq<Image>, b: int)
    ensures ImageIds(images + SeedImages(b)) == ImageIds(images) + [b, b + 1, b + 2, b + 3]
  {
    assert ImageIds(images + SeedImages(b)) == ImageIds(images) + [b, b + 1, b + 2, b + 3];
  }

  lemma SeededTagIds(tags: seq<Tag>, b: int)
    ensures TagIds(tags + SeedTags(b)) == TagIds(tags) + [b, b + 1, b + 2, b + 3, b + 4, b + 5]
  {
    assert TagIds(tags + SeedTags(b)) == TagIds(tags) + [b, b + 1, b + 2, b + 3, b + 4, b + 5];
  }

  lemma SeededResourceIds(resources: seq<Resource>, b: int, imageBase: int)
    ensures ResourceIds(resources + SeedResources(b, imageBase)) == ResourceIds(resources) + [b, b + 1, b + 2, b + 3]
  {
    assert ResourceIds(resources + SeedResources(b, imageBase)) == ResourceIds(resources) + [b, b + 1, b + 2, b + 3];
  }

  lemma SeededAuthorIds(authors: seq<Author>, b: int)
    ensures AuthorIds(authors + SeedAuthors(b)) == AuthorIds(authors) + [b, b + 1, b + 2]
  {
    assert AuthorIds(authors + SeedAuthors(b)) == AuthorIds(authors) + [b, b + 1, b + 2];
  }

  lemma ImageKeysStayUnique(images: seq<Image>)
    requires NoDuplicates(ImageIds(images))
    ensures NoDuplicates(ImageIds(images + SeedImages(FreshId(ImageIds(images)))))
  {
    var b := FreshId(ImageIds(images));
    SeededImageIds(images, b);
    AppendedKeysUnique(ImageIds(images), [b, b + 1, b + 2, b + 3], b);
  }

  lemma TagKeysStayUnique(tags: seq<Tag>)
    requires NoDuplicates(TagIds(tags))
    ensures NoDuplicates(TagIds(tags + SeedTags(FreshId(TagIds(tags)))))
  {
    var b := FreshId(TagIds(tags));
    SeededTagIds(tags, b);
    AppendedKeysUnique(TagIds(tags), [b, b + 1, b + 2, b + 3, b + 4, b + 5], b);
  }

  lemma ResourceKeysStayUnique(resources: seq<Resource>, imageBase: int)
    requires NoDuplicates(ResourceIds(resources))
    ensures NoDuplicates(ResourceIds(resources + SeedResources(FreshId(ResourceIds(resources)), imageBase)))
  {
    var b := FreshId(ResourceIds(resources));
    SeededResourceIds(resources, b, imageBase);
    AppendedKeysUnique(ResourceIds(resources), [b, b + 1, b + 2, b + 3], b);
  }

  lemma AuthorKeysStayUnique(authors: seq<Author>)
    requires NoDuplicates(AuthorIds(authors))
    ensures NoDuplicates(AuthorIds(authors + SeedAuthors(FreshId(AuthorIds(authors)))))
  {
    var b := FreshId(AuthorIds(authors));
    SeededAuthorIds(authors, b);
    AppendedKeysUnique(AuthorIds(authors), [b, b + 1, b + 2], b);
  }

  lemma SeedKeysUnique(s: Store)
    requires KeysUnique(s) && !HasAuthorNamed(s, Sentinel)
    ensures KeysUnique(CreateTestData(s))
  {
    ImageKeysStayUnique(s.images);
    TagKeysStayUnique(s.tags);
    ResourceKeysStayUnique(s.resources, FreshId(ImageIds(s.images)));
    AuthorKeysStayUnique(s.authors);
  }

  lemma TagLinksStayUnique(links: seq<TagLink>, resourceIds: seq<int>, tagBase: int)
    requires NoDuplicates(links)
    requires forall l :: l in links ==> l.resourceId in resourceIds
    ensures NoDuplicates(links + SeedTagLinks(FreshId(resourceIds), tagBase))
  {
    var added := SeedTagLinks(FreshId(resourceIds), tagBase);
    BelowFresh(resourceIds);
    assert forall i, j :: 0 <= i < |links| && 0 <= j < |added| ==> links[i].resourceId < added[j].resourceId;
    NoDuplicatesConcat(links, added);
  }

  lemma AuthorLinksStayUnique(links: seq<AuthorLink>, resourceIds: seq<int>, authorBase: int)
    requires NoDuplicates(links)
    requires forall l :: l in links ==> l.resourceId in resourceIds
    ensures NoDuplicates(links + SeedAuthorLinks(FreshId(resourceIds), authorBase))
  {
    var added := SeedAuthorLinks(FreshId(resourceIds), authorBase);
    BelowFresh(resourceIds);
    assert forall i, j :: 0 <= i < |links| && 0 <= j < |added| ==> links[i].resourceId < added[j].resourceId;
    NoDuplicatesConcat(links, added);
  }

  lemma SeedLinksUnique(s: Store)
    requires LinksUnique(s) && ForeignKeysResolve(s) && !HasAuthorNamed(s, Sentinel)
    ensures LinksUnique(CreateTestData(s))
  {
    TagLinksStayUnique(s.tagLinks, ResourceIds(s.resources), FreshId(TagIds(s.tags)));
    AuthorLinksStayUnique(s.authorLinks, ResourceIds(s.resources), FreshId(AuthorIds(s.authors)));
  }

  lemma SeedTagLinksResolve(s: Store)
    requires TagLinksResolve(s)
    ensures TagLinksResolve(SeedInsert(s))
  {
    var rb := FreshId(ResourceIds(s.resources));
    var tb := FreshId(TagIds(s.tags));
    var r := SeedInsert(s);
    SeededResourceIds(s.resources, rb, FreshId(ImageIds(s.images)));
    SeededTagIds(s.tags, tb);
    assert forall l :: l in SeedTagLinks(rb, tb) ==>
      l.resourceId in [rb, rb + 1, rb + 2, rb + 3] && l.tagId in [tb, tb + 1, tb + 2, tb + 3, tb + 4, tb + 5];
  }

  lemma SeedAuthorLinksResolve(s: Store)
    requires AuthorLinksResolve(s)
    ensures AuthorLinksResolve(SeedInsert(s))
  {
    var rb := FreshId(ResourceIds(s.resources));
    var ab := FreshId(AuthorIds(s.authors));
    SeededResourceIds(s.resources, rb, FreshId(ImageIds(s.images)));
    SeededAuthorIds(s.authors, ab);
    assert forall l :: l in SeedAuthorLinks(rb, ab) ==>
      l.resourceId in [rb, rb + 1, rb + 2, rb + 3] && l.authorId in [ab, ab + 1, ab + 2];
  }

  lemma SeedImagesResolve(s: Store)
    requires ImagesResolve(s)
    ensures ImagesResolve(SeedInsert(s))
  {
    var ib := FreshId(ImageIds(s.images));
    SeededImageIds(s.images, ib);
    assert forall r :: r in SeedResources(FreshId(ResourceIds(s.resources)), ib) ==>
      r.imageId.Some? && r.imageId.value in [ib, ib + 1, ib + 2, ib + 3];
  }

  lemma SeedForeignKeys(s: Store)
    requires ForeignKeysResolve(s) && !HasAuthorNamed(s, Sentinel)
    ensures ForeignKeysResolve(CreateTestData(s))
  {
    SeedTagLinksResolve(s);
    SeedAuthorLinksResolve(s);
    SeedImagesResolve(s);
  }

  lemma SeedThumbnailsUnique(s: Store)
    requires ThumbnailsUnique(s) && ForeignKeysResolve(s) && !HasAuthorNamed(s, Sentinel)
    ensures ThumbnailsUnique(CreateTestData(s))
  {
    var r := CreateTestData(s);
    var ib := FreshId(ImageIds(s.images));
    var n := |s.resources|;
    BelowFresh(ImageIds(s.images));
    forall i, j | 0 <= i < j < |r.resources| && r.resources[i].imageId.Some?
      ensures r.resources[i].imageId != r.resources[j].imageId
    {
      if j < n {
        assert r.resources[i] == s.resources[i] && r.resources[j] == s.resources[j];
      } else if i < n {
        assert r.resources[i] in s.resources;
        assert r.resources[i].imageId.value < ib;
      }
    }
  }

  /** Seeding a well-formed store yields a well-formed store: every seeded
      link and thumbnail refers to a row inserted in the same commit. */
  lemma SeedPreservesWellFormed(s: Store)
    requires WellFormed(s)
    ensures WellFormed(CreateTestData(s))
  {
    if !HasAuthorNamed(s, Sentinel) {
      SeedKeysUnique(s);
      SeedLinksUnique(s);
      SeedForeignKeys(s);
      SeedThumbnailsUnique(s);
    }
  }

  /** On an empty database the seed yields exactly the demo catalogue, and
      it is well formed. */
  lemma SeedFreshDatabase()
    ensures CreateTestData(EmptyStore)
      == Store(SeedImages(1), SeedResources(1, 1), SeedTags(1), SeedAuthors(1), SeedTagLinks(1, 1), SeedAuthorLinks(1, 1))
    ensures var r := CreateTestData(EmptyStore);
      && WellFormed(r)
      && |r.images| == 4 && |r.tags| == 6 && |r.resources| == 4 && |r.authors| == 3
      && |r.tagLinks| == 11 && |r.authorLinks| == 5
  {
    SeedPreservesWellFormed(EmptyStore);
  }

  /** The database after `n` start-ups from an empty one: every start-up
      runs the seed once, and no other modelled code writes. */
  function StartUps(n: nat): Store {
    if n == 0 then EmptyStore else CreateTestData(StartUps(n - 1))
  }

  /** Every store the program leaves behind is the demo catalogue and is
      well formed, so its references resolve whether or not the database
      enforces its foreign keys. */
  lemma {:induction false} StartUpsWellFormed(n: nat)
    ensures WellFormed(StartUps(n))
    ensures n >= 1 ==> StartUps(n) == CreateTestData(EmptyStore)
  {
    if n == 1 {
      SeedFreshDatabase();
    } else if n > 1 {
      StartUpsWellFormed(n - 1);
      var demo := CreateTestData(EmptyStore);
      assert StartUps(n - 1) == demo;
      SeedIdempotent(EmptyStore);
      assert StartUps(n) == CreateTestData(demo) == demo;
    }
  }

  /** Looking up a seeded image id finds the seeded image, since every
      older image id is smaller. */
  lemma FindSeededImage(images: seq<Image>, imageBase: int, i: nat)
    requires i < 4
    requires forall x :: x in images ==> x.id < imageBase
    ensures FindImage(images + SeedImages(imageBase), imageBase + i) == Some(SeedImages(imageBase)[i])
  {
    assert (images + SeedImages(imageBase))[|images| + i].id == imageBase + i;
  }

  /** Seeded guide i's image id finds seeded image i. */
  lemma SeededImageOf(images: seq<Image>, resources: seq<Resource>, imageBase: int, resourceBase: int, i: nat)
    requires i < 4
    requires forall x :: x in images ==> x.id < imageBase
    ensures var res := (resources + SeedResources(resourceBase, imageBase))[|resources| + i];
      && res.imageId == Some(imageBase + i)
      && FindImage(images + SeedImages(imageBase), imageBase + i) == Some((images + SeedImages(imageBase))[|images| + i])
  {
    var res := (resources + SeedResources(resourceBase, imageBase))[|resources| + i];
    assert res.imageId == Some(imageBase + i) by {
      assert res == SeedResources(resourceBase, imageBase)[i];
      SeedShape(resourceBase, imageBase);
    }
    assert (images + SeedImages(imageBase))[|images| + i] == SeedImages(imageBase)[i];
    FindSeededImage(images, imageBase, i);
  }

  /** The back-reference of a seeded image finds its seeded guide, since
      every older thumbnail id is smaller. */
  lemma FindSeededThumbnail(resources: seq<Resource>, resourceBase: int, imageBase: int, i: nat)
    requires i < 4
    requires forall x :: x in resources && x.imageId.Some? ==> x.imageId.value < imageBase
    ensures FindThumbnail(resources + SeedResources(resourceBase, imageBase), imageBase + i)
      == Some(SeedResources(resourceBase, imageBase)[i])
  {
    assert (resources + SeedResources(resourceBase, imageBase))[|resources| + i].imageId == Some(imageBase + i);
  }

  /** The ids and thumbnails of the seeded rows. */
  lemma SeedShape(resourceBase: int, imageBase: int)
    ensures forall i :: 0 <= i < 4 ==>
      SeedResources(resourceBase, imageBase)[i].id == resourceBase + i
      && SeedResources(resourceBase, imageBase)[i].imageId == Some(imageBase + i)
    ensures forall i :: 0 <= i < 4 ==> SeedImages(imageBase)[i].id == imageBase + i
  {
  }
}
