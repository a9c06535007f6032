/** What the seeded catalogue looks like through its relationships: which
    image each guide shows, who is credited on it and how it is tagged. */
module SeedCatalogue {
  import opened Wrappers
  import opened Seqs
  import opened Models
  import opened Seed

  // ---------------------------------------------------------------------
  // Short lists of seeded rows, filtered element by element
  // ---------------------------------------------------------------------

  /** Filtering a three-element list, element by element. */
  lemma FilterOfThree<T(!new)>(x0: T, x1: T, x2: T, p: T -> bool)
    ensures Filter([x0, x1, x2], p)
      == (if p(x0) then [x0] else []) + (if p(x1) then [x1] else []) + (if p(x2) then [x2] else [])
  {
    assert [x0, x1, x2] == [x0] + [x1] + [x2];
    FilterConcat([x0] + [x1], [x2], p);
    FilterConcat([x0], [x1], p);
    FilterSingleton(x0, p);
    FilterSingleton(x1, p);
    FilterSingleton(x2, p);
  }

  /** Filtering a six-element list, three elements at a time. */
  lemma FilterInHalves<T(!new)>(xs: seq<T>, p: T -> bool)
    requires |xs| == 6
    ensures Filter(xs, p) == Filter([xs[0], xs[1], xs[2]], p) + Filter([xs[3], xs[4], xs[5]], p)
  {
    assert xs[..3] == [xs[0], xs[1], xs[2]];
    assert xs[3..] == [xs[3], xs[4], xs[5]];
    assert xs == xs[..3] + xs[3..];
    FilterConcat(xs[..3], xs[3..], p);
  }

  // ---------------------------------------------------------------------
  // Thumbnails
  // ---------------------------------------------------------------------

  /** Seeded guide i shows seeded image i. */
  lemma CommitImage(s: Store, ib: int, tb: int, rb: int, ab: int, i: nat)
    requires Below(s, ib, tb, rb, ab)
    requires i < 4
    ensures var r := Commit(s, ib, tb, rb, ab);
      ImageOf(r, r.resources[|s.resources| + i]) == Some(r.images[|s.images| + i])
  {
    SeededImageOf(s.images, s.resources, ib, rb, i);
  }

  /** The back-reference of seeded image i is seeded guide i. */
  lemma CommitThumbnail(s: Store, ib: int, tb: int, rb: int, ab: int, i: nat)
    requires Below(s, ib, tb, rb, ab)
    requires i < 4
    ensures var r := Commit(s, ib, tb, rb, ab);
      ThumbnailOf(r, r.images[|s.images| + i]) == Some(r.resources[|s.resources| + i])
  {
    var r := Commit(s, ib, tb, rb, ab);
    SeedShape(rb, ib);
    FindSeededThumbnail(s.resources, rb, ib, i);
    assert r.resources[|s.resources| + i] == SeedResources(rb, ib)[i];
    assert r.images[|s.images| + i] == SeedImages(ib)[i];
  }

  /** After the seed, guide i shows image i and image i is the thumbnail of
      guide i alone: the one-to-one `Resource.image` relationship. */
  lemma SeededThumbnails(s: Store, i: nat)
    requires ForeignKeysResolve(s) && !HasAuthorNamed(s, Sentinel)
    requires i < 4
    ensures var r := CreateTestData(s);
      ImageOf(r, r.resources[|s.resources| + i]) == Some(r.images[|s.images| + i])
      && ThumbnailOf(r, r.images[|s.images| + i]) == Some(r.resources[|s.resources| + i])
  {
    var ib, tb := FreshId(ImageIds(s.images)), FreshId(TagIds(s.tags));
    var rb, ab := FreshId(ResourceIds(s.resources)), FreshId(AuthorIds(s.authors));
    FreshBasesBelow(s);
    CommitImage(s, ib, tb, rb, ab, i);
    CommitThumbnail(s, ib, tb, rb, ab, i);
  }

  // ---------------------------------------------------------------------
  // Credits
  // ---------------------------------------------------------------------

  /** No author that existed before the commit is credited on a seeded
      guide, so its author list is drawn from the seeded authors only. */
  lemma GuideAuthorsAreSeeded(s: Store, ib: int, tb: int, rb: int, ab: int, i: nat)
    requires Below(s, ib, tb, rb, ab)
    requires i < 4
    ensures var r := Commit(s, ib, tb, rb, ab);
      var res := r.resources[|s.resources| + i];
      AuthorsOf(r, res) == Filter(SeedAuthors(ab), CreditsOn(r, res))
  {
    var r := Commit(s, ib, tb, rb, ab);
    var res := r.resources[|s.resources| + i];
    assert res.id == rb + i by {
      SeedShape(rb, ib);
    }
    forall a | a in s.authors ensures !CreditsOn(r, res)(a) {
      CreditsOnApplied(r, res, a);
    }
    FilterAfterNone(s.authors, SeedAuthors(ab), CreditsOn(r, res));
  }

  /** Seeded author k is credited on seeded guide i exactly when the seeded
      junction rows say so. */
  lemma SeededCredit(s: Store, ib: int, tb: int, rb: int, ab: int, i: nat, k: nat)
    requires Below(s, ib, tb, rb, ab)
    requires i < 4 && k < 3
    ensures var r := Commit(s, ib, tb, rb, ab);
      var res := r.resources[|s.resources| + i];
      CreditsOn(r, res)(SeedAuthors(ab)[k]) <==> SeedCredited(i, k)
  {
    var r := Commit(s, ib, tb, rb, ab);
    var res := r.resources[|s.resources| + i];
    var a := SeedAuthors(ab)[k];
    assert res.id == rb + i by {
      assert res == SeedResources(rb, ib)[i];
      SeedShape(rb, ib);
    }
    assert a.id == ab + k;
    assert AuthorLink(rb + i, ab + k) !in s.authorLinks;
    CreditsOnApplied(r, res, a);
    SeedAuthorLinksTable(rb, ab, i, k);
  }

  /** `SeededCredit` for each of the three seeded authors. */
  lemma SeededCredits3(s: Store, ib: int, tb: int, rb: int, ab: int, i: nat)
    requires Below(s, ib, tb, rb, ab)
    requires i < 4
    ensures var r := Commit(s, ib, tb, rb, ab);
      var p := CreditsOn(r, r.resources[|s.resources| + i]);
      var m := |s.authors|;
      && (p(r.authors[m]) <==> SeedCredited(i, 0))
      && (p(r.authors[m + 1]) <==> SeedCredited(i, 1))
      && (p(r.authors[m + 2]) <==> SeedCredited(i, 2))
  {
    var r := Commit(s, ib, tb, rb, ab);
    var m := |s.authors|;
    assert r.authors[m] == SeedAuthors(ab)[0] && r.authors[m + 1] == SeedAuthors(ab)[1] && r.authors[m + 2] == SeedAuthors(ab)[2];
    SeededCredit(s, ib, tb, rb, ab, i, 0);
    SeededCredit(s, ib, tb, rb, ab, i, 1);
    SeededCredit(s, ib, tb, rb, ab, i, 2);
  }

  /** The author list of seeded guide i, author by author. */
  lemma GuideAuthors(s: Store, ib: int, tb: int, rb: int, ab: int, i: nat)
    requires Below(s, ib, tb, rb, ab)
    requires i < 4
    ensures var r := Commit(s, ib, tb, rb, ab);
      var m := |s.authors|;
      AuthorsOf(r, r.resources[|s.resources| + i])
        == (if SeedCredited(i, 0) then [r.authors[m]] else [])
         + (if SeedCredited(i, 1) then [r.authors[m + 1]] else [])
         + (if SeedCredited(i, 2) then [r.authors[m + 2]] else [])
  {
    var r := Commit(s, ib, tb, rb, ab);
    var res := r.resources[|s.resources| + i];
    var p := CreditsOn(r, res);
    var m := |s.authors|;
    GuideAuthorsAreSeeded(s, ib, tb, rb, ab, i);
    assert r.authors[m..] == SeedAuthors(ab);
    assert r.authors[m..] == [r.authors[m], r.authors[m + 1], r.authors[m + 2]];
    FilterOfThree(r.authors[m], r.authors[m + 1], r.authors[m + 2], p);
    SeededCredits3(s, ib, tb, rb, ab, i);
  }

  /** After the seed, the author list of demo guide i holds demo author k
      exactly when the seed credits k on i, in the order the authors were
      inserted (Midokuni on guides 0 and 2, Joexyz on 1 and 2, こいち on 3). */
  lemma SeededCredits(s: Store, i: nat)
    requires ForeignKeysResolve(s) && !HasAuthorNamed(s, Sentinel)
    requires i < 4
    ensures var r := CreateTestData(s);
      var m := |s.authors|;
      && r.authors[m].name == Sentinel && r.authors[m + 1].name == Joexyz && r.authors[m + 2].name == Koichi
      && AuthorsOf(r, r.resources[|s.resources| + i])
        == (if SeedCredited(i, 0) then [r.authors[m]] else [])
         + (if SeedCredited(i, 1) then [r.authors[m + 1]] else [])
         + (if SeedCredited(i, 2) then [r.authors[m + 2]] else [])
  {
    FreshBasesBelow(s);
    GuideAuthors(s, FreshId(ImageIds(s.images)), FreshId(TagIds(s.tags)),
      FreshId(ResourceIds(s.resources)), FreshId(AuthorIds(s.authors)), i);
  }

  /** The shared guide is credited to the first two seeded authors. */
  lemma CommitSharedGuide(s: Store, ib: int, tb: int, rb: int, ab: int)
    requires Below(s, ib, tb, rb, ab)
    ensures var r := Commit(s, ib, tb, rb, ab);
      AuthorsOf(r, r.resources[|s.resources| + 2]) == [r.authors[|s.authors|], r.authors[|s.authors| + 1]]
  {
    var r := Commit(s, ib, tb, rb, ab);
    var x, y := r.authors[|s.authors|], r.authors[|s.authors| + 1];
    GuideAuthors(s, ib, tb, rb, ab, 2);
    assert SeedCredited(2, 0) && SeedCredited(2, 1) && !SeedCredited(2, 2);
    assert [x] + [y] + [] == [x, y];
  }

  /** After the seed, the shared guide lists both Midokuni and Joexyz. */
  lemma SharedGuideCredits(s: Store)
    requires ForeignKeysResolve(s) && !HasAuthorNamed(s, Sentinel)
    ensures var r := CreateTestData(s);
      AuthorsOf(r, r.resources[|s.resources| + 2]) == [r.authors[|s.authors|], r.authors[|s.authors| + 1]]
  {
    FreshBasesBelow(s);
    CommitSharedGuide(s, FreshId(ImageIds(s.images)), FreshId(TagIds(s.tags)),
      FreshId(ResourceIds(s.resources)), FreshId(AuthorIds(s.authors)));
  }

  // ---------------------------------------------------------------------
  // Tags
  // ---------------------------------------------------------------------

  /** No tag that existed before the commit is attached to a seeded guide,
      so its tag list is drawn from the seeded tags only. */
  lemma GuideTagsAreSeeded(s: Store, ib: int, tb: int, rb: int, ab: int, i: nat)
    requires Below(s, ib, tb, rb, ab)
    requires i < 4
    ensures var r := Commit(s, ib, tb, rb, ab);
      var res := r.resources[|s.resources| + i];
      TagsOf(r, res) == Filter(SeedTags(tb), TaggedOn(r, res))
  {
    var r := Commit(s, ib, tb, rb, ab);
    var res := r.resources[|s.resources| + i];
    assert res.id == rb + i by {
      SeedShape(rb, ib);
    }
    forall t | t in s.tags ensures !TaggedOn(r, res)(t) {
      TaggedOnApplied(r, res, t);
    }
    FilterAfterNone(s.tags, SeedTags(tb), TaggedOn(r, res));
  }

  /** Seeded tag k is attached to seeded guide i exactly when the seeded
      junction rows say so. */
  lemma SeededTag(s: Store, ib: int, tb: int, rb: int, ab: int, i: nat, k: nat)
    requires Below(s, ib, tb, rb, ab)
    requires i < 4 && k < 6
    ensures var r := Commit(s, ib, tb, rb, ab);
      var res := r.resources[|s.resources| + i];
      TaggedOn(r, res)(SeedTags(tb)[k]) <==> SeedTagged(i, k)
  {
    var r := Commit(s, ib, tb, rb, ab);
    var res := r.resources[|s.resources| + i];
    var t := SeedTags(tb)[k];
    assert res.id == rb + i by {
      assert res == SeedResources(rb, ib)[i];
      SeedShape(rb, ib);
    }
    assert t.id == tb + k;
    assert TagLink(rb + i, tb + k) !in s.tagLinks;
    TaggedOnApplied(r, res, t);
    SeedTagLinksTable(rb, tb, i, k);
  }

  /** The first three seeded tags (EN, CN, JP) on seeded guide i. */
  lemma GuideTagsLow(s: Store, ib: int, tb: int, rb: int, ab: int, i: nat)
    requires Below(s, ib, tb, rb, ab)
    requires i < 4
    ensures var r := Commit(s, ib, tb, rb, ab);
      var p := TaggedOn(r, r.resources[|s.resources| + i]);
      var m := |s.tags|;
      Filter([r.tags[m], r.tags[m + 1], r.tags[m + 2]], p)
        == (if SeedTagged(i, 0) then [r.tags[m]] else [])
         + (if SeedTagged(i, 1) then [r.tags[m + 1]] else [])
         + (if SeedTagged(i, 2) then [r.tags[m + 2]] else [])
  {
    var r := Commit(s, ib, tb, rb, ab);
    var m := |s.tags|;
    FilterOfThree(r.tags[m], r.tags[m + 1], r.tags[m + 2], TaggedOn(r, r.resources[|s.resources| + i]));
    SeededTag(s, ib, tb, rb, ab, i, 0);
    SeededTag(s, ib, tb, rb, ab, i, 1);
    SeededTag(s, ib, tb, rb, ab, i, 2);
    assert r.tags[m] == SeedTags(tb)[0] && r.tags[m + 1] == SeedTags(tb)[1] && r.tags[m + 2] == SeedTags(tb)[2];
  }

  /** The last three seeded tags (KR, Beginner-focused, Advanced) on
      seeded guide i. */
  lemma GuideTagsHigh(s: Store, ib: int, tb: int, rb: int, ab: int, i: nat)
    requires Below(s, ib, tb, rb, ab)
    requires i < 4
    ensures var r := Commit(s, ib, tb, rb, ab);
      var p := TaggedOn(r, r.resources[|s.resources| + i]);
      var m := |s.tags|;
      Filter([r.tags[m + 3], r.tags[m + 4], r.tags[m + 5]], p)
        == (if SeedTagged(i, 3) then [r.tags[m + 3]] else [])
         + (if SeedTagged(i, 4) then [r.tags[m + 4]] else [])
         + (if SeedTagged(i, 5) then [r.tags[m + 5]] else [])
  {
    var r := Commit(s, ib, tb, rb, ab);
    var m := |s.tags|;
    FilterOfThree(r.tags[m + 3], r.tags[m + 4], r.tags[m + 5], TaggedOn(r, r.resources[|s.resources| + i]));
    SeededTag(s, ib, tb, rb, ab, i, 3);
    SeededTag(s, ib, tb, rb, ab, i, 4);
    SeededTag(s, ib, tb, rb, ab, i, 5);
    assert r.tags[m + 3] == SeedTags(tb)[3] && r.tags[m + 4] == SeedTags(tb)[4] && r.tags[m + 5] == SeedTags(tb)[5];
  }

  /** The tag list of seeded guide i, tag by tag. */
  lemma GuideTags(s: Store, ib: int, tb: int, rb: int, ab: int, i: nat)
    requires Below(s, ib, tb, rb, ab)
    requires i < 4
    ensures var r := Commit(s, ib, tb, rb, ab);
      var m := |s.tags|;
      TagsOf(r, r.resources[|s.resources| + i])
        == ((if SeedTagged(i, 0) then [r.tags[m]] else [])
          + (if SeedTagged(i, 1) then [r.tags[m + 1]] else [])
          + (if SeedTagged(i, 2) then [r.tags[m + 2]] else []))
         + ((if SeedTagged(i, 3) then [r.tags[m + 3]] else [])
          + (if SeedTagged(i, 4) then [r.tags[m + 4]] else [])
          + (if SeedTagged(i, 5) then [r.tags[m + 5]] else []))
  {
    var r := Commit(s, ib, tb, rb, ab);
    var res := r.resources[|s.resources| + i];
    var p := TaggedOn(r, res);
    var m := |s.tags|;
    GuideTagsAreSeeded(s, ib, tb, rb, ab, i);
    assert r.tags[m..] == SeedTags(tb);
    FilterInHalves(r.tags[m..], p);
    GuideTagsLow(s, ib, tb, rb, ab, i);
    GuideTagsHigh(s, ib, tb, rb, ab, i);
  }

  /** After the seed, the tag list of demo guide i holds demo tag k exactly
      when the seed attaches k to i, in the order the tags were inserted
      (EN and CN on every guide, Beginner-focused on guides 1 and 3, KR on
      guide 2, JP on guide 3). */
  lemma SeededTags(s: Store, i: nat)
    requires ForeignKeysResolve(s) && !HasAuthorNamed(s, Sentinel)
    requires i < 4
    ensures var r := CreateTestData(s);
      var m := |s.tags|;
      TagsOf(r, r.resources[|s.resources| + i])
        == ((if SeedTagged(i, 0) then [r.tags[m]] else [])
          + (if SeedTagged(i, 1) then [r.tags[m + 1]] else [])
          + (if SeedTagged(i, 2) then [r.tags[m + 2]] else []))
         + ((if SeedTagged(i, 3) then [r.tags[m + 3]] else [])
          + (if SeedTagged(i, 4) then [r.tags[m + 4]] else [])
          + (if SeedTagged(i, 5) then [r.tags[m + 5]] else []))
  {
    FreshBasesBelow(s);
    GuideTags(s, FreshId(ImageIds(s.images)), FreshId(TagIds(s.tags)),
      FreshId(ResourceIds(s.resources)), FreshId(AuthorIds(s.authors)), i);
  }

  /** The seeded tags, in insertion order. */
  lemma SeededTagNames(s: Store)
    requires !HasAuthorNamed(s, Sentinel)
    ensures var r := CreateTestData(s);
      var m := |s.tags|;
      && r.tags[m].name == EN && r.tags[m + 1].name == CN && r.tags[m + 2].name == JP
      && r.tags[m + 3].name == KR && r.tags[m + 4].name == BeginnerFocused && r.tags[m + 5].name == Advanced
  {
    var m := |s.tags|;
    assert CreateTestData(s).tags[m..] == SeedTags(FreshId(TagIds(s.tags)));
  }

  /** No junction row uses the seeded Advanced tag. */
  lemma CommitAdvancedUnused(s: Store, ib: int, tb: int, rb: int, ab: int)
    requires Below(s, ib, tb, rb, ab)
    ensures var r := Commit(s, ib, tb, rb, ab);
      RelatedResources(r, r.tags[|s.tags| + 5]) == []
  {
    var r := Commit(s, ib, tb, rb, ab);
    var t := r.tags[|s.tags| + 5];
    assert t.id == tb + 5;
    forall res | res in r.resources ensures !CarriesTag(r, t)(res) {
      CarriesTagApplied(r, t, res);
    }
  }

  /** The seed creates the Advanced tag without attaching it to any guide,
      so its `related_resources` list is empty. */
  lemma SeededAdvancedUnused(s: Store)
    requires ForeignKeysResolve(s) && !HasAuthorNamed(s, Sentinel)
    ensures var r := CreateTestData(s);
      r.tags[|s.tags| + 5].name == Advanced && RelatedResources(r, r.tags[|s.tags| + 5]) == []
  {
    FreshBasesBelow(s);
    CommitAdvancedUnused(s, FreshId(ImageIds(s.images)), FreshId(TagIds(s.tags)),
      FreshId(ResourceIds(s.resources)), FreshId(AuthorIds(s.authors)));
  }

  /** The seed never looks tags up by name: a store that already has a tag
      called EN ends up with two distinct EN rows. */
  lemma SeedAddsSecondTagOfSameName(s: Store, k: nat)
    requires !HasAuthorNamed(s, Sentinel)
    requires k < |s.tags| && s.tags[k].name == EN
    ensures var r := CreateTestData(s);
      && r.tags[k].name == EN && r.tags[|s.tags|].name == EN
      && r.tags[k].id != r.tags[|s.tags|].id
  {
    BelowFresh(TagIds(s.tags));
    assert TagIds(s.tags)[k] == s.tags[k].id;
  }
}
