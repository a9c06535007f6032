# A verified model of the guide catalogue API

The service keeps a small relational catalogue of guides. Guides are called
*resources*. Each has authors, tags and an optional thumbnail *image*. The
service lists the guides with optional author-name and tag-name filters and a
page window. This project models four parts of it as pure functions over an
immutable `Store` value and proves what they promise:

- **Schema** (`models.dfy`, module `Models`):
  - the four entity tables and the two junction tables;
  - a `WellFormed` predicate: unique keys, unique link pairs, resolving foreign keys, and at most one resource per thumbnail;
  - the relationship views `Resource.authors`, `Resource.tags`, `Resource.image` and their back-references;
  - the `ResourceWithAuthorsAndTags` projection.
- **Listing** (`listing.dfy`, module `Listing`):
  - `read_resources` as the handler assembles it: the five-table inner join with `DISTINCT`, an OR-ed where-clause of name comparisons (exact string equality), offset/limit, and four `if` statements where a later branch overwrites an earlier one;
  - the `{data, count}` envelope and the `le=100` bound on `limit`.
  - A reference definition, `Matching`, says per resource what each filter combination selects. Lemmas connect the handler to it.
- **Seed** (`seed.dfy`, `seed_catalogue.dfy`, modules `Seed` and `SeedCatalogue`):
  - `create_test_data` as a store transition, guarded by the sentinel author name "Midokuni";
  - the demo catalogue it inserts, and what that catalogue looks like through the relationships.
- **Item router** (`items.dfy`, module `Items`): the module-level item list with read, echo, append and edit-first-match handlers. The process's list objects are a heap of mutable lists addressed by reference. The handlers' copies are therefore real allocations, and the stored list's contents after any run of requests are proved, not assumed.

Helpers live in two more files:

- `wrappers.dfy` (`Option`, and `Result` with an HTTP status and detail).
- `seqs.dfy`: `Filter`, SQL-style `Distinct` keeping first occurrences, the offset/limit `Window`, and `MapSeq`.

Tables are sequences of rows in storage order. Junction tables are sequences
of pairs whose uniqueness is part of `WellFormed`, so that the seed must
show it keeps them unique. An autoincrement key hands out one more than the
largest id in use (`Models.FreshId`).

No modelled source file rewrites image URLs, so listed images carry their
stored URL.

## Model

| member | source | states |
|---|---|---|
| Models.KeysUnique | core/models.py:44-45 | every entity table's integer primary key is unique (also lines 79, 127, 158) |
| Models.LinksUnique | core/models.py:6-15 | each junction table's (resource id, other id) pair is its composite primary key, so no pair appears twice |
| Models.ForeignKeysResolve | core/models.py:6-15 | every junction row names an existing resource and tag or author, and a resource's image id is null or names an image (also line 80) |
| Models.ThumbnailsUnique | core/models.py:47-49 | `uselist=False` on the back-reference: no two resources show the same image |
| Models.WellFormed | core/models.py:78-90 | the conjunction of the four constraints above, the invariant the seed must keep |
| Models.FreshId | core/db.py:136-150 | the id an autoincrement key hands out is at least 1 and above every id in use |
| Models.AuthorsOf | core/models.py:82-84 | an author is in `Resource.authors` exactly when a resource-author link row joins them |
| Models.CreditedResources | core/models.py:160-162 | a resource is in `Author.credited_resources` exactly when a link row joins them |
| Models.TagsOf | core/models.py:85-87 | a tag is in `Resource.tags` exactly when a resource-tag link row joins them |
| Models.RelatedResources | core/models.py:129-131 | a resource is in `Tag.related_resources` exactly when a link row joins them |
| Models.RelationshipViewsAgree | core/models.py:82-87 | a ∈ r.authors ⇔ r ∈ a.credited_resources and t ∈ r.tags ⇔ r ∈ t.related_resources: both sides read one junction table |
| Models.ImageOf | core/models.py:80 | `Resource.image` is absent for a null image id, present whenever the id names a stored image, and then a stored image whose id is the foreign key |
| Models.ThumbnailOf | core/models.py:47-49 | the scalar back-reference is a resource whose image id is this image's id, and is absent only when no resource points at the image |
| Models.ImageKeyIdentifies | core/models.py:44-45 | with unique primary keys, two image rows with the same id are the same row |
| Models.ThumbnailIdentifies | core/models.py:88-90 | with `uselist=False`, two resources showing the same image are the same resource |
| Models.ImageAndThumbnailAgree | core/models.py:88-90 | in a well-formed store, r.image == img exactly when img.resource_thumbnail == r |
| Models.Project | core/models.py:93-97 | the projection keeps id, title, description and url; it loads exactly the linked authors and tags; its image is present whenever the foreign key names a stored image, and is then that image |
| Models.ProjectAll | core/models.py:100-102 | a page of projections has one entry per resource, in order |
| Models.ProjectionDefaults | core/models.py:93-97 | a resource with no link rows and no image projects to `authors = []`, `tags = []`, `image = None` |
| Listing.JoinedRowMatches | router/resources.py:35-41 | a resource survives the inner join Resource ⋈ link ⋈ Author ⋈ link ⋈ Tag under a where-clause exactly when some linked author and some linked tag together pass it |
| Listing.WhereClause | router/resources.py:46-61 | one joined row passes when its author's name is among the author filters or its tag's name is among the tag filters |
| Listing.JoinStatement | router/resources.py:35-44 | the joined query returns at most `limit` rows, no row twice, each a stored resource with a joined row passing the where-clause |
| Listing.ReadResources | router/resources.py:23-65 | `limit > 100` gives a 422 error and is the only error; otherwise at most `limit` entries and `count` equals the page size |
| Listing.ReadResourcesDefaults | router/resources.py:26-29 | with default parameters the response is the first min(n, 100) resources, each projected |
| Listing.LinkRowsResolve | router/resources.py:38-41 | in a well-formed store the inner join to `Author`/`Tag` keeps every resource that has a link row |
| Listing.JoinMeansQualifies | router/resources.py:35-61 | a joined row satisfying the OR-ed where-clause exists exactly when the resource has an author, has a tag, and an author name or a tag name matches |
| Listing.JoinFilterIsQualifyFilter | router/resources.py:35-44 | the join-based selection and the per-resource reference selection pick the same rows |
| Listing.ReadResourcesIsWindowOfMatching | router/resources.py:54-63 | whichever branch runs last, the page is the offset/limit window of `Matching`, so the both-filters branch overrides the single-filter ones |
| Listing.MatchingMembership | router/resources.py:46-63 | a resource is selected exactly when no filter is given, or it has an author and a tag and matches some filter name |
| Listing.UnfilteredListsEveryResource | router/resources.py:62-63 | without filters the page is `resources[offset..offset+limit]`, including resources with no author or tag |
| Listing.AuthorFilterOnly | router/resources.py:54-55 | author filter alone: a linked author's name is listed AND the resource has at least one tag |
| Listing.TagFilterOnly | router/resources.py:56-57 | tag filter alone: a linked tag's name is listed AND the resource has at least one author |
| Listing.BothFilters | router/resources.py:58-61 | both filters: has an author and a tag, and an author name OR a tag name matches (a union) |
| Listing.UnlinkedHiddenByFilters | router/resources.py:38-41 | a resource with no author or no tag is listed unfiltered but never under any filter |
| Listing.FilteredHasNoDuplicates | router/resources.py:36-43 | filtered selections and their windows never repeat a resource; `DISTINCT` applies before the window |
| Listing.PageIdsDistinct | router/resources.py:35-63 | in a well-formed store no page holds two resources with the same id |
| Listing.FilterMonotone | router/resources.py:46-61 | once a filter is given, adding a name to either list never drops a resource from the unwindowed selection |
| Seed.CreateTestData | core/db.py:132-150 | if an author named "Midokuni" exists the store is unchanged; otherwise exactly 4 images, 6 tags, 4 resources, 3 authors, 11 tag links and 5 author links are appended, old rows kept; afterwards "Midokuni" exists |
| Seed.SeedImages | core/db.py:51-72 | the four demo images, with their names, URLs and alt texts, numbered consecutively |
| Seed.SeedTags | core/db.py:74-81 | the six demo tags EN, CN, JP, KR, Beginner-focused, Advanced, numbered consecutively |
| Seed.SeedResources | core/db.py:83-112 | the four demo guides, guide i showing demo image i |
| Seed.SeedAuthors | core/db.py:114-130 | the three demo authors Midokuni, Joexyz, こいち |
| Seed.SeedTagLinks | core/db.py:88-109 | the junction rows the guides' `tags=` lists create, 11 in all |
| Seed.SeedAuthorLinks | core/db.py:118-128 | the junction rows the authors' `credited_resources=` lists create, 5 in all |
| Seed.HasAuthorNamed | core/db.py:133-136 | the sentinel query: some stored author's name equals the given name |
| Seed.Commit | core/db.py:138-150 | the single commit: every demo row appended after the existing rows of its table |
| Seed.CommitAppends | core/db.py:138-150 | the commit keeps every old row in place, appends 4 images, 6 tags, 4 resources, 3 authors, 11 tag links and 5 author links, and numbers each table's new rows consecutively from its base |
| Seed.SeedInsert | core/db.py:136-150 | every id the commit hands out is above every id already in its table |
| Seed.SeedIdempotent | core/db.py:133-136 | seeding twice is seeding once |
| Seed.SeedKeysUnique | core/db.py:136-150 | the appended rows get ids distinct from every id in use and from each other |
| Seed.SeedLinksUnique | core/db.py:83-130 | the appended link pairs are new and pairwise distinct |
| Seed.SeedForeignKeys | core/db.py:83-130 | seeding a store whose references resolve keeps every reference resolving: new links and thumbnails name rows of the same commit |
| Seed.SeedThumbnailsUnique | core/db.py:83-111 | after the seed every image is still the thumbnail of at most one resource: each seeded image belongs to its own new guide |
| Seed.SeedPreservesWellFormed | core/db.py:114-150 | seeding a well-formed store yields a well-formed store |
| Seed.SeedFreshDatabase | core/db.py:50-150 | on an empty database the seed yields exactly the demo rows, each table numbered from 1, and the result is well formed |
| Seed.StartUpsWellFormed | core/db.py:36-45 | every start-up runs the seed, so after any number of start-ups from an empty database the store is the demo catalogue and well formed: references resolve even where the database does not enforce foreign keys |
| Seed.SeedTagLinksTable | core/db.py:83-112 | the tag junction rows are exactly 0→{EN,CN}, 1→{EN,CN,Beginner-focused}, 2→{EN,CN,KR}, 3→{EN,JP,Beginner-focused} |
| Seed.SeedAuthorLinksTable | core/db.py:114-130 | the author junction rows are exactly Midokuni→{0,2}, Joexyz→{1,2}, こいち→{3} |
| SeedCatalogue.SeededThumbnails | core/db.py:83-111 | after the seed, guide i shows image i and image i's back-reference is guide i |
| SeedCatalogue.SeededCredits | core/db.py:114-130 | after the seed, guide i's author list is the seeded authors credited on i, in insertion order |
| SeedCatalogue.SharedGuideCredits | core/db.py:114-124 | the shared guide lists Midokuni and Joexyz |
| SeedCatalogue.SeededTagNames | core/db.py:74-81 | the seeded tags are EN, CN, JP, KR, Beginner-focused, Advanced in that order |
| SeedCatalogue.SeededTags | core/db.py:83-112 | after the seed, guide i's tag list is the seeded tags attached to i, in insertion order |
| SeedCatalogue.SeededAdvancedUnused | core/db.py:74-112 | the seeded "Advanced" tag has no related resources |
| SeedCatalogue.SeedAddsSecondTagOfSameName | core/db.py:133-139 | the guard only checks the author name: an existing tag "EN" gets a second, distinct "EN" row |
| Items.ReadItems | router/item.py:9-15 | the stored list is exactly [HK416, PA-15] |
| Items.ReadItem | router/item.py:23-25 | the response echoes the path parameter |
| Items.NewList | router/item.py:30 | a list display allocates a new list at an unused reference and leaves every existing list as it was |
| Items.SetItem | router/item.py:41 | an item assignment changes one position of one list and no other list |
| Items.AddItem | router/item.py:28-31 | the answer is a new list: the stored entries, then the new item; no existing list changes |
| Items.ReplaceFirst | router/item.py:38-44 | an edit succeeds exactly when some entry has the edited name, and keeps the length |
| Items.ReplaceFirstAt | router/item.py:39-42 | the edit writes the new item at the first match only, so later equal entries stay |
| Items.EditItem | router/item.py:34-44 | the loop writes only to the copy: no existing list changes, the answer is the stored list with its first match replaced, and with no match it fails with 404 "Item not found" |
| Items.AliasedWriteWouldPersist | router/item.py:38-41 | without the copy, the loop's write would change the stored list |
| Items.Respond | router/item.py:12-44 | one request leaves every earlier list, the stored one included, unchanged, and is answered as its handler answers from the stored contents |
| Items.Serve | router/item.py:9-44 | after any sequence of requests the stored list is unchanged, and every response is the one its request would get alone |
| Items.EditExamples | router/item.py:34-44 | editing "PA-15" replaces the second entry; editing an absent name yields 404 |

## Left out

- Engine, settings, session and dependency plumbing, the start-up probe of the database, `main.py` and the author, image and tag routers are not part of this model. The other pydantic request/response classes are left out too.
- `read_current_item` in the item router is not modelled; it returns a constant.
- Name comparisons: every name filter and the sentinel check compare strings by exact equality, as the default PostgreSQL and SQLite collations do. A case- or accent-insensitive collation of the configured database would also match, say, "midokuni"; that is not modelled.
- Row order: SQL gives no order without `ORDER BY`, and relationship lists are loaded in no declared order. The model uses table storage order for both.
- Listing.ReadResources: `offset` and `limit` are natural numbers. Negative values, which the handler passes to SQL unchecked, are not modelled. The 422 response is one status and one detail string, not the framework's full error body.
- Models.FreshId: an autoincrement key is modelled as one more than the largest id in use. A database sequence that skips values after deletions is not modelled.
- Seed.CreateTestData: the ORM's flush order within the commit is not modelled. Each table is numbered in list order from its own fresh id. Adding the EN tag first cascades through its guides to their tags, so the program likely inserts the tags as EN, CN, Beginner-focused, KR, JP, Advanced; the tag ids in `Seed.SeedFreshDatabase` and the order of `Seed.SeedTags` and `SeedCatalogue.SeededTagNames` are the model's numbering and may differ from the program's. Images, guides and authors keep list order. Exceptions and rollback are not modelled either.
- SeedCatalogue.SeededThumbnails: assumes the existing store's references resolve (`ForeignKeysResolve`). The seed is the program's only writer, and `Seed.StartUpsWellFormed` proves that every store it leaves behind, from an empty database, is well formed. A database that enforces foreign keys (PostgreSQL; SQLite only with `PRAGMA foreign_keys=ON`, which the engine does not set) also guarantees it. Without it, an old dangling row could name a fresh id.
- SeedCatalogue.SeededCredits: assumes `ForeignKeysResolve` of the existing store, which every store the program writes satisfies (`Seed.StartUpsWellFormed`), as above.
- SeedCatalogue.SharedGuideCredits: assumes `ForeignKeysResolve` of the existing store, which every store the program writes satisfies (`Seed.StartUpsWellFormed`), as above.
- SeedCatalogue.SeededTags: assumes `ForeignKeysResolve` of the existing store, which every store the program writes satisfies (`Seed.StartUpsWellFormed`), as above.
- SeedCatalogue.SeededAdvancedUnused: assumes `ForeignKeysResolve` of the existing store, which every store the program writes satisfies (`Seed.StartUpsWellFormed`), as above.
- Concurrency: requests are served one at a time. No item handler awaits anything, so no two of them can interleave.
- Logging `print` calls, `async` and HTTP routing are not modelled.
