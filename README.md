# project-board: a verified model of the board's store, search bindings and comment service

This project models the core of the project-board bulletin-board backend (Spring Boot, JPA and Querydsl). It covers five parts:

- **The `Article` entity** (`domain.dfy`). Its constructor and `of` factory, its four setters, its column constraints, and its identity-based `equals` and `hashCode`.
- **The store behind the repositories** (`store.dfy`, class `Store.Board`).
  - The managed Article objects by id and the comments by id.
  - The ids of the known user accounts.
  - The identity generators.
  - `save` and the cascading `delete` of an article (`cascade = ALL`, with the comment set derived through `mappedBy`).
- **The Querydsl binding tables**. `bindings.dfy` gives the common semantics of `excludeUnlistedProperties`, `including` and `bind(..).first(..)`. `article_repository.dfy` and `article_comment_repository.dfy` hold each repository's table. `article_repository.dfy` also holds the five derived finders of `ArticleRepository`.
- **`findAllDistinctHashtags`** (`hashtag_query.dfy`).
- **`ArticleCommentService`** (`article_comment_service.dfy`). Save, update, delete and search of comments over the store, with `log.warn` modelled as the outcome `Skipped`.

Case-insensitive matching (`text.dfy`) is SQL `LIKE '%v%'` after ASCII lower-casing of both sides.

The store's invariant `Store.Board.Valid()` reads only the `id` field of the managed article objects. It says:

- every managed article carries the id it is stored under;
- the id generators are ahead of every stored id;
- every comment names a stored article and a known user.

The setters do not touch `id`, so they keep the invariant, as JPA dirty checking allows.

Three details of the code shape the search model:

- **Title and hashtag.** Neither column declares a length (`Article.java:29`, `Article.java:32`), so JPA's default of 255 characters applies to both; `content` declares 10000 (`Article.java:30`). The `title` column is `nullable = false` but has no minimum, so an empty title is storable.
- **Derived finders.** `findBy...Containing` declares no `IgnoreCase`, so those finders are case-sensitive. Only the Querydsl bindings ignore case.
- **`findByHashtag`.** It is exact equality, not containment. A `null` argument selects the articles without a hashtag.

## Model

| member | source | states |
|---|---|---|
| Domain.Article.constructor | project-board/src/main/java/com/fastcampus/project_board/domain/Article.java:43-48 | the new article holds exactly the given owner, title, content and hashtag, and has no id and no audit stamps |
| Domain.Article.Of | project-board/src/main/java/com/fastcampus/project_board/domain/Article.java:51-53 | `of` yields a fresh, unpersisted article with exactly the given fields; it owns no comments until stored (see `Store.Board.SaveArticle`) |
| Domain.Article.SetUserAccount | project-board/src/main/java/com/fastcampus/project_board/domain/Article.java:27 | sets the owner and, by its frame, no other field (in particular not `id`) |
| Domain.Article.SetTitle | project-board/src/main/java/com/fastcampus/project_board/domain/Article.java:29 | sets the title and no other field |
| Domain.Article.SetContent | project-board/src/main/java/com/fastcampus/project_board/domain/Article.java:30 | sets the content and no other field |
| Domain.Article.SetHashtag | project-board/src/main/java/com/fastcampus/project_board/domain/Article.java:32 | sets the hashtag and no other field |
| Domain.ObjectsHash | project-board/src/main/java/com/fastcampus/project_board/domain/Article.java:65-68 | `Objects.hash(id)` in 32-bit arithmetic; a null id hashes to 31 |
| Domain.Article.HashCode | project-board/src/main/java/com/fastcampus/project_board/domain/Article.java:65-68 | `hashCode()` depends on `id` only; 31 for an unpersisted article |
| Domain.Article.Storable | project-board/src/main/java/com/fastcampus/project_board/domain/Article.java:27-30 | the column constraints: a storable article has a non-null owner, title and content; content longer than 10000 characters, or a title or hashtag longer than the default column length of 255, is never storable |
| Domain.Article.Equals | project-board/src/main/java/com/fastcampus/project_board/domain/Article.java:57-63 | `equals(o)` holds iff `o` is an Article and is either this very instance or carries the same non-null id; `null` and other classes are never equal |
| Domain.EqualsReflexive | project-board/src/main/java/com/fastcampus/project_board/domain/Article.java:59 | every article equals itself, even with a null id |
| Domain.EqualsOnlyArticles | project-board/src/main/java/com/fastcampus/project_board/domain/Article.java:60 | an article never equals `null` or a value of another class |
| Domain.EqualsDistinctInstances | project-board/src/main/java/com/fastcampus/project_board/domain/Article.java:61-62 | two distinct instances are equal iff both ids are non-null and the same; an unpersisted article equals no other instance, in either direction |
| Domain.EqualsSymmetric | project-board/src/main/java/com/fastcampus/project_board/domain/Article.java:57-63 | `equals` is symmetric |
| Domain.EqualsTransitive | project-board/src/main/java/com/fastcampus/project_board/domain/Article.java:57-63 | `equals` is transitive |
| Domain.EqualsConsistentWithHashCode | project-board/src/main/java/com/fastcampus/project_board/domain/Article.java:57-68 | equal articles have equal hash codes |
| Store.Board.Accepts | project-board/src/main/java/com/fastcampus/project_board/domain/Article.java:23-30 | what `save` demands: an accepted article is storable and its owner is a known user, and if it already has an id it is the instance managed under that id |
| Store.Board.SaveArticle | project-board/src/main/java/com/fastcampus/project_board/domain/Article.java:23-37 | `save` succeeds iff the article meets the column constraints (non-null owner, title and content, content of at most 10000 characters, title and hashtag of at most the default 255), its owner is a known user, and it is new or is the managed instance. A new article gets the next id, which no stored article has, and its audit stamps. It is added as the only change, the article id generator advances by one, and it owns no comments. Saving the managed instance again, or a refused save, changes nothing on the board or the article. The store invariant is kept |
| Store.CascadeKeepsConsistent | project-board/src/main/java/com/fastcampus/project_board/domain/Article.java:36 | removing an article together with the comments that name it keeps every foreign key and id invariant |
| Store.Board.DeleteArticle | project-board/src/main/java/com/fastcampus/project_board/domain/Article.java:36 | deleting a managed article removes exactly that article and exactly the comments it owns (cascade); the id generators are untouched; an unpersisted or unknown article changes nothing on the board |
| Store.DeleteCounts | project-board/src/test/java/com/fastcampus/project_board/repository/JpaRepositoryTest.java:90-102 | after deleting an article that owns N comments, the article count drops by exactly 1 and the comment count by exactly N |
| Store.StoredArticlesEqualByKey | project-board/src/main/java/com/fastcampus/project_board/domain/Article.java:57-63 | two managed articles are `equals` exactly when they are stored under the same id |
| Text.LowerChar | project-board/src/main/java/com/fastcampus/project_board/repository/ArticleRepository.java:34 | lower-casing maps 'A'..'Z' to 'a'..'z', leaves every other character alone, and never yields an upper-case letter |
| Text.Contains | project-board/src/main/java/com/fastcampus/project_board/repository/ArticleRepository.java:22-25 | case-sensitive `LIKE '%v%'`: a match needs `v` no longer than the text, and the empty pattern matches every text |
| Text.ContainsIgnoreCase | project-board/src/main/java/com/fastcampus/project_board/repository/ArticleRepository.java:34 | `containsIgnoreCase`: containment after lower-casing both sides; again no longer pattern matches and the empty pattern matches everything |
| Text.ContainsIffOccurs | project-board/src/main/java/com/fastcampus/project_board/repository/ArticleRepository.java:22-25 | `LIKE '%v%'` holds iff `v` occurs as a contiguous part of the text at some position |
| Text.ContainsImpliesIgnoreCase | project-board/src/main/java/com/fastcampus/project_board/repository/ArticleRepository.java:22-25 | a case-sensitive containment match is also a case-insensitive one |
| Text.ContainsTransitive | project-board/src/main/java/com/fastcampus/project_board/repository/ArticleRepository.java:22-25 | a text that contains `v` contains every part of `v` |
| Bindings.UnlistedIgnored | project-board/src/main/java/com/fastcampus/project_board/repository/ArticleRepository.java:30-31 | with `excludeUnlistedProperties(true)`, a parameter on an unlisted property never changes whether a row matches |
| Bindings.UnlistedWellTyped | project-board/src/main/java/com/fastcampus/project_board/repository/ArticleRepository.java:30-31 | a parameter on an unlisted property is never converted, so it never causes a conversion failure |
| Bindings.SingleParameter | project-board/src/main/java/com/fastcampus/project_board/repository/ArticleRepository.java:34-38 | with one parameter, a row matches iff the parameter is skipped or the property's operator holds on its first value (`first`) |
| Bindings.WellTypedUnion | project-board/src/main/java/com/fastcampus/project_board/repository/ArticleRepository.java:34-38 | parameters that each convert to their properties' types also convert together |
| Bindings.Conjunction | project-board/src/main/java/com/fastcampus/project_board/repository/ArticleRepository.java:34-38 | parameters on different properties combine by conjunction, in both directions |
| ArticleRepository.Binding | project-board/src/main/java/com/fastcampus/project_board/repository/ArticleRepository.java:29-39 | the `customize` table: exactly title, hashtag, content, createdAt and createdBy are bound, and createdAt is the only one matched by `eq` |
| ArticleRepository.Search | project-board/src/main/java/com/fastcampus/project_board/repository/ArticleRepository.java:29-39 | a search fails iff some value of an active parameter does not convert to its property's type (every value is converted, not only the first); otherwise it selects a subset of the stored articles |
| ArticleRepository.SearchIgnoresUnlisted | project-board/src/main/java/com/fastcampus/project_board/repository/ArticleRepository.java:30-31 | only title, hashtag, content, createdAt and createdBy are filterable; a parameter on any other property leaves the result unchanged |
| ArticleRepository.SingleFilter | project-board/src/main/java/com/fastcampus/project_board/repository/ArticleRepository.java:34-38 | one active parameter keeps exactly the stored articles whose bound column satisfies the listed operator |
| ArticleRepository.TitleFilter | project-board/src/main/java/com/fastcampus/project_board/repository/ArticleRepository.java:34 | `title=v` keeps exactly the articles whose lower-cased title contains lower-cased `v` |
| ArticleRepository.ContentFilter | project-board/src/main/java/com/fastcampus/project_board/repository/ArticleRepository.java:35 | `content=v` keeps exactly the articles whose content contains `v`, ignoring case |
| ArticleRepository.HashtagFilter | project-board/src/main/java/com/fastcampus/project_board/repository/ArticleRepository.java:36 | `hashtag=v` keeps exactly the articles with a hashtag containing `v`, ignoring case |
| ArticleRepository.CreatedAtFilter | project-board/src/main/java/com/fastcampus/project_board/repository/ArticleRepository.java:37 | `createdAt=t` keeps exactly the articles created at exactly `t` |
| ArticleRepository.CreatedAtNeedsInstant | project-board/src/main/java/com/fastcampus/project_board/repository/ArticleRepository.java:37 | a `createdAt` parameter that is not a date-time fails the search rather than matching |
| ArticleRepository.CreatedAtConvertsEveryValue | project-board/src/main/java/com/fastcampus/project_board/repository/ArticleRepository.java:37 | a `createdAt` request whose first value is a date-time but whose second is not still fails: `first` picks a value only after all are converted |
| ArticleRepository.CreatedByFilter | project-board/src/main/java/com/fastcampus/project_board/repository/ArticleRepository.java:38 | `createdBy=v` keeps exactly the articles whose author stamp contains `v`, ignoring case |
| ArticleRepository.EmptyKeywordKeepsAll | project-board/src/main/java/com/fastcampus/project_board/repository/ArticleRepository.java:34-38 | an empty keyword on any bound property keeps every stored article |
| ArticleRepository.SearchConjunction | project-board/src/main/java/com/fastcampus/project_board/repository/ArticleRepository.java:34-38 | parameters on different properties select the intersection of what each selects |
| ArticleRepository.FindByTitleContaining | project-board/src/main/java/com/fastcampus/project_board/repository/ArticleRepository.java:22 | the result is a subset of the stored articles |
| ArticleRepository.FindByContentContaining | project-board/src/main/java/com/fastcampus/project_board/repository/ArticleRepository.java:23 | the result is a subset of the stored articles |
| ArticleRepository.FindByUserAccountUserIdContaining | project-board/src/main/java/com/fastcampus/project_board/repository/ArticleRepository.java:24 | the result is a subset of the stored articles |
| ArticleRepository.FindByUserAccountNicknameContaining | project-board/src/main/java/com/fastcampus/project_board/repository/ArticleRepository.java:25 | the result is a subset of the stored articles |
| ArticleRepository.FindByHashtag | project-board/src/main/java/com/fastcampus/project_board/repository/ArticleRepository.java:26 | the result is a subset of the stored articles |
| ArticleRepository.TitleFinderNarrows | project-board/src/main/java/com/fastcampus/project_board/repository/ArticleRepository.java:22 | a title keyword finds no more articles than any part of it |
| ArticleRepository.ContentFinderNarrows | project-board/src/main/java/com/fastcampus/project_board/repository/ArticleRepository.java:23 | a content keyword finds no more articles than any part of it |
| ArticleRepository.UserIdFinderNarrows | project-board/src/main/java/com/fastcampus/project_board/repository/ArticleRepository.java:24 | an owner-id keyword finds no more articles than any part of it (substring, not equality) |
| ArticleRepository.NicknameFinderNarrows | project-board/src/main/java/com/fastcampus/project_board/repository/ArticleRepository.java:25 | a nickname keyword finds no more articles than any part of it |
| ArticleRepository.TitleFinderWithinBinding | project-board/src/main/java/com/fastcampus/project_board/repository/ArticleRepository.java:22 | the case-sensitive title finder selects no more than the case-insensitive title binding with the same keyword |
| ArticleRepository.ContentFinderWithinBinding | project-board/src/main/java/com/fastcampus/project_board/repository/ArticleRepository.java:23 | the content finder selects no more than the content binding with the same keyword |
| ArticleRepository.HashtagFinderWithinBinding | project-board/src/main/java/com/fastcampus/project_board/repository/ArticleRepository.java:26 | `findByHashtag(v)` selects a subset of what the hashtag binding selects for `v` |
| ArticleRepository.HashtagFinderExact | project-board/src/main/java/com/fastcampus/project_board/repository/ArticleRepository.java:26 | `findByHashtag` partitions the stored articles by exact hashtag: different arguments give disjoint results, and every article is found by its own hashtag |
| ArticleRepository.PartialHashtagOnlyMatchesBinding | project-board/src/main/java/com/fastcampus/project_board/repository/ArticleRepository.java:26 | a stored article tagged `#springboot` is selected by the binding `?hashtag=#Spring` and is not selected by `findByHashtag("#Spring")` |
| ArticleCommentRepository.Binding | project-board/src/main/java/com/fastcampus/project_board/repository/ArticleCommentRepository.java:20-27 | the `customize` table: exactly content, createdAt and createdBy are bound, and createdAt is the only one matched by `eq` |
| ArticleCommentRepository.Search | project-board/src/main/java/com/fastcampus/project_board/repository/ArticleCommentRepository.java:20-27 | a search fails iff some value of an active parameter does not convert; otherwise it returns stored comments only, each unchanged |
| ArticleCommentRepository.SearchIgnoresUnlisted | project-board/src/main/java/com/fastcampus/project_board/repository/ArticleCommentRepository.java:21-22 | only content, createdAt and createdBy are filterable on comments; other parameters leave the result unchanged |
| ArticleCommentRepository.SingleFilter | project-board/src/main/java/com/fastcampus/project_board/repository/ArticleCommentRepository.java:23-25 | one active parameter keeps exactly the comments whose bound column satisfies the listed operator |
| ArticleCommentRepository.ContentFilter | project-board/src/main/java/com/fastcampus/project_board/repository/ArticleCommentRepository.java:23 | `content=v` keeps exactly the comments whose text contains `v`, ignoring case |
| ArticleCommentRepository.CreatedAtFilter | project-board/src/main/java/com/fastcampus/project_board/repository/ArticleCommentRepository.java:24 | `createdAt=t` keeps exactly the comments created at exactly `t` |
| ArticleCommentRepository.CreatedByFilter | project-board/src/main/java/com/fastcampus/project_board/repository/ArticleCommentRepository.java:25 | `createdBy=v` keeps exactly the comments whose author stamp contains `v`, ignoring case |
| ArticleCommentRepository.EmptyKeywordKeepsAll | project-board/src/main/java/com/fastcampus/project_board/repository/ArticleCommentRepository.java:23-25 | an empty keyword on any bound property keeps every stored comment |
| HashtagQuery.FindAllDistinctHashtags | project-board/src/main/java/com/fastcampus/project_board/repository/querydsl/ArticleRepositoryCustomImpl.java:17-25 | a value is returned iff some stored article has it as its (non-null) hashtag; the result is a set, so no value appears twice |
| HashtagQuery.DistinctHashtagsBound | project-board/src/main/java/com/fastcampus/project_board/repository/querydsl/ArticleRepositoryCustomImpl.java:21 | there are at most as many distinct hashtags as articles with a hashtag |
| HashtagQuery.SharedHashtagReturnedOnce | project-board/src/main/java/com/fastcampus/project_board/repository/querydsl/ArticleRepositoryCustomImpl.java:21 | two stored articles sharing a hashtag make the result strictly smaller than the number of tagged articles (the shared value is returned once) |
| CommentService.ArticleCommentService.SearchArticleComments | project-board/src/main/java/com/fastcampus/project_board/service/ArticleCommentService.java:29-32 | returns the empty list for every article id and modifies nothing |
| CommentService.ArticleCommentService.SaveArticleComment | project-board/src/main/java/com/fastcampus/project_board/service/ArticleCommentService.java:34-42 | if the article id and the user id both resolve, it adds exactly one comment, under a fresh id, naming that article and that user and owned by that article; the comment id generator advances by one; no other comment or article changes. Otherwise it is skipped and the board is unchanged |
| CommentService.ArticleCommentService.UpdateArticleComment | project-board/src/main/java/com/fastcampus/project_board/service/ArticleCommentService.java:44-51 | a missing comment is skipped with the store unchanged; null content leaves the comment unchanged; otherwise only that comment's content is replaced |
| CommentService.ArticleCommentService.DeleteArticleComment | project-board/src/main/java/com/fastcampus/project_board/service/ArticleCommentService.java:53-55 | removes the comment iff its id matches and its owner's user id equals `userId`; on any mismatch nothing changes |

## Left out

- Pagination. `Page` and `Pageable` are not modelled. Every search, finder and query returns the whole matching set, with no order (`@OrderBy`, the `LinkedHashSet` insertion order and list order are not modelled).
- `findAllDistinctHashtags` returns a `List`. It is modelled as a set, which captures its distinctness but not its order.
- `getReferenceById`. The lazy proxy is modelled as an eager existence check: a missing article, user or comment is detected at once and the operation is `Skipped`. With a real proxy, a comment saved against a missing article would fail at flush, and `updateArticleComment` with null content on a missing comment would not log.
- Transactions, flushing, logging and exceptions. `log.warn` after a caught `EntityNotFoundException` is the outcome `Skipped`. Nothing is rolled back, because the model never half-applies an operation.
- Dirty checking. Setter calls on a managed article change the stored object at once, like a managed entity. The column constraints are checked only by `save`, not at flush.
- Store.Board.SaveArticle: an article that carries an id but is not the instance managed under it is refused with nothing changed. This covers a detached copy of a managed article, for which JPA `merge` would copy its state onto the managed instance. It also covers an article object whose row `DeleteArticle` removed. For that object Hibernate's `merge` behaves in one of two ways. In a later persistence context it inserts a copy under a new id. In the same context it throws. Neither behaviour is modelled.
- Audit fields. `AuditingFields` is not part of this model. `createdAt`/`createdBy` are stamped by `save` from parameters (`now`, `auditor`). `modifiedAt`/`modifiedBy` are not modelled, and updates do not restamp.
- Date-times are opaque integers (`Timestamp`). `createdAt` equality is exact equality of those values.
- Case folding is ASCII only (`'A'..'Z'`). Database collations and Unicode folding are not modelled.
- Request parameters. They reach the bindings already converted to a string or a date-time (`Bindings.Value`). The conversion service itself is not modelled: a parameter of the wrong kind makes the search fail (`None`). Skipping a parameter whose only value is empty is Spring's predicate-builder behaviour, and the model follows it.
- The `articleComments` collection. `Article` has no such field: the comments an article owns are derived from the comments' article ids (`Store.CommentsOf`), as `mappedBy = "article"` defines them in the database. The in-memory `LinkedHashSet` that `getArticleComments()` returns (`JpaRepositoryTest.java:93` reads it) is not modelled, so a set that is stale with respect to the stored comments cannot be expressed.
- An empty string among several values of a parameter. Spring's conversion turns it into `null` for a date-time property; the model treats it like any other non-date-time value, so such a `createdAt` request fails (`None`).
- Property paths into associations (for example `userAccount.userId`) are not listed in either binding table. They are modelled as the unlisted properties `UserAccountRef` or `Other(name)`, which are ignored.
- Null arguments. The comment id, user id and comment content passed to the service are never null in the model. `deleteArticleComment` with a null id, and the derived `...Containing` finders with a null argument, are not modelled.
- `ArticleComment.java`, `UserAccount.java` and `AuditingFields.java` are not part of this model.
  - A comment is a value: the id of its article, the id of its owner, its content and its stamps. No constraint on comment content is modelled.
  - A user is known by its id. The nickname used by `findByUserAccount_NicknameContaining` is the one carried by the article's `UserAccount` value.
- `ArticleService` is not modelled: every method is a stub. The same holds for DTOs and their mappers, `UserAccountRepository` (an empty interface; user existence is membership in `Store.Board.users`), and the HTTP, Data REST, view and security layers.
- Ids are unbounded naturals. `hashCode` reduces them modulo 2^64 before hashing, as a Java `long` would, but id overflow itself is not modelled.
