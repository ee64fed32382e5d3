/** The persistent state behind the three JPA repositories: the known user ids,
    the managed Article entities by id and the comments by id, with the
    identity generators of `@GeneratedValue(strategy = IDENTITY)`. */
module Store {
  import opened Domain

  /** Result of `articleRepository.save(article)`: the id the article is stored
      under, or a refusal by the column and foreign-key constraints. */
  datatype SaveResult = Persisted(id: nat) | Rejected

  /** The comments owned by article `articleId`: those whose article reference
      names it (`mappedBy = "article"`). */
  function CommentsOf(comments: map<nat, ArticleComment>, articleId: nat): set<nat>
  {
    set c | c in comments && comments[c].articleId == articleId
  }

  /** The store's invariant: every managed article carries the id it is stored
      under, below the next id to hand out, and so does every article object the
      store ever managed; every comment id is below the next comment id and names
      a stored article and a known user (the two foreign keys). */
  ghost predicate Consistent(users: set<string>, articles: map<nat, Article>,
                             comments: map<nat, ArticleComment>, nextArticleId: nat, nextCommentId: nat,
                             repr: set<Article>)
    reads repr`id
  {
    && (forall o :: o in repr ==> o.id.Some?)
    && (forall k :: k in articles ==> articles[k] in repr && articles[k].id == Some(k) && k < nextArticleId)
    && (forall c :: c in comments ==> c < nextCommentId && comments[c].articleId in articles)
    && (forall c :: c in comments ==> comments[c].ownerId in users)
  }

  /** Deleting an article together with the comments it owns keeps the store consistent. */
  lemma CascadeKeepsConsistent(users: set<string>, articles: map<nat, Article>,
                               comments: map<nat, ArticleComment>, nA: nat, nC: nat,
                               repr: set<Article>, k: nat)
    requires Consistent(users, articles, comments, nA, nC, repr)
    ensures Consistent(users, articles - {k}, comments - CommentsOf(comments, k), nA, nC, repr)
  {
  }

  class Board {
    /** The ids of the known user accounts. */
    const users: set<string>
    /** Managed articles by id. */
    var articles: map<nat, Article>
    var comments: map<nat, ArticleComment>
    var nextArticleId: nat
    var nextCommentId: nat
    /** Every article object the board has managed (a superset of `articles.Values`). */
    ghost var Repr: set<Article>

    ghost predicate Valid()
      reads this, Repr`id
    {
      Consistent(users, articles, comments, nextArticleId, nextCommentId, Repr)
    }

    /** An empty board over a user directory. */
    constructor (users: set<string>)
      ensures Valid()
      ensures this.users == users && articles == map[] && comments == map[]
    {
      this.users := users;
      articles := map[];
      comments := map[];
      nextArticleId := 1;
      nextCommentId := 1;
      Repr := {};
    }

    /** `a` is the instance the board manages under its id. */
    predicate Manages(a: Article)
      reads this, a
    {
      a.id.Some? && a.id.value in articles && articles[a.id.value] == a
    }

    /** What `save` demands of an article: the column constraints, a known owner,
        and either no id yet (an insert) or being the managed instance (an update). */
    predicate Accepts(a: Article): (r: bool)
      reads this, a
      ensures r ==> a.Storable() && a.userAccount.value.userId in users
      ensures r && a.id.Some? ==> a.id.value in articles && articles[a.id.value] == a
    {
      && a.Storable()
      && a.userAccount.value.userId in users
      && (a.id.None? || Manages(a))
    }

    /** `articleRepository.save(article)`. A new storable article with a known owner
        receives the next id and its audit stamps and becomes managed; saving the
        managed instance again keeps it where it is; anything else is refused and
        nothing changes. */
    method SaveArticle(a: Article, now: Timestamp, auditor: string) returns (r: SaveResult)
      requires Valid()
      modifies this, a`id, a`createdAt, a`createdBy
      ensures Valid()
      ensures r.Persisted? <==> old(Accepts(a))
      ensures r.Persisted? && old(a.id).None? ==>
                && r.id == old(nextArticleId) && r.id !in old(articles)
                && articles == old(articles)[r.id := a]
                && a.id == Some(r.id) && a.createdAt == Some(now) && a.createdBy == Some(auditor)
                && nextArticleId == old(nextArticleId) + 1
                && CommentsOf(comments, r.id) == {}
      ensures r.Persisted? && old(a.id).Some? ==> old(a.id) == Some(r.id)
      ensures !(r.Persisted? && old(a.id).None?) ==> unchanged(this) && unchanged(a)
      ensures comments == old(comments) && nextCommentId == old(nextCommentId)
    {
      if !Accepts(a) {
        return Rejected;
      }
      if a.id.Some? {
        return Persisted(a.id.value);
      }
      var k := nextArticleId;
      a.id := Some(k);
      a.createdAt := Some(now);
      a.createdBy := Some(auditor);
      articles := articles[k := a];
      nextArticleId := nextArticleId + 1;
      Repr := Repr + {a};
      r := Persisted(k);
    }

    /** `articleRepository.delete(article)`: a managed article is removed together
        with every comment it owns (`cascade = ALL`); an unpersisted or unknown
        article is ignored. */
    method DeleteArticle(a: Article)
      requires Valid()
      modifies this
      ensures Valid()
      ensures a.id.Some? && a.id.value in old(articles) ==>
                && articles == old(articles) - {a.id.value}
                && comments == old(comments) - CommentsOf(old(comments), a.id.value)
                && nextArticleId == old(nextArticleId) && nextCommentId == old(nextCommentId)
      ensures !(a.id.Some? && a.id.value in old(articles)) ==> unchanged(this)
    {
      if a.id.None? || a.id.value !in articles {
        return;
      }
      var k := a.id.value;
      CascadeKeepsConsistent(users, articles, comments, nextArticleId, nextCommentId, Repr, k);
      comments := comments - CommentsOf(comments, k);
      articles := articles - {k};
    }
  }

  /** Deleting stored article `k` drops the article count by one and the comment
      count by exactly the number of comments it owns. */
  lemma DeleteCounts(articles: map<nat, Article>, comments: map<nat, ArticleComment>, k: nat)
    requires k in articles
    ensures |articles - {k}| == |articles| - 1
    ensures |comments - CommentsOf(comments, k)| == |comments| - |CommentsOf(comments, k)|
  {
  }

  /** Two managed articles are equal (`equals`) exactly when they are stored under the same id. */
  lemma StoredArticlesEqualByKey(board: Board, j: nat, k: nat)
    requires board.Valid()
    requires j in board.articles && k in board.articles
    ensures board.articles[j].Equals(AnArticle(board.articles[k])) <==> j == k
  {
  }
}
