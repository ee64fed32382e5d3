/** `ArticleCommentService`: the comment write operations over the board, each
    guarded so that a missing target is skipped with a warning (the outcome
    `Skipped`) instead of raised to the caller. */
module CommentService {
  import opened Domain
  import Store

  class ArticleCommentService {
    /** The state behind the article, comment and user-account repositories. */
    const store: Store.Board

    constructor (store: Store.Board)
      ensures this.store == store
    {
      this.store := store;
    }

    /** `searchArticleComments(articleId)`: as written it returns an empty list for
        every article and reads nothing. */
    method SearchArticleComments(articleId: nat) returns (r: seq<ArticleComment>)
      ensures r == []
    {
      r := [];
    }

    /** `saveArticleComment(dto)`: when the article and the user both resolve, exactly
        one comment naming them is stored under the next comment id, with the given
        text and audit stamps; otherwise nothing changes. */
    method SaveArticleComment(articleId: nat, userId: string, content: string,
                              now: Timestamp, auditor: string) returns (outcome: Outcome)
      requires store.Valid()
      modifies store`comments, store`nextCommentId
      ensures store.Valid()
      ensures outcome == Applied <==> articleId in store.articles && userId in store.users
      ensures outcome == Applied ==>
                && old(store.nextCommentId) !in old(store.comments)
                && store.comments == old(store.comments)[old(store.nextCommentId) :=
                                       ArticleComment(articleId, userId, content, now, auditor)]
                && old(store.nextCommentId) in Store.CommentsOf(store.comments, articleId)
                && store.nextCommentId == old(store.nextCommentId) + 1
      ensures outcome == Skipped ==> unchanged(store)
    {
      if articleId !in store.articles || userId !in store.users {
        return Skipped;
      }
      var k := store.nextCommentId;
      store.comments := store.comments[k := ArticleComment(articleId, userId, content, now, auditor)];
      store.nextCommentId := k + 1;
      outcome := Applied;
    }

    /** `updateArticleComment(dto)`: a stored comment gets the new text when one is
        given; its article, owner and stamps and every other comment stay as they
        are. A missing comment is skipped. */
    method UpdateArticleComment(commentId: nat, content: Option<string>) returns (outcome: Outcome)
      requires store.Valid()
      modifies store`comments
      ensures store.Valid()
      ensures outcome == Skipped <==> commentId !in old(store.comments)
      ensures content.Some? && commentId in old(store.comments) ==>
                store.comments == old(store.comments)[commentId :=
                                    old(store.comments)[commentId].(content := content.value)]
      ensures content.None? || commentId !in old(store.comments) ==> store.comments == old(store.comments)
    {
      if commentId !in store.comments {
        return Skipped;
      }
      if content.Some? {
        store.comments := store.comments[commentId := store.comments[commentId].(content := content.value)];
      }
      outcome := Applied;
    }

    /** `deleteArticleComment(articleCommentId, userId)`: removes the comment exactly
        when it exists and belongs to `userId`; anything else is a silent no-op. */
    method DeleteArticleComment(commentId: nat, userId: string)
      requires store.Valid()
      modifies store`comments
      ensures store.Valid()
      ensures commentId in old(store.comments) && old(store.comments)[commentId].ownerId == userId ==>
                store.comments == old(store.comments) - {commentId}
      ensures !(commentId in old(store.comments) && old(store.comments)[commentId].ownerId == userId) ==>
                store.comments == old(store.comments)
    {
      if commentId in store.comments && store.comments[commentId].ownerId == userId {
        store.comments := store.comments - {commentId};
      }
    }
  }
}
