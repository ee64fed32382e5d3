/** The query side of `ArticleCommentRepository`: the Querydsl binding table of
    its `customize` method. Results are the matching stored comments, keyed by id;
    paging is not modelled. */
module ArticleCommentRepository {
  import opened Domain
  import Text
  import opened Bindings
  import Store

  /** The properties of `QArticleComment` a request parameter can name (`ArticleRef` and
      `UserAccountRef` are the `article` and `userAccount` associations), and any other name. */
  datatype CommentPath =
    | Id | ArticleRef | UserAccountRef | Content | CreatedAt | CreatedBy
    | Other(name: string)

  /** The `customize` table: content and createdBy are matched with
      `containsIgnoreCase`, createdAt with `eq`; every other property is excluded. */
  function Binding(p: CommentPath): (r: Option<Operator>)
    ensures r.Some? <==> p in {Content, CreatedAt, CreatedBy}
    ensures r == Some(Eq) <==> p == CreatedAt
  {
    match p
    case Content => Some(ContainsIgnoreCase)
    case CreatedAt => Some(Eq)
    case CreatedBy => Some(ContainsIgnoreCase)
    case _ => None
  }

  /** The column a bound property reads; unbound properties are never consulted. */
  function Column(c: ArticleComment, p: CommentPath): Option<Value>
  {
    match p
    case Content => Some(Str(c.content))
    case CreatedAt => Some(Instant(c.createdAt))
    case CreatedBy => Some(Str(c.createdBy))
    case _ => None
  }

  /** `findAll(predicate)` with the predicate the bindings build from `params`: the
      stored comments that match, or `None` when a parameter does not convert to
      its property's type. */
  function Search(board: Store.Board, params: map<CommentPath, seq<Value>>): (r: Option<map<nat, ArticleComment>>)
    reads board
    ensures r.Some? <==> WellTyped(Binding, params)
    ensures r.Some? ==> forall k :: k in r.value ==> k in board.comments && r.value[k] == board.comments[k]
  {
    if WellTyped(Binding, params) then
      Some(map k | k in board.comments && Matches(Binding, Column, board.comments[k], params) :: board.comments[k])
    else
      None
  }

  /** A parameter on a property outside the binding table never changes the result. */
  lemma SearchIgnoresUnlisted(board: Store.Board, params: map<CommentPath, seq<Value>>,
                              p: CommentPath, vs: seq<Value>)
    requires Binding(p).None?
    ensures Search(board, params[p := vs]) == Search(board, params)
  {
    UnlistedWellTyped(Binding, params, p, vs);
    forall k | k in board.comments
      ensures Matches(Binding, Column, board.comments[k], params[p := vs]) ==
                Matches(Binding, Column, board.comments[k], params)
    {
      UnlistedIgnored(Binding, Column, board.comments[k], params, p, vs);
    }
    if WellTyped(Binding, params) {
      var with, without := Search(board, params[p := vs]).value, Search(board, params).value;
      assert with.Keys == without.Keys;
      assert with == without;
    }
  }

  /** An active, convertible parameter on one bound property keeps exactly the
      stored comments whose column satisfies that property's operator. */
  lemma SingleFilter(board: Store.Board, p: CommentPath, v: Value)
    requires Binding(p).Some? && Fits(Binding(p).value, v) && v != Str([])
    ensures var r := Search(board, map[p := [v]]);
              r.Some? && forall k :: k in r.value <==>
                k in board.comments && Apply(Binding(p).value, Column(board.comments[k], p), v)
  {
  }

  /** `?content=v`: the comments whose text contains `v`, ignoring case. */
  lemma ContentFilter(board: Store.Board, v: string)
    requires v != []
    ensures var r := Search(board, map[Content := [Str(v)]]);
              r.Some? && forall k :: k in r.value <==>
                k in board.comments && Text.ContainsIgnoreCase(board.comments[k].content, v)
  {
    SingleFilter(board, Content, Str(v));
  }

  /** `?createdBy=v`: the comments whose author stamp contains `v`, ignoring case. */
  lemma CreatedByFilter(board: Store.Board, v: string)
    requires v != []
    ensures var r := Search(board, map[CreatedBy := [Str(v)]]);
              r.Some? && forall k :: k in r.value <==>
                k in board.comments && Text.ContainsIgnoreCase(board.comments[k].createdBy, v)
  {
    SingleFilter(board, CreatedBy, Str(v));
  }

  /** `?createdAt=t`: the comments created at exactly `t`. */
  lemma CreatedAtFilter(board: Store.Board, t: Timestamp)
    ensures var r := Search(board, map[CreatedAt := [Instant(t)]]);
              r.Some? && forall k :: k in r.value <==>
                k in board.comments && board.comments[k].createdAt == t
  {
    SingleFilter(board, CreatedAt, Instant(t));
  }

  /** An empty keyword on a bound property keeps every stored comment. */
  lemma EmptyKeywordKeepsAll(board: Store.Board, p: CommentPath)
    requires Binding(p).Some?
    ensures Search(board, map[p := [Str([])]]) == Some(board.comments)
  {
    var params := map[p := [Str([])]];
    assert WellTyped(Binding, params);
    forall k | k in board.comments
      ensures Matches(Binding, Column, board.comments[k], params)
    {
      SingleParameter(Binding, Column, board.comments[k], p, [Str([])]);
    }
    var kept := Search(board, params).value;
    assert kept.Keys == board.comments.Keys;
    assert kept == board.comments;
  }
}
