/** The query side of `ArticleRepository`: the Querydsl binding table of its
    `customize` method and the five derived finders. Results are the ids of the
    matching stored articles; paging is not modelled. */
module ArticleRepository {
  import opened Domain
  import Text
  import opened Bindings
  import Store

  /** The properties of `QArticle` a request parameter can name (`UserAccountRef` is
      the `userAccount` association), and any other name. */
  datatype ArticlePath =
    | Id | UserAccountRef | Title | Content | Hashtag | ArticleComments | CreatedAt | CreatedBy
    | Other(name: string)

  /** The `customize` table: title, content, hashtag and createdBy are matched with
      `containsIgnoreCase`, createdAt with `eq`; every other property is excluded. */
  function Binding(p: ArticlePath): (r: Option<Operator>)
    ensures r.Some? <==> p in {Title, Hashtag, Content, CreatedAt, CreatedBy}
    ensures r == Some(Eq) <==> p == CreatedAt
  {
    match p
    case Title => Some(ContainsIgnoreCase)
    case Content => Some(ContainsIgnoreCase)
    case Hashtag => Some(ContainsIgnoreCase)
    case CreatedAt => Some(Eq)
    case CreatedBy => Some(ContainsIgnoreCase)
    case _ => None
  }

  /** The bound columns of one article row. */
  datatype Columns = Columns(title: Option<string>, content: Option<string>,
                             hashtag: Option<string>, createdAt: Option<Timestamp>,
                             createdBy: Option<string>)

  function Snapshot(a: Article): Columns
    reads a
  {
    Columns(a.title, a.content, a.hashtag, a.createdAt, a.createdBy)
  }

  function TextColumn(s: Option<string>): Option<Value>
  {
    if s.Some? then Some(Str(s.value)) else None
  }

  /** The column a bound property reads; unbound properties are never consulted. */
  function Column(row: Columns, p: ArticlePath): Option<Value>
  {
    match p
    case Title => TextColumn(row.title)
    case Content => TextColumn(row.content)
    case Hashtag => TextColumn(row.hashtag)
    case CreatedAt => if row.createdAt.Some? then Some(Instant(row.createdAt.value)) else None
    case CreatedBy => TextColumn(row.createdBy)
    case _ => None
  }

  /** The combined binding predicate on one article. */
  predicate RowMatches(a: Article, params: map<ArticlePath, seq<Value>>)
    reads a
  {
    Matches(Binding, Column, Snapshot(a), params)
  }

  /** `findAll(predicate)` with the predicate the bindings build from `params`:
      the ids of the stored articles that match, or `None` when a parameter does
      not convert to its property's type. */
  function Search(board: Store.Board, params: map<ArticlePath, seq<Value>>): (r: Option<set<nat>>)
    reads board, board.articles.Values
    ensures r.Some? <==> WellTyped(Binding, params)
    ensures r.Some? ==> r.value <= board.articles.Keys
  {
    if WellTyped(Binding, params) then
      Some(set k | k in board.articles && RowMatches(board.articles[k], params))
    else
      None
  }

  /** A parameter on a property outside the binding table never changes the result
      (`excludeUnlistedProperties(true)`). */
  lemma SearchIgnoresUnlisted(board: Store.Board, params: map<ArticlePath, seq<Value>>,
                              p: ArticlePath, vs: seq<Value>)
    requires Binding(p).None?
    ensures Search(board, params[p := vs]) == Search(board, params)
  {
    UnlistedWellTyped(Binding, params, p, vs);
    forall k | k in board.articles
      ensures RowMatches(board.articles[k], params[p := vs]) == RowMatches(board.articles[k], params)
    {
      UnlistedIgnored(Binding, Column, Snapshot(board.articles[k]), params, p, vs);
    }
    if WellTyped(Binding, params) {
      var with, without := Search(board, params[p := vs]).value, Search(board, params).value;
      assert forall k :: k in with <==> k in without;
      assert with == without;
    }
  }

  /** An active, convertible parameter on one bound property keeps exactly the
      stored articles whose column satisfies that property's operator. */
  lemma SingleFilter(board: Store.Board, p: ArticlePath, v: Value)
    requires Binding(p).Some? && Fits(Binding(p).value, v) && v != Str([])
    ensures var r := Search(board, map[p := [v]]);
              r.Some? && forall k :: k in r.value <==>
                k in board.articles && Apply(Binding(p).value, Column(Snapshot(board.articles[k]), p), v)
  {
  }

  /** `?title=v`: the articles whose title contains `v`, ignoring case. */
  lemma TitleFilter(board: Store.Board, v: string)
    requires v != []
    ensures var r := Search(board, map[Title := [Str(v)]]);
              r.Some? && forall k :: k in r.value <==>
                k in board.articles && board.articles[k].title.Some? &&
                Text.ContainsIgnoreCase(board.articles[k].title.value, v)
  {
    SingleFilter(board, Title, Str(v));
  }

  /** `?content=v`: the articles whose content contains `v`, ignoring case. */
  lemma ContentFilter(board: Store.Board, v: string)
    requires v != []
    ensures var r := Search(board, map[Content := [Str(v)]]);
              r.Some? && forall k :: k in r.value <==>
                k in board.articles && board.articles[k].content.Some? &&
                Text.ContainsIgnoreCase(board.articles[k].content.value, v)
  {
    SingleFilter(board, Content, Str(v));
  }

  /** `?hashtag=v`: the articles whose hashtag contains `v`, ignoring case; an
      article without a hashtag never matches. */
  lemma HashtagFilter(board: Store.Board, v: string)
    requires v != []
    ensures var r := Search(board, map[Hashtag := [Str(v)]]);
              r.Some? && forall k :: k in r.value <==>
                k in board.articles && board.articles[k].hashtag.Some? &&
                Text.ContainsIgnoreCase(board.articles[k].hashtag.value, v)
  {
    SingleFilter(board, Hashtag, Str(v));
  }

  /** `?createdBy=v`: the articles whose author stamp contains `v`, ignoring case. */
  lemma CreatedByFilter(board: Store.Board, v: string)
    requires v != []
    ensures var r := Search(board, map[CreatedBy := [Str(v)]]);
              r.Some? && forall k :: k in r.value <==>
                k in board.articles && board.articles[k].createdBy.Some? &&
                Text.ContainsIgnoreCase(board.articles[k].createdBy.value, v)
  {
    SingleFilter(board, CreatedBy, Str(v));
  }

  /** `?createdAt=t`: the articles created at exactly `t`. */
  lemma CreatedAtFilter(board: Store.Board, t: Timestamp)
    ensures var r := Search(board, map[CreatedAt := [Instant(t)]]);
              r.Some? && forall k :: k in r.value <==>
                k in board.articles && board.articles[k].createdAt == Some(t)
  {
    SingleFilter(board, CreatedAt, Instant(t));
  }

  /** A `createdAt` value that is not an instant makes the request fail. */
  lemma CreatedAtNeedsInstant(board: Store.Board, v: string)
    requires v != []
    ensures Search(board, map[CreatedAt := [Str(v)]]).None?
  {
    var params := map[CreatedAt := [Str(v)]];
    assert CreatedAt in params && Active(Binding, CreatedAt, params[CreatedAt]);
  }

  /** Every value of a parameter is converted, not only the one `first` uses: a
      `createdAt` request whose second value is not a date-time fails. */
  lemma CreatedAtConvertsEveryValue(board: Store.Board, t: Timestamp, v: string)
    requires v != []
    ensures Search(board, map[CreatedAt := [Instant(t), Str(v)]]).None?
  {
    var params := map[CreatedAt := [Instant(t), Str(v)]];
    assert CreatedAt in params && Active(Binding, CreatedAt, params[CreatedAt]);
    assert !Fits(Eq, params[CreatedAt][1]);
  }

  /** An empty keyword on a bound property keeps every stored article. */
  lemma EmptyKeywordKeepsAll(board: Store.Board, p: ArticlePath)
    requires Binding(p).Some?
    ensures Search(board, map[p := [Str([])]]) == Some(board.articles.Keys)
  {
    var params := map[p := [Str([])]];
    assert WellTyped(Binding, params);
    forall k | k in board.articles
      ensures RowMatches(board.articles[k], params)
    {
      SingleParameter(Binding, Column, Snapshot(board.articles[k]), p, [Str([])]);
    }
    var kept := Search(board, params).value;
    assert forall k :: k in kept <==> k in board.articles;
    assert kept == board.articles.Keys;
  }

  /** Parameters on different properties select the intersection of what each selects. */
  lemma SearchConjunction(board: Store.Board, params: map<ArticlePath, seq<Value>>,
                          others: map<ArticlePath, seq<Value>>)
    requires params.Keys !! others.Keys
    requires WellTyped(Binding, params) && WellTyped(Binding, others)
    ensures Search(board, params + others) == Some(Search(board, params).value * Search(board, others).value)
  {
    WellTypedUnion(Binding, params, others);
    forall k | k in board.articles
      ensures RowMatches(board.articles[k], params + others) <==>
                RowMatches(board.articles[k], params) && RowMatches(board.articles[k], others)
    {
      Conjunction(Binding, Column, Snapshot(board.articles[k]), params, others);
    }
    var both := Search(board, params + others).value;
    var each := Search(board, params).value * Search(board, others).value;
    assert forall k :: k in both <==> k in each;
    assert both == each;
  }

  // The derived finders: Spring Data turns `...Containing` into a case-sensitive
  // `like '%v%'` and a plain property into `=`, joining the owner for
  // `UserAccount_...`.

  function FindByTitleContaining(board: Store.Board, title: string): (r: set<nat>)
    reads board, board.articles.Values
    ensures r <= board.articles.Keys
  {
    set k | k in board.articles && board.articles[k].title.Some? &&
            Text.Contains(board.articles[k].title.value, title)
  }

  function FindByContentContaining(board: Store.Board, content: string): (r: set<nat>)
    reads board, board.articles.Values
    ensures r <= board.articles.Keys
  {
    set k | k in board.articles && board.articles[k].content.Some? &&
            Text.Contains(board.articles[k].content.value, content)
  }

  function FindByUserAccountUserIdContaining(board: Store.Board, userId: string): (r: set<nat>)
    reads board, board.articles.Values
    ensures r <= board.articles.Keys
  {
    set k | k in board.articles && board.articles[k].userAccount.Some? &&
            Text.Contains(board.articles[k].userAccount.value.userId, userId)
  }

  function FindByUserAccountNicknameContaining(board: Store.Board, nickname: string): (r: set<nat>)
    reads board, board.articles.Values
    ensures r <= board.articles.Keys
  {
    set k | k in board.articles && board.articles[k].userAccount.Some? &&
            board.articles[k].userAccount.value.nickname.Some? &&
            Text.Contains(board.articles[k].userAccount.value.nickname.value, nickname)
  }

  /** `findByHashtag(h)`: exact equality; a `null` argument selects the articles
      without a hashtag (`is null`). */
  function FindByHashtag(board: Store.Board, hashtag: Option<string>): (r: set<nat>)
    reads board, board.articles.Values
    ensures r <= board.articles.Keys
  {
    set k | k in board.articles && board.articles[k].hashtag == hashtag
  }

  /** A longer title keyword finds no more articles than any part of it. */
  lemma TitleFinderNarrows(board: Store.Board, v: string, w: string)
    requires Text.Contains(v, w)
    ensures FindByTitleContaining(board, v) <= FindByTitleContaining(board, w)
  {
    forall k | k in FindByTitleContaining(board, v)
      ensures k in FindByTitleContaining(board, w)
    {
      Text.ContainsTransitive(board.articles[k].title.value, v, w);
    }
  }

  lemma ContentFinderNarrows(board: Store.Board, v: string, w: string)
    requires Text.Contains(v, w)
    ensures FindByContentContaining(board, v) <= FindByContentContaining(board, w)
  {
    forall k | k in FindByContentContaining(board, v)
      ensures k in FindByContentContaining(board, w)
    {
      Text.ContainsTransitive(board.articles[k].content.value, v, w);
    }
  }

  lemma UserIdFinderNarrows(board: Store.Board, v: string, w: string)
    requires Text.Contains(v, w)
    ensures FindByUserAccountUserIdContaining(board, v) <= FindByUserAccountUserIdContaining(board, w)
  {
    forall k | k in FindByUserAccountUserIdContaining(board, v)
      ensures k in FindByUserAccountUserIdContaining(board, w)
    {
      Text.ContainsTransitive(board.articles[k].userAccount.value.userId, v, w);
    }
  }

  lemma NicknameFinderNarrows(board: Store.Board, v: string, w: string)
    requires Text.Contains(v, w)
    ensures FindByUserAccountNicknameContaining(board, v) <= FindByUserAccountNicknameContaining(board, w)
  {
    forall k | k in FindByUserAccountNicknameContaining(board, v)
      ensures k in FindByUserAccountNicknameContaining(board, w)
    {
      Text.ContainsTransitive(board.articles[k].userAccount.value.nickname.value, v, w);
    }
  }

  /** The case-sensitive title finder selects no more than the title binding,
      which ignores case. */
  lemma TitleFinderWithinBinding(board: Store.Board, v: string)
    ensures FindByTitleContaining(board, v) <= Search(board, map[Title := [Str(v)]]).value
  {
    if v == [] {
      EmptyKeywordKeepsAll(board, Title);
    } else {
      TitleFilter(board, v);
      forall k | k in FindByTitleContaining(board, v)
        ensures Text.ContainsIgnoreCase(board.articles[k].title.value, v)
      {
        Text.ContainsImpliesIgnoreCase(board.articles[k].title.value, v);
      }
    }
  }

  lemma ContentFinderWithinBinding(board: Store.Board, v: string)
    ensures FindByContentContaining(board, v) <= Search(board, map[Content := [Str(v)]]).value
  {
    if v == [] {
      EmptyKeywordKeepsAll(board, Content);
    } else {
      ContentFilter(board, v);
      forall k | k in FindByContentContaining(board, v)
        ensures Text.ContainsIgnoreCase(board.articles[k].content.value, v)
      {
        Text.ContainsImpliesIgnoreCase(board.articles[k].content.value, v);
      }
    }
  }

  /** `findByHashtag(v)` selects no more than the hashtag binding with the same value. */
  lemma HashtagFinderWithinBinding(board: Store.Board, v: string)
    ensures FindByHashtag(board, Some(v)) <= Search(board, map[Hashtag := [Str(v)]]).value
  {
  }

  /** The hashtag finder partitions the stored articles by their exact hashtag. */
  lemma HashtagFinderExact(board: Store.Board, h: Option<string>, g: Option<string>)
    ensures h != g ==> FindByHashtag(board, h) !! FindByHashtag(board, g)
    ensures forall k :: k in board.articles ==> k in FindByHashtag(board, board.articles[k].hashtag)
  {
  }

  /** The binding and the finder differ on partial tags: `?hashtag=#Spring` selects
      an article tagged `#springboot`, which `findByHashtag("#Spring")` does not. */
  lemma PartialHashtagOnlyMatchesBinding(board: Store.Board, k: nat)
    requires k in board.articles && board.articles[k].hashtag == Some("#springboot")
    ensures k in Search(board, map[Hashtag := [Str("#Spring")]]).value
    ensures k !in FindByHashtag(board, Some("#Spring"))
  {
    HashtagFilter(board, "#Spring");
    assert Text.Lower("#springboot")[..7] == Text.Lower("#Spring");
  }
}
