/** `ArticleRepositoryCustomImpl.findAllDistinctHashtags()`: the Querydsl query
    `select distinct hashtag from article where hashtag is not null`. */
module HashtagQuery {
  import opened Domain
  import Store

  /** The hashtag of every stored article that has one, by article id. */
  function Tags(board: Store.Board): (m: map<nat, string>)
    reads board, board.articles.Values
    ensures m.Keys <= board.articles.Keys
    ensures forall k :: k in m <==> k in board.articles && board.articles[k].hashtag.Some?
    ensures forall k :: k in m ==> board.articles[k].hashtag == Some(m[k])
  {
    map k | k in board.articles && board.articles[k].hashtag.Some? :: board.articles[k].hashtag.value
  }

  /** The distinct non-null hashtags: a value is returned exactly when some stored
      article carries it, so `null` never is and none is returned twice. */
  function FindAllDistinctHashtags(board: Store.Board): (r: set<string>)
    reads board, board.articles.Values
    ensures forall h :: h in r <==> exists k :: k in board.articles && board.articles[k].hashtag == Some(h)
  {
    var tags := Tags(board);
    assert forall h :: h in tags.Values <==> exists k :: k in tags && tags[k] == h;
    tags.Values
  }

  /** A map has no more distinct values than keys. */
  lemma ValuesBound<K, V>(m: map<K, V>)
    ensures |m.Values| <= |m|
  {
  }

  /** Two keys sharing a value make the distinct values strictly fewer than the keys. */
  lemma SharedValueShrinks<K, V>(m: map<K, V>, j: K, k: K)
    requires j in m && k in m && j != k && m[j] == m[k]
    ensures |m.Values| < |m|
  {
    var rest := m - {j};
    assert |rest| == |m| - 1 by {
      assert rest.Keys == m.Keys - {j};
    }
    ValuesBound(rest);
    assert m.Values <= rest.Values by {
      forall v | v in m.Values
        ensures v in rest.Values
      {
        var i :| i in m && m[i] == v;
        if i == j {
          assert rest[k] == v;
        } else {
          assert rest[i] == v;
        }
      }
    }
    assert |m.Values| <= |rest.Values| by {
      SubsetCard(m.Values, rest.Values);
    }
  }

  lemma SubsetCard<T>(a: set<T>, b: set<T>)
    requires a <= b
    ensures |a| <= |b|
  {
    assert b == a + (b - a);
  }

  /** There are at most as many distinct hashtags as tagged articles. */
  lemma DistinctHashtagsBound(board: Store.Board)
    ensures |FindAllDistinctHashtags(board)| <= |Tags(board)|
  {
    ValuesBound(Tags(board));
  }

  /** When two stored articles share a hashtag, it is returned once: the result has
      strictly fewer values than there are tagged articles. */
  lemma SharedHashtagReturnedOnce(board: Store.Board, j: nat, k: nat)
    requires j in board.articles && k in board.articles && j != k
    requires board.articles[j].hashtag.Some? && board.articles[j].hashtag == board.articles[k].hashtag
    ensures |FindAllDistinctHashtags(board)| < |Tags(board)|
  {
    SharedValueShrinks(Tags(board), j, k);
  }
}
