/** The board's entities: user accounts, the Article entity (a mutable object
    with a store-assigned id and identity-based equality) and article comments. */
module Domain {

  datatype Option<+T> = None | Some(value: T)

  /** Creation instants are opaque, totally ordered values. */
  type Timestamp = int

  /** Maximum length of the `content` column of an article. */
  const MaxContentLength: nat := 10000

  /** JPA's default length of a string column that declares none (`title`, `hashtag`). */
  const DefaultColumnLength: nat := 255

  /** A user: its login id and its (nullable) display nickname. */
  datatype UserAccount = UserAccount(userId: string, nickname: Option<string>)

  /** A persisted comment: the id of its owning article, the id of its owner, its text and
      the audit stamps the persistence boundary set when it was saved. */
  datatype ArticleComment = ArticleComment(
    articleId: nat,
    ownerId: string,
    content: string,
    createdAt: Timestamp,
    createdBy: string)

  /** What a write that may be skipped did: it ran, or it was abandoned with a warning. */
  datatype Outcome = Applied | Skipped

  /** The operand of `equals(Object)`: `null`, an Article, or a value of another class. */
  datatype Object = Null | AnArticle(article: Article) | NotAnArticle {
    function Refs(): set<object>
    {
      if AnArticle? then {article} else {}
    }
  }

  /** Java's `long` bit pattern of an integer (two's complement, modulo 2^64). */
  function LongBits(v: int): bv64
  {
    (v % 0x1_0000_0000_0000_0000) as bv64
  }

  /** `Long.hashCode(v)`: `(int) (v ^ (v >>> 32))`, as a 32-bit pattern. */
  function LongHashCode(v: int): bv32
  {
    var b := LongBits(v);
    ((b ^ (b >> 32)) as int % 0x1_0000_0000) as bv32
  }

  /** `Objects.hash(id)`: `31 * 1 + (id == null ? 0 : id.hashCode())` in 32-bit arithmetic. */
  function ObjectsHash(id: Option<nat>): (h: bv32)
    ensures id.None? ==> h == 31
  {
    31 + (if id.Some? then LongHashCode(id.value) else 0)
  }

  class Article {
    /** Assigned by the store on first persist; there is no setter. */
    var id: Option<nat>
    var userAccount: Option<UserAccount>
    var title: Option<string>
    var content: Option<string>
    var hashtag: Option<string>
    /** Audit stamps, written by the persistence boundary only. */
    var createdAt: Option<Timestamp>
    var createdBy: Option<string>

    /** `new Article(userAccount, title, content, hashtag)`. */
    constructor (userAccount: Option<UserAccount>, title: Option<string>,
                 content: Option<string>, hashtag: Option<string>)
      ensures this.userAccount == userAccount && this.title == title
      ensures this.content == content && this.hashtag == hashtag
      ensures id == None
      ensures createdAt == None && createdBy == None
    {
      this.userAccount := userAccount;
      this.title := title;
      this.content := content;
      this.hashtag := hashtag;
      id := None;
      createdAt := None;
      createdBy := None;
    }

    /** `Article.of(...)`: a fresh, unpersisted article with exactly the given fields. */
    static method Of(userAccount: Option<UserAccount>, title: Option<string>,
                     content: Option<string>, hashtag: Option<string>) returns (a: Article)
      ensures fresh(a)
      ensures a.userAccount == userAccount && a.title == title
      ensures a.content == content && a.hashtag == hashtag
      ensures a.id == None
      ensures a.createdAt == None && a.createdBy == None
    {
      a := new Article(userAccount, title, content, hashtag);
    }

    // Each setter's frame is its own field: `id` and every other field keep their values.

    method SetUserAccount(u: Option<UserAccount>)
      modifies this`userAccount
      ensures userAccount == u
    {
      userAccount := u;
    }

    method SetTitle(t: Option<string>)
      modifies this`title
      ensures title == t
    {
      title := t;
    }

    method SetContent(c: Option<string>)
      modifies this`content
      ensures content == c
    {
      content := c;
    }

    method SetHashtag(h: Option<string>)
      modifies this`hashtag
      ensures hashtag == h
    {
      hashtag := h;
    }

    /** The column constraints: a non-null owner, title and content, content at
        most `MaxContentLength` characters, title and hashtag at most the default
        `DefaultColumnLength`. */
    predicate Storable(): (r: bool)
      reads this
      ensures r ==> userAccount.Some? && title.Some? && content.Some?
      ensures content.Some? && |content.value| > MaxContentLength ==> !r
      ensures title.Some? && |title.value| > DefaultColumnLength ==> !r
      ensures hashtag.Some? && |hashtag.value| > DefaultColumnLength ==> !r
    {
      && userAccount.Some?
      && title.Some?
      && content.Some?
      && |content.value| <= MaxContentLength
      && |title.value| <= DefaultColumnLength
      && (hashtag.None? || |hashtag.value| <= DefaultColumnLength)
    }

    /** `equals(Object o)`: the same reference, or another Article with the same non-null id. */
    predicate Equals(o: Object): (r: bool)
      reads this, o.Refs()
      ensures r <==> o.AnArticle? && (o.article == this || (id.Some? && id == o.article.id))
    {
      if o.AnArticle? && o.article == this then true
      else if !o.AnArticle? then false
      else id.Some? && id == o.article.id
    }

    /** `hashCode()`: `Objects.hash(id)`. */
    function HashCode(): (h: bv32)
      reads this
      ensures id.None? ==> h == 31
    {
      ObjectsHash(id)
    }
  }

  /** Every article equals itself, persisted or not. */
  lemma EqualsReflexive(a: Article)
    ensures a.Equals(AnArticle(a))
  {
  }

  /** `null` and values of other classes are never equal to an article. */
  lemma EqualsOnlyArticles(a: Article, o: Object)
    requires !o.AnArticle?
    ensures !a.Equals(o)
  {
  }

  /** Two distinct instances are equal exactly when both carry the same id;
      in particular an unpersisted article equals no other instance. */
  lemma EqualsDistinctInstances(a: Article, b: Article)
    requires a != b
    ensures a.Equals(AnArticle(b)) <==> a.id.Some? && b.id.Some? && a.id == b.id
    ensures a.id.None? ==> !a.Equals(AnArticle(b)) && !b.Equals(AnArticle(a))
  {
  }

  lemma EqualsSymmetric(a: Article, b: Article)
    ensures a.Equals(AnArticle(b)) <==> b.Equals(AnArticle(a))
  {
  }

  lemma EqualsTransitive(a: Article, b: Article, c: Article)
    requires a.Equals(AnArticle(b)) && b.Equals(AnArticle(c))
    ensures a.Equals(AnArticle(c))
  {
  }

  /** Equal articles have equal hash codes. */
  lemma EqualsConsistentWithHashCode(a: Article, b: Article)
    requires a.Equals(AnArticle(b))
    ensures a.HashCode() == b.HashCode()
  {
  }
}
