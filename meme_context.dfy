/** The meme store: the ordered collection of memes, the vote toggle, comments,
    creation, flagging, and the views derived from the collection (featured
    memes, meme of the day, a user's memes, lookup by id). */
module MemeContext {
  import opened Wrappers
  import opened AuthContext
  import opened Sorting

  datatype Direction = Up | Down

  /** The viewer's vote on a meme. The field is optional and nullable in the
      application, so it has four states: never set (`undefined`, which is how
      seeded and newly created memes start), cleared (`null`), up and down. */
  datatype UserVote = Unset | NoVote | Voted(direction: Direction)

  /** The copy of a user's identity stamped on a meme or a comment. */
  datatype Author = Author(id: string, username: string, avatar: Option<string>)

  datatype Comment = Comment(id: string, text: string, user: Author, createdAt: int)

  /** A meme; `createdAt` is a timestamp in milliseconds. The vote counters
      are plain integers: nothing keeps them non-negative. */
  datatype Meme = Meme(
    id: string,
    imageUrl: string,
    topText: Option<string>,
    bottomText: Option<string>,
    creator: Author,
    createdAt: int,
    upvotes: int,
    downvotes: int,
    userVote: UserVote,
    comments: seq<Comment>,
    tags: seq<string>,
    isFeatured: bool)

  /** The fields a caller of `createMeme` may supply. */
  datatype MemeDraft = MemeDraft(
    imageUrl: Option<string>,
    topText: Option<string>,
    bottomText: Option<string>,
    tags: Option<seq<string>>)

  /** The toasts the store raises. */
  datatype Notice =
    | NoNotice
    | LoginToVote
    | LoginToComment
    | LoginToFlag
    | CommentTooLong
    | CommentAdded
    | FlaggedForReview

  datatype CreateError = MustBeLoggedIn

  const MaxCommentLength: nat := 140
  const FeaturedCount: nat := 3

  function AuthorOf(u: User): Author {
    Author(u.id, u.username, u.avatar)
  }

  function Opposite(d: Direction): Direction {
    if d == Up then Down else Up
  }

  /** The counter that belongs to a direction. */
  function Tally(m: Meme, d: Direction): int {
    if d == Up then m.upvotes else m.downvotes
  }

  /** The ranking score, upvotes minus downvotes. */
  function Score(m: Meme): int {
    m.upvotes - m.downvotes
  }

  function CreationTime(m: Meme): int {
    m.createdAt
  }

  // ---------------------------------------------------------------------------
  // The vote toggle

  /** One vote in direction `v` on one meme: repeating the current vote
      retracts it; voting from a cleared vote adds one; in every other state,
      which includes a vote never set, the vote is moved and the opposite
      counter loses one. Nothing but the counters and the vote changes. */
  function ApplyVote(m: Meme, v: Direction): (r: Meme)
    ensures r == m.(upvotes := r.upvotes, downvotes := r.downvotes, userVote := r.userVote)
    ensures m.userVote == Voted(v) ==>
      && Tally(r, v) == Tally(m, v) - 1
      && Tally(r, Opposite(v)) == Tally(m, Opposite(v))
      && r.userVote == NoVote
    ensures m.userVote == NoVote ==>
      && Tally(r, v) == Tally(m, v) + 1
      && Tally(r, Opposite(v)) == Tally(m, Opposite(v))
      && r.userVote == Voted(v)
    ensures (m.userVote == Unset || m.userVote == Voted(Opposite(v))) ==>
      && Tally(r, v) == Tally(m, v) + 1
      && Tally(r, Opposite(v)) == Tally(m, Opposite(v)) - 1
      && r.userVote == Voted(v)
    ensures r.userVote != Unset
    ensures var delta := if v == Up then 1 else -1;
      Score(r) - Score(m) == (match m.userVote
        case NoVote => delta
        case Voted(d) => if d == v then -delta else 2 * delta
        case Unset => 2 * delta)
  {
    if m.userVote == Voted(v) then
      m.(upvotes := if v == Up then m.upvotes - 1 else m.upvotes,
         downvotes := if v == Down then m.downvotes - 1 else m.downvotes,
         userVote := NoVote)
    else if m.userVote != NoVote then
      m.(upvotes := if v == Up then m.upvotes + 1 else m.upvotes - 1,
         downvotes := if v == Down then m.downvotes + 1 else m.downvotes - 1,
         userVote := Voted(v))
    else
      m.(upvotes := if v == Up then m.upvotes + 1 else m.upvotes,
         downvotes := if v == Down then m.downvotes + 1 else m.downvotes,
         userVote := Voted(v))
  }

  /** From a cleared vote or a vote in the same direction, voting twice the
      same way restores the meme exactly. */
  lemma VoteTwiceRestores(m: Meme, v: Direction)
    requires m.userVote == NoVote || m.userVote == Voted(v)
    ensures ApplyVote(ApplyVote(m, v), v) == m
  {
  }

  /** From a vote never set, voting twice the same way does not restore the
      meme: the opposite counter ends one lower and the vote ends cleared. */
  lemma VoteTwiceFromUnsetDrifts(m: Meme, v: Direction)
    requires m.userVote == Unset
    ensures Tally(ApplyVote(ApplyVote(m, v), v), v) == Tally(m, v)
    ensures Tally(ApplyVote(ApplyVote(m, v), v), Opposite(v)) == Tally(m, Opposite(v)) - 1
    ensures ApplyVote(ApplyVote(m, v), v).userVote == NoVote
  {
  }

  /** The first vote on a meme whose vote was never set drives the opposite
      counter below zero when it was zero, as for a freshly created meme. */
  lemma FirstVoteCanGoNegative(m: Meme, v: Direction)
    requires m.userVote == Unset && Tally(m, Opposite(v)) == 0
    ensures Tally(ApplyVote(m, v), Opposite(v)) == -1
  {
  }

  // ---------------------------------------------------------------------------
  // Per-meme updates by id

  /** The two in-place edits the store applies to the memes with a given id. */
  datatype MemeEdit = CastVote(direction: Direction) | AppendComment(comment: Comment)

  function ApplyEdit(m: Meme, e: MemeEdit): (r: Meme)
    ensures r.id == m.id && r.creator == m.creator && r.createdAt == m.createdAt && r.isFeatured == m.isFeatured
    ensures e.AppendComment? ==>
      && |r.comments| == |m.comments| + 1
      && r.comments[..|m.comments|] == m.comments
      && r.comments[|m.comments|] == e.comment
      && r == m.(comments := r.comments)
  {
    match e
    case CastVote(v) => ApplyVote(m, v)
    case AppendComment(c) => m.(comments := m.comments + [c])
  }

  /** `memes.map(meme => meme.id === memeId ? edit(meme) : meme)`: every meme
      with the id is edited (ids are not unique), the others are kept, and the
      length and the order of ids are preserved. */
  function UpdateWhere(memes: seq<Meme>, memeId: string, e: MemeEdit): (r: seq<Meme>)
    ensures |r| == |memes|
    ensures forall i :: 0 <= i < |memes| ==> r[i].id == memes[i].id
    ensures forall i :: 0 <= i < |memes| && memes[i].id != memeId ==> r[i] == memes[i]
    ensures forall i :: 0 <= i < |memes| && memes[i].id == memeId ==> r[i] == ApplyEdit(memes[i], e)
  {
    if memes == [] then []
    else [if memes[0].id == memeId then ApplyEdit(memes[0], e) else memes[0]]
         + UpdateWhere(memes[1..], memeId, e)
  }

  /** An edit addressed to an id no meme has changes nothing. */
  lemma UpdateUnknownIdChangesNothing(memes: seq<Meme>, memeId: string, e: MemeEdit)
    requires forall m :: m in memes ==> m.id != memeId
    ensures UpdateWhere(memes, memeId, e) == memes
  {
    var r := UpdateWhere(memes, memeId, e);
    assert forall i :: 0 <= i < |memes| ==> r[i] == memes[i] by {
      forall i | 0 <= i < |memes| ensures r[i] == memes[i] {
        assert memes[i] in memes;
      }
    }
  }

  // ---------------------------------------------------------------------------
  // Queries: filter and find

  /** The predicates the application filters and searches memes with. */
  datatype MemeQuery = Featured | HasId(id: string) | CreatedBy(userId: string) | CreatedSince(cutoff: int)

  predicate Matches(m: Meme, q: MemeQuery) {
    match q
    case Featured => m.isFeatured
    case HasId(id) => m.id == id
    case CreatedBy(userId) => m.creator.id == userId
    case CreatedSince(cutoff) => m.createdAt >= cutoff
  }

  /** `memes.filter(...)`: exactly the matching memes, each as often as it
      occurs (see `FilterCounts`), in store order (see `FilterAppend`). */
  function Filter(memes: seq<Meme>, q: MemeQuery): (r: seq<Meme>)
    ensures forall m :: m in r <==> m in memes && Matches(m, q)
    ensures |r| <= |memes|
  {
    if memes == [] then []
    else
      assert memes == [memes[0]] + memes[1..];
      (if Matches(memes[0], q) then [memes[0]] else []) + Filter(memes[1..], q)
  }

  /** Each matching meme is kept as often as it occurs; no other is kept. */
  lemma {:induction false} FilterCounts(memes: seq<Meme>, q: MemeQuery)
    ensures forall m :: multiset(Filter(memes, q))[m] == if Matches(m, q) then multiset(memes)[m] else 0
  {
    if memes != [] {
      FilterCounts(memes[1..], q);
      assert memes == [memes[0]] + memes[1..];
    }
  }

  /** Filtering distributes over concatenation, so it keeps the relative
      order of the memes it keeps. */
  lemma {:induction false} FilterAppend(a: seq<Meme>, b: seq<Meme>, q: MemeQuery)
    ensures Filter(a + b, q) == Filter(a, q) + Filter(b, q)
  {
    if a == [] {
      assert a + b == b;
    } else {
      assert (a + b)[1..] == a[1..] + b;
      FilterAppend(a[1..], b, q);
    }
  }

  /** `memes.find(...)`: the first matching meme, or none when no meme matches. */
  function Find(memes: seq<Meme>, q: MemeQuery): (r: Option<Meme>)
    ensures r.None? <==> forall m :: m in memes ==> !Matches(m, q)
    ensures r.Some? ==> exists i :: 0 <= i < |memes| && memes[i] == r.value && Matches(r.value, q)
                                    && forall j :: 0 <= j < i ==> !Matches(memes[j], q)
  {
    if memes == [] then None
    else if Matches(memes[0], q) then Some(memes[0])
    else
      var r := Find(memes[1..], q);
      assert forall m :: m in memes ==> m == memes[0] || m in memes[1..];
      if r.Some? then
        var i :| 0 <= i < |memes[1..]| && memes[1..][i] == r.value && Matches(r.value, q)
                 && forall j :: 0 <= j < i ==> !Matches(memes[1..][j], q);
        assert memes[i + 1] == r.value;
        assert forall j :: 0 <= j < i + 1 ==> !Matches(memes[j], q) by {
          forall j | 0 <= j < i + 1 ensures !Matches(memes[j], q) {
            if j > 0 { assert memes[j] == memes[1..][j - 1]; }
          }
        }
        r
      else r
  }

  /** `find` returns the head of what `filter` keeps. */
  lemma {:induction false} FindIsFirstOfFilter(memes: seq<Meme>, q: MemeQuery)
    ensures Find(memes, q) == if Filter(memes, q) == [] then None else Some(Filter(memes, q)[0])
  {
    if memes != [] && !Matches(memes[0], q) {
      FindIsFirstOfFilter(memes[1..], q);
    }
  }

  lemma FilterCons(m: Meme, ms: seq<Meme>, q: MemeQuery)
    ensures Filter([m] + ms, q) == (if Matches(m, q) then [m] else []) + Filter(ms, q)
  {
    assert ([m] + ms)[1..] == ms;
  }

  lemma UpdateWhereCons(m: Meme, ms: seq<Meme>, memeId: string, e: MemeEdit)
    ensures UpdateWhere([m] + ms, memeId, e)
         == [if m.id == memeId then ApplyEdit(m, e) else m] + UpdateWhere(ms, memeId, e)
  {
    assert ([m] + ms)[1..] == ms;
  }

  /** Edits never change what a query matches, so filtering and editing by id
      commute. */
  lemma {:induction false} FilterUpdateCommute(memes: seq<Meme>, q: MemeQuery, memeId: string, e: MemeEdit)
    ensures Filter(UpdateWhere(memes, memeId, e), q) == UpdateWhere(Filter(memes, q), memeId, e)
  {
    if memes != [] {
      var h, t := memes[0], memes[1..];
      assert memes == [h] + t;
      var h' := if h.id == memeId then ApplyEdit(h, e) else h;
      assert Matches(h', q) == Matches(h, q);
      var ut := UpdateWhere(t, memeId, e);
      var ft := Filter(t, q);
      UpdateWhereCons(h, t, memeId, e);
      FilterCons(h', ut, q);
      FilterCons(h, t, q);
      FilterUpdateCommute(t, q, memeId, e);
      if Matches(h, q) {
        UpdateWhereCons(h, ft, memeId, e);
        calc {
          Filter(UpdateWhere(memes, memeId, e), q);
          Filter([h'] + ut, q);
          [h'] + Filter(ut, q);
          [h'] + UpdateWhere(ft, memeId, e);
          UpdateWhere([h] + ft, memeId, e);
          UpdateWhere(Filter(memes, q), memeId, e);
        }
      } else {
        calc {
          Filter(UpdateWhere(memes, memeId, e), q);
          Filter([h'] + ut, q);
          { assert [] + Filter(ut, q) == Filter(ut, q); }
          Filter(ut, q);
          UpdateWhere(ft, memeId, e);
          { assert [] + ft == ft; }
          UpdateWhere(Filter(memes, q), memeId, e);
        }
      }
    }
  }

  // ---------------------------------------------------------------------------
  // Derived views

  /** `memeOfTheDay`: the first featured meme in store order, or none. */
  function MemeOfTheDay(memes: seq<Meme>): (r: Option<Meme>)
    ensures r.None? <==> forall m :: m in memes ==> !m.isFeatured
    ensures r.Some? ==> r.value.isFeatured && r.value in memes
    ensures r.Some? ==> exists i :: 0 <= i < |memes| && memes[i] == r.value
                                    && forall j :: 0 <= j < i ==> !memes[j].isFeatured
  {
    Find(memes, Featured)
  }

  /** `getUserMemes(userId)`: the user's memes in store order. */
  function GetUserMemes(memes: seq<Meme>, userId: string): (r: seq<Meme>)
    ensures forall m :: m in r <==> m in memes && m.creator.id == userId
  {
    Filter(memes, CreatedBy(userId))
  }

  /** `getMemeById(id)`: the first meme with the id, or none. */
  function GetMemeById(memes: seq<Meme>, id: string): (r: Option<Meme>)
    ensures r.None? <==> forall m :: m in memes ==> m.id != id
    ensures r.Some? ==> r.value.id == id && r.value in memes
    ensures r.Some? ==> exists i :: 0 <= i < |memes| && memes[i] == r.value
                                    && forall j :: 0 <= j < i ==> memes[j].id != id
  {
    Find(memes, HasId(id))
  }

  /** `featuredMemes`: the three best-scoring memes, best first, taken from a
      sorted copy so that the collection itself is not reordered. */
  function FeaturedMemes(memes: seq<Meme>): (r: seq<Meme>)
    ensures |r| == if |memes| < FeaturedCount then |memes| else FeaturedCount
    ensures SortedDesc(r, Score)
    ensures multiset(r) <= multiset(memes)
  {
    var sorted := SortDesc(memes, Score);
    var r := sorted[..if |memes| < FeaturedCount then |memes| else FeaturedCount];
    assert sorted == r + sorted[|r|..];
    r
  }

  /** Every meme left out of the featured list scores no more than the last
      featured one. */
  lemma FeaturedAreTop(memes: seq<Meme>, m: Meme)
    requires m in multiset(memes) - multiset(FeaturedMemes(memes))
    ensures FeaturedMemes(memes) != []
    ensures Score(m) <= Score(FeaturedMemes(memes)[|FeaturedMemes(memes)| - 1])
  {
    var sorted := SortDesc(memes, Score);
    var r := FeaturedMemes(memes);
    assert r == sorted[..|r|];
    assert |memes| > 0;
    PrefixDominates(sorted, |r|, Score, m);
  }

  // ---------------------------------------------------------------------------
  // Creating memes and comments

  /** The meme `createMeme` builds: stamped with the user, no votes, no
      comments, the vote never set, tags defaulting to none. */
  function NewMeme(draft: MemeDraft, u: User, id: string, now: int): (m: Meme)
    ensures m.id == id && m.createdAt == now
    ensures m.creator == AuthorOf(u)
    ensures m.upvotes == 0 && m.downvotes == 0 && m.comments == []
    ensures m.userVote == Unset && !m.isFeatured
    ensures m.imageUrl == draft.imageUrl.GetOr("")
    ensures m.topText == draft.topText && m.bottomText == draft.bottomText
    ensures m.tags == draft.tags.GetOr([])
  {
    Meme(id, draft.imageUrl.GetOr(""), draft.topText, draft.bottomText, AuthorOf(u),
         now, 0, 0, Unset, [], draft.tags.GetOr([]), false)
  }

  /** The comment `addComment` builds: the text as given, stamped with the
      commenting user's id, name and avatar and with the current time. */
  function NewComment(id: string, text: string, u: User, now: int): (c: Comment)
    ensures c.id == id && c.text == text && c.createdAt == now
    ensures c.user.id == u.id && c.user.username == u.username && c.user.avatar == u.avatar
  {
    Comment(id, text, AuthorOf(u), now)
  }

  /** A created meme is found by its id even when an older meme has the same
      id, and heads its creator's list. */
  lemma CreatedMemeVisible(memes: seq<Meme>, m: Meme)
    ensures GetMemeById([m] + memes, m.id) == Some(m)
    ensures GetUserMemes([m] + memes, m.creator.id) == [m] + GetUserMemes(memes, m.creator.id)
  {
    assert ([m] + memes)[1..] == memes;
  }

  // ---------------------------------------------------------------------------
  // Seed data

  const UnsplashPrefix: string := "https://images.unsplash.com/photo-"

  function SeedAuthor(id: string, username: string, seed: string): Author {
    Author(id, username, Some(AvatarPrefix + seed))
  }

  /** The five memes the store starts with (creation dates at midnight UTC). */
  const SeedMemes: seq<Meme> := [
    Meme("1", UnsplashPrefix + "1488590528505-98d2b5aba04b",
         Some("When the code works"), Some("But you don't know why"),
         SeedAuthor("user1", "javascriptNinja", "javascript"),
         1684108800000, 350, 12, Unset, [], ["javascript", "debugging"], true),
    Meme("2", UnsplashPrefix + "1461749280684-dccba630e2f6",
         Some("My code in production"), Some("My code in development"),
         SeedAuthor("user2", "reactRockstar", "react"),
         1684195200000, 280, 15, Unset,
         [Comment("comment1", "This is so true!", SeedAuthor("user3", "pythonLover", "python"), 1684233000000)],
         ["production", "bugs"], false),
    Meme("3", UnsplashPrefix + "1486312338219-ce68d2c6f44d",
         Some("CSS is easy"), Some("Said no developer ever"),
         SeedAuthor("user3", "pythonLover", "python"),
         1684281600000, 420, 8, Unset, [], ["css", "frontend"], false),
    Meme("4", UnsplashPrefix + "1581091226825-a6a2a5aee158",
         Some("Debugging like"), Some("Finding a needle in a haystack"),
         SeedAuthor("user4", "cssWizard", "css"),
         1684368000000, 180, 5, Unset, [], ["debugging", "bugs"], false),
    Meme("5", UnsplashPrefix + "1498050108023-c5249f4df085",
         Some("When someone asks"), Some("If I tested my code"),
         SeedAuthor("user5", "nodeMaster", "node"),
         1684454400000, 300, 10, Unset, [], ["testing", "memes"], false)
  ]

  /** No seeded meme has a vote set, and the first is the meme of the day. */
  lemma SeedFacts()
    ensures |SeedMemes| == 5
    ensures forall m :: m in SeedMemes ==> m.userVote == Unset
    ensures MemeOfTheDay(SeedMemes) == Some(SeedMemes[0])
  {
  }

  // ---------------------------------------------------------------------------
  // The store

  class MemeStore {
    var memes: seq<Meme>
    /** One of "new", "top-day", "top-week", "top-all" in practice; any string
        can be set. */
    var activeTab: string

    constructor ()
      ensures memes == SeedMemes && activeTab == "new"
    {
      memes := SeedMemes;
      activeTab := "new";
    }

    method SetActiveTab(tab: string)
      modifies this
      ensures activeTab == tab && memes == old(memes)
    {
      activeTab := tab;
    }

    /** Fails, changing nothing, when no user is signed in; otherwise puts the
        new meme at the front of the collection and returns it. */
    method CreateMeme(user: Option<User>, draft: MemeDraft, freshId: string, now: int)
      returns (r: Result<Meme, CreateError>)
      modifies this
      ensures activeTab == old(activeTab)
      ensures user.None? ==> r == Failure(MustBeLoggedIn) && memes == old(memes)
      ensures user.Some? ==> r == Success(NewMeme(draft, user.value, freshId, now))
                             && memes == [r.value] + old(memes)
    {
      if user.None? {
        return Failure(MustBeLoggedIn);
      }
      var meme := NewMeme(draft, user.value, freshId, now);
      memes := [meme] + memes;
      r := Success(meme);
    }

    /** Refused with a toast when signed out; otherwise the vote toggle is
        applied to every meme with the id. */
    method VoteMeme(isAuthenticated: bool, memeId: string, voteType: Direction)
      returns (notice: Notice)
      modifies this
      ensures activeTab == old(activeTab)
      ensures !isAuthenticated ==> notice == LoginToVote && memes == old(memes)
      ensures isAuthenticated ==> notice == NoNotice
                                  && memes == UpdateWhere(old(memes), memeId, CastVote(voteType))
    {
      if !isAuthenticated {
        return LoginToVote;
      }
      memes := UpdateWhere(memes, memeId, CastVote(voteType));
      notice := NoNotice;
    }

    /** Refused when signed out or without a user, and when the text is longer
        than 140 characters (exactly 140 is accepted; the empty text is too).
        Otherwise appends one comment stamped with the user to every meme with
        the id, and reports success even when no meme has it. */
    method AddComment(isAuthenticated: bool, user: Option<User>, memeId: string, text: string,
                      freshId: string, now: int)
      returns (notice: Notice)
      modifies this
      ensures activeTab == old(activeTab)
      ensures (!isAuthenticated || user.None?) ==> notice == LoginToComment && memes == old(memes)
      ensures isAuthenticated && user.Some? && |text| > MaxCommentLength ==>
                notice == CommentTooLong && memes == old(memes)
      ensures isAuthenticated && user.Some? && |text| <= MaxCommentLength ==>
                && notice == CommentAdded
                && memes == UpdateWhere(old(memes), memeId,
                                        AppendComment(NewComment(freshId, text, user.value, now)))
    {
      if !isAuthenticated || user.None? {
        return LoginToComment;
      }
      if |text| > MaxCommentLength {
        return CommentTooLong;
      }
      var comment := NewComment(freshId, text, user.value, now);
      memes := UpdateWhere(memes, memeId, AppendComment(comment));
      notice := CommentAdded;
    }

    /** Flagging is acknowledged but recorded nowhere: the store is not
        modified in any case. */
    method FlagMeme(isAuthenticated: bool, memeId: string, reason: string)
      returns (notice: Notice)
      ensures isAuthenticated <==> notice == FlaggedForReview
      ensures !isAuthenticated ==> notice == LoginToFlag
    {
      if !isAuthenticated {
        return LoginToFlag;
      }
      notice := FlaggedForReview;
    }
  }

  // ---------------------------------------------------------------------------
  // Checks the callers make before calling the store

  /** The comment forms refuse a comment that is empty after trimming. */
  predicate CommentFormAccepts(text: string): (r: bool)
    ensures r <==> exists i :: 0 <= i < |text| && !JsString.IsWhitespace(text[i])
  {
    JsString.Trim(text) != []
  }

  /** The flag forms require a reason of 5 to 200 characters. */
  predicate FlagFormAccepts(reason: string) {
    5 <= |reason| <= 200
  }

  /** The flag forms count characters without trimming, so a reason of five
      spaces is accepted where the same text as a comment is refused. */
  lemma BlankFlagReasonAccepted()
    ensures FlagFormAccepts("     ") && !CommentFormAccepts("     ")
  {
    assert JsString.IsWhitespace("     "[0]);
  }

  /** A comment that passes its form and the store has 1 to 140 characters, at
      least one of them not whitespace. */
  lemma AcceptedCommentBounds(text: string)
    requires CommentFormAccepts(text) && |text| <= MaxCommentLength
    ensures 1 <= |text| <= MaxCommentLength
    ensures exists i :: 0 <= i < |text| && !JsString.IsWhitespace(text[i])
  {
  }
}
