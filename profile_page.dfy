/** The profile page's statistics: the signed-in user's memes and three sums
    over them, shown only to a signed-in user. */
module ProfilePage {
  import opened Wrappers
  import opened AuthContext
  import opened MemeContext

  /** The quantities the page adds up. */
  datatype Stat = Upvotes | Downvotes | CommentCount

  function StatOf(m: Meme, s: Stat): int {
    match s
    case Upvotes => m.upvotes
    case Downvotes => m.downvotes
    case CommentCount => |m.comments|
  }

  /** `ms.reduce((sum, meme) => sum + stat(meme), 0)`, folding from the left. */
  function Total(ms: seq<Meme>, s: Stat): (r: int)
    ensures s == CommentCount ==> r >= 0
    ensures ms == [] ==> r == 0
  {
    if ms == [] then 0 else Total(ms[..|ms| - 1], s) + StatOf(ms[|ms| - 1], s)
  }

  /** The sum over a concatenation is the sum of the sums. */
  lemma {:induction false} TotalAppend(a: seq<Meme>, b: seq<Meme>, s: Stat)
    ensures Total(a + b, s) == Total(a, s) + Total(b, s)
    decreases |b|
  {
    if b == [] {
      assert a + b == a;
    } else {
      var b' := b[..|b| - 1];
      assert (a + b)[..|a + b| - 1] == a + b';
      assert (a + b)[|a + b| - 1] == b[|b| - 1];
      TotalAppend(a, b', s);
    }
  }

  lemma TotalCons(m: Meme, ms: seq<Meme>, s: Stat)
    ensures Total([m] + ms, s) == StatOf(m, s) + Total(ms, s)
  {
    TotalAppend([m], ms, s);
    assert [m][..0] == [];
  }

  datatype Profile = Profile(userMemes: seq<Meme>, totalUpvotes: int, totalDownvotes: int, totalComments: int) {
    /** The count shown on the page. */
    function MemeCount(): nat {
      |userMemes|
    }
  }

  /** The page's data: nothing unless signed in with a user; otherwise the
      user's memes in store order and the three sums over exactly them. */
  function ProfileView(isAuthenticated: bool, user: Option<User>, memes: seq<Meme>): (r: Option<Profile>)
    ensures r.None? <==> !isAuthenticated || user.None?
    ensures r.Some? ==>
      && (forall m :: m in r.value.userMemes <==> m in memes && m.creator.id == user.value.id)
      && r.value.userMemes == GetUserMemes(memes, user.value.id)
      && r.value.MemeCount() == |r.value.userMemes|
      && r.value.totalUpvotes == Total(r.value.userMemes, Upvotes)
      && r.value.totalDownvotes == Total(r.value.userMemes, Downvotes)
      && r.value.totalComments == Total(r.value.userMemes, CommentCount)
      && r.value.totalComments >= 0
  {
    if !isAuthenticated || user.None? then None
    else
      var userMemes := GetUserMemes(memes, user.value.id);
      Some(Profile(userMemes, Total(userMemes, Upvotes), Total(userMemes, Downvotes),
                   Total(userMemes, CommentCount)))
  }

  /** Creating a meme adds it to its creator's profile, one more meme with no
      votes and no comments, so the three sums do not move. */
  lemma CreatingKeepsTotals(memes: seq<Meme>, u: User, draft: MemeDraft, id: string, now: int)
    ensures var before := ProfileView(true, Some(u), memes).value;
      var after := ProfileView(true, Some(u), [NewMeme(draft, u, id, now)] + memes).value;
      && after.userMemes == [NewMeme(draft, u, id, now)] + before.userMemes
      && after.MemeCount() == before.MemeCount() + 1
      && after.totalUpvotes == before.totalUpvotes
      && after.totalDownvotes == before.totalDownvotes
      && after.totalComments == before.totalComments
  {
    var m := NewMeme(draft, u, id, now);
    CreatedMemeVisible(memes, m);
    var mine := GetUserMemes(memes, u.id);
    TotalCons(m, mine, Upvotes);
    TotalCons(m, mine, Downvotes);
    TotalCons(m, mine, CommentCount);
  }

  /** A comment added to a meme id raises the comment sum over a list by the
      number of memes in it with that id. */
  lemma {:induction false} CommentRaisesTotal(ms: seq<Meme>, memeId: string, c: Comment)
    ensures Total(UpdateWhere(ms, memeId, AppendComment(c)), CommentCount)
         == Total(ms, CommentCount) + |Filter(ms, HasId(memeId))|
  {
    if ms != [] {
      assert ms == [ms[0]] + ms[1..];
      CommentStep(ms[0], ms[1..], memeId, c);
      CommentRaisesTotal(ms[1..], memeId, c);
    }
  }

  /** The head's share of `CommentRaisesTotal`: one more comment exactly when
      its id matches. */
  lemma CommentStep(h: Meme, t: seq<Meme>, memeId: string, c: Comment)
    ensures var hit := if h.id == memeId then 1 else 0;
      && Total(UpdateWhere([h] + t, memeId, AppendComment(c)), CommentCount)
         == |h.comments| + hit + Total(UpdateWhere(t, memeId, AppendComment(c)), CommentCount)
      && Total([h] + t, CommentCount) == |h.comments| + Total(t, CommentCount)
      && |Filter([h] + t, HasId(memeId))| == hit + |Filter(t, HasId(memeId))|
  {
    var h' := if h.id == memeId then ApplyEdit(h, AppendComment(c)) else h;
    var rest := UpdateWhere(t, memeId, AppendComment(c));
    UpdateWhereCons(h, t, memeId, AppendComment(c));
    FilterCons(h, t, HasId(memeId));
    TotalCons(h', rest, CommentCount);
    TotalCons(h, t, CommentCount);
  }

  /** After a successful comment, the signed-in user's comment sum rises by
      the number of their memes that carry the commented id (one, when ids are
      unique). */
  lemma CommentShowsInProfile(memes: seq<Meme>, u: User, memeId: string, c: Comment)
    ensures var before := ProfileView(true, Some(u), memes).value;
      var after := ProfileView(true, Some(u), UpdateWhere(memes, memeId, AppendComment(c))).value;
      after.totalComments == before.totalComments + |Filter(before.userMemes, HasId(memeId))|
  {
    FilterUpdateCommute(memes, CreatedBy(u.id), memeId, AppendComment(c));
    CommentRaisesTotal(GetUserMemes(memes, u.id), memeId, c);
  }
}
