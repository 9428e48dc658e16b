/** The dashboard's derived values: the avatar row for the player's tier,
    the book offered to continue, and the count of books with progress. */
module DashboardView {
  import opened Common
  import opened GameTypes
  import opened Progression

  /** `AVATAR_LEVELS.find(...)`: the table row of the player's tier. */
  function CurrentLevelData(st: PlayerStats): (row: Option<LevelInfo>)
    ensures row.Some? && row.value.level == st.avatarLevel && row.value.minXP == MinXP(st.avatarLevel)
  {
    var i := FindLevelIndex(AvatarLevels, st.avatarLevel);
    FindLevelIndexIsOrd(st.avatarLevel);
    if i >= 0 then Some(AvatarLevels[i]) else None
  }

  predicate Studied(b: Book) {
    b.sessionsCompleted > 0
  }

  /** The first studied book, if any. */
  function FirstStudied(books: seq<Book>): (r: Option<nat>)
    ensures r.Some? ==> r.value < |books| && Studied(books[r.value])
                        && forall j :: 0 <= j < r.value ==> !Studied(books[j])
    ensures r.None? ==> forall j :: 0 <= j < |books| ==> !Studied(books[j])
    decreases |books|
  {
    if books == [] then None
    else if Studied(books[0]) then Some(0)
    else
      match FirstStudied(books[1..])
      case None => None
      case Some(k) => Some(k + 1)
  }

  /** `books.find(studied) || books[0]`. */
  function RecentBook(books: seq<Book>): (r: Option<Book>)
    ensures r.None? <==> books == []
    ensures (exists j :: 0 <= j < |books| && Studied(books[j])) ==>
              exists k :: 0 <= k < |books| && r == Some(books[k]) && Studied(books[k])
                          && forall j :: 0 <= j < k ==> !Studied(books[j])
    ensures books != [] && (forall j :: 0 <= j < |books| ==> !Studied(books[j])) ==> r == Some(books[0])
  {
    match FirstStudied(books)
    case Some(k) => Some(books[k])
    case None => if books == [] then None else Some(books[0])
  }

  /** The continue card's guard. */
  function ShowContinueCard(books: seq<Book>): (b: bool)
    ensures b <==> exists j :: 0 <= j < |books| && Studied(books[j])
  {
    var r := RecentBook(books);
    r.Some? && Studied(r.value)
  }

  /** The continue card shows iff some book has been studied, and then it
      offers the first such book. */
  lemma ContinueCardIff(books: seq<Book>)
    ensures ShowContinueCard(books) <==> exists j :: 0 <= j < |books| && Studied(books[j])
    ensures ShowContinueCard(books) ==>
              exists k :: 0 <= k < |books| && RecentBook(books) == Some(books[k])
                          && forall j :: 0 <= j < k ==> !Studied(books[j])
  {
  }

  /** The "Books" figure: how many books have progress. */
  function BooksStarted(books: seq<Book>): (n: nat)
    ensures n <= |books|
    ensures n == 0 <==> forall j :: 0 <= j < |books| ==> books[j].progress <= 0
    decreases |books|
  {
    if books == [] then 0
    else (if books[0].progress > 0 then 1 else 0) + BooksStarted(books[1..])
  }

  /** Books whose progress never falls count at least as often. */
  lemma {:induction false} BooksStartedMonotone(a: seq<Book>, b: seq<Book>)
    requires |a| == |b|
    requires forall i :: 0 <= i < |a| ==> a[i].progress <= b[i].progress
    ensures BooksStarted(a) <= BooksStarted(b)
    decreases |a|
  {
    if a != [] {
      BooksStartedMonotone(a[1..], b[1..]);
    }
  }

  /** A completed session never lowers the "Books" figure, and leaves the
      studied book counted. */
  lemma CompleteSessionKeepsBooksStarted(s: GameState, bookId: string, jitter: nat)
    requires jitter <= 4
    requires ProgressInRange(s.stats.books)
    ensures var r := CompleteSession(s, bookId, jitter);
            && BooksStarted(s.stats.books) <= BooksStarted(r.stats.books)
            && forall i :: 0 <= i < |r.stats.books| && r.stats.books[i].id == bookId ==>
                 r.stats.books[i].progress > 0
  {
    var r := CompleteSession(s, bookId, jitter);
    BooksStartedMonotone(s.stats.books, r.stats.books);
  }

  /** The avatar card shows the stored level number, which for consistent
      statistics is the tier's position plus one. */
  lemma ShownLevelMatchesTier(st: PlayerStats)
    requires Consistent(st)
    ensures st.level == Ord(st.avatarLevel) + 1
    ensures CurrentLevelData(st).value.level == st.avatarLevel
  {
  }
}
