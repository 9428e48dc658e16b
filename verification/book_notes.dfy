/** The per-book notes view: the book's notes newest first, the note-cap
    warning, the preview line of a note, the five-star rating row and the
    reminder shown when the newest note is at least two days old. Note dates
    are their timestamps in milliseconds; the clock is the parameter `now`
    and the cap is the parameter `cap`. */
module BookNotes {
  import opened Common
  import opened GameTypes

  const DayMs: int := 1000 * 60 * 60 * 24

  /** The notes of one book, in list order. */
  function NotesFor(notes: seq<BookNote>, bookId: string): (r: seq<BookNote>)
    ensures forall x :: multiset(r)[x] == (if x.bookId == bookId then multiset(notes)[x] else 0)
    ensures |r| <= |notes|
    decreases |notes|
  {
    if notes == [] then []
    else
      assert notes == [notes[0]] + notes[1..];
      (if notes[0].bookId == bookId then [notes[0]] else []) + NotesFor(notes[1..], bookId)
  }

  /** Newest first: dates never increase along the list. */
  predicate NewestFirst(s: seq<BookNote>) {
    forall i, j :: 0 <= i < j < |s| ==> s[i].date >= s[j].date
  }

  /** Places `x` before the first note that is strictly older, so notes of
      equal date keep their order. */
  function Insert(x: BookNote, s: seq<BookNote>): (r: seq<BookNote>)
    requires NewestFirst(s)
    ensures NewestFirst(r)
    ensures multiset(r) == multiset(s) + multiset{x}
    ensures |r| == |s| + 1
    ensures forall k :: 0 <= k < |r| ==> r[k] == x || r[k] in s
    decreases |s|
  {
    if s == [] || x.date >= s[0].date then [x] + s
    else
      var t := Insert(x, s[1..]);
      assert s == [s[0]] + s[1..];
      forall k | 0 <= k < |t| ensures s[0].date >= t[k].date {
        if t[k] != x {
          HeadIsNewest(s, t[k]);
        }
      }
      [s[0]] + t
  }

  /** The first note of a newest-first list is at least as new as any. */
  lemma HeadIsNewest(s: seq<BookNote>, y: BookNote)
    requires NewestFirst(s) && y in s
    ensures s[0].date >= y.date
  {
    var j :| 0 <= j < |s| && s[j] == y;
  }

  /** The stable sort by descending date. */
  function SortNewestFirst(s: seq<BookNote>): (r: seq<BookNote>)
    ensures NewestFirst(r)
    ensures multiset(r) == multiset(s)
    ensures |r| == |s|
    decreases |s|
  {
    if s == [] then []
    else
      assert s == [s[0]] + s[1..];
      Insert(s[0], SortNewestFirst(s[1..]))
  }

  /** The view's list: exactly the book's notes, each as often as in the
      input, newest first. */
  function BookNotesShown(notes: seq<BookNote>, bookId: string): (r: seq<BookNote>)
    ensures NewestFirst(r)
    ensures forall x :: multiset(r)[x] == (if x.bookId == bookId then multiset(notes)[x] else 0)
    ensures forall x :: x in r <==> x in notes && x.bookId == bookId
  {
    var r := SortNewestFirst(NotesFor(notes, bookId));
    assert forall x :: x in r <==> multiset(r)[x] > 0;
    assert forall x :: x in notes <==> multiset(notes)[x] > 0;
    r
  }

  /** How many notes belong to the book, counted directly. */
  function CountFor(notes: seq<BookNote>, bookId: string): nat
    decreases |notes|
  {
    if notes == [] then 0
    else (if notes[0].bookId == bookId then 1 else 0) + CountFor(notes[1..], bookId)
  }

  lemma {:induction false} NotesForCount(notes: seq<BookNote>, bookId: string)
    ensures |NotesFor(notes, bookId)| == CountFor(notes, bookId)
    decreases |notes|
  {
    if notes != [] {
      NotesForCount(notes[1..], bookId);
    }
  }

  /** The at-limit warning shows iff the book has at least `cap` notes. */
  function IsAtLimit(shown: seq<BookNote>, cap: int): (b: bool)
    ensures cap <= 0 ==> b
    ensures b && cap > 0 ==> |shown| > 0
  {
    |shown| >= cap
  }

  lemma AtLimitCountsBookNotes(notes: seq<BookNote>, bookId: string, cap: int)
    ensures IsAtLimit(BookNotesShown(notes, bookId), cap) <==> CountFor(notes, bookId) >= cap
  {
    NotesForCount(notes, bookId);
  }

  /** Whole days between two timestamps, rounded down (`Math.floor` of the
      quotient, which Dafny's `/` gives for a positive divisor). */
  function DaysSince(now: int, date: int): (d: int)
    ensures d * DayMs <= now - date < (d + 1) * DayMs
  {
    (now - date) / DayMs
  }

  /** Whether the inactive reminder shows: some note exists and the newest is
      at least two whole days old. */
  function ShowInactiveReminder(shown: seq<BookNote>, now: int): (b: bool)
    ensures b ==> |shown| > 0 && now - shown[0].date >= 2 * DayMs
    ensures |shown| > 0 && now - shown[0].date >= 2 * DayMs ==> b
  {
    |shown| > 0 && DaysSince(now, shown[0].date) >= 2
  }

  /** The reminder shows iff the book has a note and every one of its notes
      is at least 48 hours old. */
  lemma InactiveReminderIff(notes: seq<BookNote>, bookId: string, now: int)
    ensures var shown := BookNotesShown(notes, bookId);
            ShowInactiveReminder(shown, now) <==>
              (exists x :: x in notes && x.bookId == bookId)
              && (forall x :: x in notes && x.bookId == bookId ==> now - x.date >= 2 * DayMs)
  {
    var shown := BookNotesShown(notes, bookId);
    if |shown| > 0 {
      assert shown[0] in shown;
      TwoDays(now, shown[0].date);
      forall x | x in notes && x.bookId == bookId
        ensures x.date <= shown[0].date
      {
        HeadIsNewest(shown, x);
      }
    }
  }

  /** Two whole days have passed exactly when 48 hours have. */
  lemma TwoDays(now: int, date: int)
    ensures DaysSince(now, date) >= 2 <==> now - date >= 2 * DayMs
  {
  }

  // ---------------------------------------------------------------------
  // Preview and stars

  /** The reflection fields that are not empty strings, in field order
      (`filter(Boolean)` keeps whitespace-only fields). */
  function NonEmptyFields(refl: Reflection): (parts: seq<string>)
    ensures forall k :: 0 <= k < |parts| ==> parts[k] != []
    ensures |parts| <= 3
    ensures |parts| == (if refl.understood != [] then 1 else 0) + (if refl.important != [] then 1 else 0)
                       + (if refl.remember != [] then 1 else 0)
    ensures refl.understood != [] ==> parts[0] == refl.understood
    ensures refl.important != [] ==> parts[if refl.understood != [] then 1 else 0] == refl.important
    ensures refl.remember != [] ==> parts[|parts| - 1] == refl.remember
  {
    (if refl.understood != [] then [refl.understood] else [])
    + (if refl.important != [] then [refl.important] else [])
    + (if refl.remember != [] then [refl.remember] else [])
  }

  /** At most 80 characters of the text, with "..." when it was cut. */
  function Truncate80(text: string): (r: string)
    ensures |text| <= 80 ==> r == text
    ensures |text| > 80 ==> |r| == 83 && r[..80] == text[..80] && r[80..] == "..."
  {
    if |text| > 80 then text[..80] + "..." else text
  }

  /** The trimmed text, cut at 80 characters. */
  function TrimmedPreview(text: string): (r: string)
    ensures |r| <= 83
    ensures r[..Min(|r|, 80)] <= Trim(text)
  {
    Truncate80(Trim(text))
  }

  /** `getPreviewText`. */
  function PreviewText(note: BookNote): (r: string)
    ensures |r| <= 83
    ensures r[..Min(|r|, 80)] <= Trim(Join(NonEmptyFields(note.reflection), " "))
  {
    TrimmedPreview(Join(NonEmptyFields(note.reflection), " "))
  }

  /** Three clean fields that fit are shown as they are, one space apart. */
  lemma PreviewOfCleanFields(refl: Reflection, note: BookNote)
    requires note.reflection == refl
    requires refl.understood != [] && refl.important != [] && refl.remember != []
    requires !IsWhitespace(refl.understood[0]) && !IsWhitespace(refl.remember[|refl.remember| - 1])
    requires |refl.understood| + |refl.important| + |refl.remember| + 2 <= 80
    ensures PreviewText(note) == refl.understood + " " + refl.important + " " + refl.remember
  {
    var text := refl.understood + " " + refl.important + " " + refl.remember;
    assert NonEmptyFields(refl) == [refl.understood, refl.important, refl.remember];
    assert Join([refl.important, refl.remember], " ") == refl.important + " " + refl.remember;
    assert Join(NonEmptyFields(refl), " ") == text;
    assert TrimStart(text) == text;
    assert TrimEnd(text) == text;
  }

  /** `renderStars`: five stars, the first `rating` of them filled. */
  function RenderStars(rating: int): (stars: seq<bool>)
    ensures |stars| == 5
    ensures forall i :: 0 <= i < 5 ==> (stars[i] <==> i < rating)
  {
    seq(5, i => i < rating)
  }

  function CountFilled(stars: seq<bool>): nat
    decreases |stars|
  {
    if stars == [] then 0 else (if stars[0] then 1 else 0) + CountFilled(stars[1..])
  }

  /** Filled stars are a prefix of the row. */
  lemma {:induction false} FilledPrefixCount(stars: seq<bool>, n: nat)
    requires n <= |stars|
    requires forall i :: 0 <= i < |stars| ==> (stars[i] <==> i < n)
    ensures CountFilled(stars) == n
    decreases |stars|
  {
    if stars != [] {
      FilledPrefixCount(stars[1..], if n == 0 then 0 else n - 1);
    }
  }

  /** The number of filled stars is the rating clamped to 0..5. */
  lemma FilledStarsIsClampedRating(rating: int)
    ensures CountFilled(RenderStars(rating)) == if rating < 0 then 0 else Min(rating, 5)
  {
    FilledPrefixCount(RenderStars(rating), if rating < 0 then 0 else Min(rating, 5));
  }
}
