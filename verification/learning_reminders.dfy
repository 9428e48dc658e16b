/** The dashboard's learning reminder: a decision over how many sessions were
    logged today, which books have been studied at all, and the streak. The
    current day (`YYYY-MM-DD`) is the parameter `today`. */
module Reminders {
  import opened Common
  import opened GameTypes

  datatype Reminder =
    | BookReminder(message: string, icon: string, action: string)
    | StreakReminder(message: string, icon: string, action: string)
    | GeneralReminder(message: string, icon: string, action: string)
    | EncourageReminder(message: string, icon: string, action: string)

  /** Today's sessions, in history order. */
  function SessionsOn(history: seq<SessionRecord>, today: string): (r: seq<SessionRecord>)
    ensures forall x :: x in r <==> x in history && x.date == today
    decreases |history|
  {
    if history == [] then []
    else (if history[0].date == today then [history[0]] else []) + SessionsOn(history[1..], today)
  }

  predicate Studied(b: Book) {
    b.sessionsCompleted > 0
  }

  /** Books with at least one completed session and not studied today, in
      list order. The reminder only asks this when no session was logged
      today, so the set of today's book ids it excludes is always empty and
      is left out. */
  function UnstudiedBooks(books: seq<Book>): (r: seq<Book>)
    ensures forall b :: b in r <==> b in books && Studied(b)
    decreases |books|
  {
    if books == [] then []
    else (if Studied(books[0]) then [books[0]] else []) + UnstudiedBooks(books[1..])
  }

  /** The first book of the filtered list is the first studied book. */
  lemma {:induction false} UnstudiedFirst(books: seq<Book>)
    requires |UnstudiedBooks(books)| > 0
    ensures exists k :: 0 <= k < |books| && books[k] == UnstudiedBooks(books)[0] && Studied(books[k])
                        && forall j :: 0 <= j < k ==> !Studied(books[j])
    decreases |books|
  {
    if !Studied(books[0]) {
      var rest := UnstudiedBooks(books[1..]);
      UnstudiedFirst(books[1..]);
      var k :| 0 <= k < |books[1..]| && books[1..][k] == rest[0] && Studied(books[1..][k])
               && forall j :: 0 <= j < k ==> !Studied(books[1..][j]);
      assert books[k + 1] == rest[0];
      assert forall j :: 1 <= j < k + 1 ==> books[j] == books[1..][j - 1];
    }
  }

  /** The reminder, or None when two or more sessions were logged today. */
  function ChooseReminder(history: seq<SessionRecord>, books: seq<Book>, streak: int, today: string): (r: Option<Reminder>)
    ensures r.None? <==> |SessionsOn(history, today)| >= 2
    ensures |SessionsOn(history, today)| == 1 ==> r.Some? && r.value.EncourageReminder?
    ensures |SessionsOn(history, today)| == 0 ==> r.Some? && !r.value.EncourageReminder?
  {
    var todaySessions := SessionsOn(history, today);
    if |todaySessions| == 0 then
      var unstudied := UnstudiedBooks(books);
      if |unstudied| > 0 then
        Some(BookReminder("You haven't studied " + unstudied[0].title + " today.", unstudied[0].icon,
                          "Continue where you left off!"))
      else if streak > 0 then
        Some(StreakReminder("Keep your streak alive!", "\U{1F525}",
                            "You're on a " + DecimalString(streak) + " day streak. Don't break it!"))
      else
        Some(GeneralReminder("Ready for a study session?", "\U{1F4DA}", "Start learning and earn XP!"))
    else if |todaySessions| == 1 then
      Some(EncourageReminder("Great start today!", "\U{2B50}", "One more session to boost your progress?"))
    else None
  }

  /** How many sessions carry today's date, counted directly. */
  function TodayCount(history: seq<SessionRecord>, today: string): nat
    decreases |history|
  {
    if history == [] then 0
    else (if history[0].date == today then 1 else 0) + TodayCount(history[1..], today)
  }

  lemma {:induction false} SessionsOnCount(history: seq<SessionRecord>, today: string)
    ensures |SessionsOn(history, today)| == TodayCount(history, today)
    decreases |history|
  {
    if history != [] {
      SessionsOnCount(history[1..], today);
    }
  }

  /** Exactly one branch is taken, and which one depends only on today's
      session count, whether some book was studied before, and the streak;
      the book reminder names the first studied book. */
  lemma {:induction false} ReminderDecision(history: seq<SessionRecord>, books: seq<Book>, streak: int, today: string)
    ensures var r := ChooseReminder(history, books, streak, today);
            var n := TodayCount(history, today);
            var anyStudied := exists k :: 0 <= k < |books| && Studied(books[k]);
            && (r.None? <==> n >= 2)
            && (r.Some? && r.value.EncourageReminder? <==> n == 1)
            && (r.Some? && r.value.BookReminder? <==> n == 0 && anyStudied)
            && (r.Some? && r.value.StreakReminder? <==> n == 0 && !anyStudied && streak > 0)
            && (r.Some? && r.value.GeneralReminder? <==> n == 0 && !anyStudied && streak <= 0)
            && (r.Some? && r.value.BookReminder? ==>
                  exists k :: 0 <= k < |books| && Studied(books[k])
                              && (forall j :: 0 <= j < k ==> !Studied(books[j]))
                              && r.value.message == "You haven't studied " + books[k].title + " today."
                              && r.value.icon == books[k].icon)
  {
    SessionsOnCount(history, today);
    var todaySessions := SessionsOn(history, today);
    if |todaySessions| == 0 {
      var unstudied := UnstudiedBooks(books);
      if exists k :: 0 <= k < |books| && Studied(books[k]) {
        var k :| 0 <= k < |books| && Studied(books[k]);
        assert books[k] in unstudied;
      }
      if |unstudied| > 0 {
        UnstudiedFirst(books);
        var k :| 0 <= k < |books| && books[k] == unstudied[0] && Studied(books[k])
                 && forall j :: 0 <= j < k ==> !Studied(books[j]);
        assert ChooseReminder(history, books, streak, today).value.message
               == "You haven't studied " + books[k].title + " today.";
      }
    }
  }

  /** Histories with the same number of sessions today give the same
      reminder. */
  lemma ReminderDependsOnTodayCount(h1: seq<SessionRecord>, h2: seq<SessionRecord>,
                                    books: seq<Book>, streak: int, today: string)
    requires TodayCount(h1, today) == TodayCount(h2, today)
    ensures ChooseReminder(h1, books, streak, today) == ChooseReminder(h2, books, streak, today)
  {
    SessionsOnCount(h1, today);
    SessionsOnCount(h2, today);
  }
}
