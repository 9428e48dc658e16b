/** The entities of the game: avatar tiers and their XP table, the per-action
    XP rewards, books, session records, reflections, notes and the player's
    aggregate statistics. */
module GameTypes {
  import opened Common

  /** The six avatar tiers, poorest first. */
  datatype AvatarLevel = Toddler | Beginner | Learner | Thinker | Master | Dragon

  /** A tier's position in the table, 0 for `Toddler` up to 5 for `Dragon`. */
  function Ord(l: AvatarLevel): (i: nat)
    ensures i < 6
  {
    match l
    case Toddler => 0
    case Beginner => 1
    case Learner => 2
    case Thinker => 3
    case Master => 4
    case Dragon => 5
  }

  /** One row of the evolution table: a tier and the total XP it needs. */
  datatype LevelInfo = LevelInfo(level: AvatarLevel, minXP: int)

  /** The evolution table, ordered by ascending XP threshold. */
  const AvatarLevels: seq<LevelInfo> := [
    LevelInfo(Toddler, 0),
    LevelInfo(Beginner, 100),
    LevelInfo(Learner, 300),
    LevelInfo(Thinker, 600),
    LevelInfo(Master, 1000),
    LevelInfo(Dragon, 2000)
  ]

  /** The display name the table gives each tier. */
  function LevelName(l: AvatarLevel): string {
    match l
    case Toddler => "Curious Toddler"
    case Beginner => "Eager Beginner"
    case Learner => "Dedicated Learner"
    case Thinker => "Deep Thinker"
    case Master => "Knowledge Master"
    case Dragon => "Legendary Dragon"
  }

  const LastTier: nat := 5

  /** The XP threshold of a tier. */
  function MinXP(l: AvatarLevel): int {
    AvatarLevels[Ord(l)].minXP
  }

  /** The table holds one entry per tier, in tier order, with thresholds that
      start at 0 and strictly ascend. */
  lemma AvatarTableWellFormed()
    ensures |AvatarLevels| == 6 && LastTier == |AvatarLevels| - 1
    ensures forall l: AvatarLevel :: AvatarLevels[Ord(l)].level == l
    ensures forall i :: 0 <= i < |AvatarLevels| ==> Ord(AvatarLevels[i].level) == i
    ensures AvatarLevels[0].minXP == 0
    ensures forall i, j :: 0 <= i < j < |AvatarLevels| ==> AvatarLevels[i].minXP < AvatarLevels[j].minXP
  {
  }

  const SessionCompleteXP: nat := 25
  const ReflectionXP: nat := 15
  const SynthesisXP: nat := 10
  const MaxXPPerSession: nat := 50

  /** The three per-session rewards add up to the advertised maximum. */
  lemma RewardsSumToMaximum()
    ensures SessionCompleteXP + ReflectionXP + SynthesisXP == MaxXPPerSession
  {
  }

  datatype Subject = English | German | Math | Geography | CustomSubject

  datatype Book = Book(id: string, title: string, subject: Subject, icon: string,
                       progress: int, sessionsCompleted: int)

  const DefaultBooks: seq<Book> := [
    Book("english", "English Literature", English, "\U{1F4DA}", 0, 0),
    Book("german", "German Language", German, "\U{1F1E9}\U{1F1EA}", 0, 0),
    Book("math", "Mathematics", Math, "\U{1F4D0}", 0, 0),
    Book("geography", "World Geography", Geography, "\U{1F30D}", 0, 0)
  ]

  /** The default books have distinct ids and start untouched. */
  lemma DefaultBooksFresh()
    ensures forall i, j :: 0 <= i < j < |DefaultBooks| ==> DefaultBooks[i].id != DefaultBooks[j].id
    ensures forall i :: 0 <= i < |DefaultBooks| ==>
              DefaultBooks[i].progress == 0 && DefaultBooks[i].sessionsCompleted == 0
  {
  }

  /** One completed focus session; `date` is the calendar day `YYYY-MM-DD`. */
  datatype SessionRecord = SessionRecord(id: string, bookId: string, date: string,
                                         focusRating: Option<int>, durationMinutes: int)

  datatype Reflection = Reflection(understood: string, important: string, remember: string)

  datatype Synthesis = Synthesis(summary: string, keyTakeaway: string)

  /** A saved reflection; `date` is the note's timestamp in milliseconds. */
  datatype BookNote = BookNote(id: string, bookId: string, sessionId: string, date: int,
                               reflection: Reflection, synthesis: Option<Synthesis>,
                               focusRating: Option<int>)

  datatype PlayerStats = PlayerStats(
    totalXP: int,
    currentLevelXP: int,
    xpToNextLevel: int,
    level: int,
    avatarLevel: AvatarLevel,
    totalSessions: int,
    totalMinutes: int,
    books: seq<Book>,
    streak: int,
    sessionHistory: seq<SessionRecord>)
}
