/** The progression engine of `useGameState`: total XP picks an avatar tier
    from the evolution table, the tier fixes the level floor, the next
    floor, the level-relative XP and the level number, and the store
    operations grant XP, complete sessions and add custom books. */
module Progression {
  import opened Common
  import opened GameTypes

  // ---------------------------------------------------------------------
  // Tier lookup

  /** Scans the table from index `i` down to 0 and returns the first index
      whose threshold `totalXP` reaches, or 0 when none does. */
  function ScanDown(totalXP: int, i: nat): (k: nat)
    requires i < |AvatarLevels|
    ensures k <= i
    ensures k > 0 ==> AvatarLevels[k].minXP <= totalXP
    ensures forall j :: k < j <= i ==> totalXP < AvatarLevels[j].minXP
    decreases i
  {
    if totalXP >= AvatarLevels[i].minXP then i
    else if i == 0 then 0
    else ScanDown(totalXP, i - 1)
  }

  /** `getAvatarLevel`: the richest tier whose threshold `totalXP` reaches
      (`Toddler` when none does, which only happens for negative XP). */
  function GetAvatarLevel(totalXP: int): (l: AvatarLevel)
    ensures totalXP >= 0 ==> MinXP(l) <= totalXP
    ensures totalXP < 0 ==> l == Toddler
    ensures forall m: AvatarLevel :: Ord(l) < Ord(m) ==> totalXP < MinXP(m)
  {
    AvatarTableWellFormed();
    AvatarLevels[ScanDown(totalXP, LastTier)].level
  }

  /** For non-negative XP the tier is characterised exactly: it is the one
      tier that qualifies while no richer tier does. */
  lemma GetAvatarLevelUnique(totalXP: int, l: AvatarLevel)
    requires totalXP >= 0
    ensures GetAvatarLevel(totalXP) == l <==>
              (MinXP(l) <= totalXP && forall m: AvatarLevel :: Ord(l) < Ord(m) ==> totalXP < MinXP(m))
  {
    var g := GetAvatarLevel(totalXP);
    if MinXP(l) <= totalXP && forall m: AvatarLevel :: Ord(l) < Ord(m) ==> totalXP < MinXP(m) {
      assert !(Ord(g) < Ord(l));
      assert !(Ord(l) < Ord(g));
    }
  }

  /** More XP never means a poorer tier. */
  lemma GetAvatarLevelMonotone(xp1: int, xp2: int)
    requires xp1 <= xp2
    ensures Ord(GetAvatarLevel(xp1)) <= Ord(GetAvatarLevel(xp2))
  {
  }

  /** `AVATAR_LEVELS.findIndex(l => l.level === level)`: -1 when absent. */
  function FindLevelIndex(table: seq<LevelInfo>, level: AvatarLevel): (r: int)
    ensures -1 <= r < |table|
    ensures r >= 0 ==> table[r].level == level && forall j :: 0 <= j < r ==> table[j].level != level
    ensures r == -1 <==> forall j :: 0 <= j < |table| ==> table[j].level != level
  {
    if |table| == 0 then -1
    else if table[0].level == level then 0
    else
      var r := FindLevelIndex(table[1..], level);
      assert forall j :: 1 <= j < |table| ==> table[j] == table[1..][j - 1];
      if r == -1 then -1 else r + 1
  }

  /** Every tier is found in the evolution table, at its own position. */
  lemma FindLevelIndexIsOrd(level: AvatarLevel)
    ensures FindLevelIndex(AvatarLevels, level) == Ord(level)
  {
    AvatarTableWellFormed();
  }

  /** `getXPForNextLevel`: the next tier's threshold, or the tier's own
      threshold plus 1000 for the last tier. */
  function XPForNextLevel(level: AvatarLevel): (x: int)
    ensures Ord(level) < LastTier ==> x == AvatarLevels[Ord(level) + 1].minXP
    ensures Ord(level) == LastTier ==> x == MinXP(level) + 1000
    ensures x > MinXP(level)
  {
    FindLevelIndexIsOrd(level);
    AvatarTableWellFormed();
    var i := FindLevelIndex(AvatarLevels, level);
    if i < |AvatarLevels| - 1 then AvatarLevels[i + 1].minXP else AvatarLevels[i].minXP + 1000
  }

  /** `getXPForCurrentLevel`: the tier's threshold (0 if it were absent). */
  function XPForCurrentLevel(level: AvatarLevel): (x: int)
    ensures x == MinXP(level)
  {
    FindLevelIndexIsOrd(level);
    var i := FindLevelIndex(AvatarLevels, level);
    if i >= 0 then AvatarLevels[i].minXP else 0
  }

  /** The level number shown to the player: the tier's position plus one. */
  function LevelNumber(level: AvatarLevel): (n: int)
    ensures n == Ord(level) + 1
    ensures 1 <= n <= 6
  {
    FindLevelIndexIsOrd(level);
    FindLevelIndex(AvatarLevels, level) + 1
  }

  // ---------------------------------------------------------------------
  // The level invariant

  /** The threshold of the tier after `l`, or `l`'s plus 1000 for the last. */
  function NextFloor(l: AvatarLevel): int {
    if Ord(l) < LastTier then AvatarLevels[Ord(l) + 1].minXP else MinXP(l) + 1000
  }

  /** The derived fields agree with the avatar tier. */
  predicate LevelInvariant(st: PlayerStats) {
    && st.currentLevelXP == st.totalXP - MinXP(st.avatarLevel)
    && st.xpToNextLevel == NextFloor(st.avatarLevel) - MinXP(st.avatarLevel)
    && st.level == Ord(st.avatarLevel) + 1
  }

  /** The tier is the one the total XP earns, and the derived fields agree. */
  predicate Consistent(st: PlayerStats) {
    st.avatarLevel == GetAvatarLevel(st.totalXP) && LevelInvariant(st)
  }

  /** Every book's progress is a percentage. */
  predicate ProgressInRange(books: seq<Book>) {
    forall i :: 0 <= i < |books| ==> 0 <= books[i].progress <= 100
  }

  /** Two stats records agree on everything XP does not drive. */
  predicate SameNonXPFields(a: PlayerStats, b: PlayerStats) {
    && a.totalSessions == b.totalSessions
    && a.totalMinutes == b.totalMinutes
    && a.books == b.books
    && a.streak == b.streak
    && a.sessionHistory == b.sessionHistory
  }

  // ---------------------------------------------------------------------
  // The store

  /** The hook's state: the stats, whether the level-up overlay is pending,
      and the tier reported as the one left behind. */
  datatype GameState = GameState(stats: PlayerStats, showLevelUp: bool, previousLevel: AvatarLevel)

  /** `DEMO_INITIAL_STATS`: one session on the English book already done. */
  const DemoInitialStats: PlayerStats := PlayerStats(
    45, 45, 100, 1, Toddler, 1, 30,
    [DefaultBooks[0].(progress := 8, sessionsCompleted := 1), DefaultBooks[1], DefaultBooks[2], DefaultBooks[3]],
    0, [])

  const InitialGameState: GameState := GameState(DemoInitialStats, false, Toddler)

  /** The demo starting point satisfies the level invariant. */
  lemma DemoInitialStatsConsistent()
    ensures Consistent(DemoInitialStats)
    ensures ProgressInRange(DemoInitialStats.books)
  {
    GetAvatarLevelUnique(45, Toddler);
  }

  /** `addXP`: moves the total, re-derives tier, floors and level number, and
      raises the level-up flag (remembering the tier left) when the tier
      changes — once per grant, however many tiers it jumps. */
  function AddXP(s: GameState, amount: int): (r: GameState)
    ensures r.stats.totalXP == s.stats.totalXP + amount
    ensures r.stats.avatarLevel == GetAvatarLevel(r.stats.totalXP)
    ensures Consistent(r.stats)
    ensures SameNonXPFields(r.stats, s.stats)
    ensures r.showLevelUp == (s.showLevelUp || r.stats.avatarLevel != s.stats.avatarLevel)
    ensures r.previousLevel ==
              (if r.stats.avatarLevel != s.stats.avatarLevel then s.stats.avatarLevel else s.previousLevel)
  {
    var newTotal := s.stats.totalXP + amount;
    var newLevel := GetAvatarLevel(newTotal);
    var xpToNext := XPForNextLevel(newLevel);
    var xpForCurrent := XPForCurrentLevel(newLevel);
    var stats := s.stats.(totalXP := newTotal,
                          currentLevelXP := newTotal - xpForCurrent,
                          xpToNextLevel := xpToNext - xpForCurrent,
                          avatarLevel := newLevel,
                          level := LevelNumber(newLevel));
    if newLevel != s.stats.avatarLevel then
      GameState(stats, true, s.stats.avatarLevel)
    else
      s.(stats := stats)
  }

  /** Below the last tier, the level-relative XP lies in [0, xpToNextLevel). */
  lemma LevelXPWithinBand(st: PlayerStats)
    requires Consistent(st) && st.totalXP >= 0 && Ord(st.avatarLevel) < LastTier
    ensures 0 <= st.currentLevelXP < st.xpToNextLevel
  {
    AvatarTableWellFormed();
    var next := AvatarLevels[Ord(st.avatarLevel) + 1].level;
    assert Ord(next) == Ord(st.avatarLevel) + 1;
    assert st.totalXP < MinXP(next);
  }

  /** Grants compose: two grants in either order give the stats one grant of
      the sum gives. */
  lemma AddXPComposes(s: GameState, a: int, b: int)
    ensures AddXP(AddXP(s, a), b).stats == AddXP(AddXP(s, b), a).stats
    ensures AddXP(AddXP(s, a), b).stats == AddXP(s, a + b).stats
  {
    var x, y, z := AddXP(AddXP(s, a), b).stats, AddXP(AddXP(s, b), a).stats, AddXP(s, a + b).stats;
    StatsDeterminedByTotal(x, z);
    StatsDeterminedByTotal(y, z);
  }

  /** A consistent stats record is fixed by its total and its non-XP fields. */
  lemma StatsDeterminedByTotal(x: PlayerStats, y: PlayerStats)
    requires Consistent(x) && Consistent(y)
    requires x.totalXP == y.totalXP && SameNonXPFields(x, y)
    ensures x == y
  {
  }

  /** With non-negative grants from a consistent state, whether the level-up
      overlay ends up raised does not depend on the order of the grants. */
  lemma ShowLevelUpOrderIndependent(s: GameState, a: nat, b: nat)
    requires Consistent(s.stats)
    ensures AddXP(AddXP(s, a), b).showLevelUp == AddXP(AddXP(s, b), a).showLevelUp
  {
    TwoGrantsLevelUp(s, a, b);
    TwoGrantsLevelUp(s, b, a);
    assert AddXP(AddXP(s, a), b).stats.totalXP == AddXP(AddXP(s, b), a).stats.totalXP;
  }

  /** Two non-negative grants raise the overlay exactly when the tier they
      end in differs from the starting tier. */
  lemma TwoGrantsLevelUp(s: GameState, a: nat, b: nat)
    requires Consistent(s.stats)
    ensures var s2 := AddXP(AddXP(s, a), b);
            s2.showLevelUp == (s.showLevelUp || s2.stats.avatarLevel != s.stats.avatarLevel)
  {
    var s1 := AddXP(s, a);
    var s2 := AddXP(s1, b);
    TwoGrantsFlag(s, a, b);
    GrantNeverLowersTier(s, a);
    GrantNeverLowersTier(s1, b);
    TierChain(s.stats.avatarLevel, s1.stats.avatarLevel, s2.stats.avatarLevel);
    FlagChain(s.showLevelUp, s2.showLevelUp, s.stats.avatarLevel, s1.stats.avatarLevel, s2.stats.avatarLevel);
  }

  /** A non-negative grant from a consistent state never lowers the tier. */
  lemma GrantNeverLowersTier(s: GameState, a: nat)
    requires Consistent(s.stats)
    ensures Ord(s.stats.avatarLevel) <= Ord(AddXP(s, a).stats.avatarLevel)
  {
    GetAvatarLevelMonotone(s.stats.totalXP, s.stats.totalXP + a);
  }

  /** Along tiers that never go down, a change somewhere is a change from
      first to last. */
  lemma TierChain(l0: AvatarLevel, l1: AvatarLevel, l2: AvatarLevel)
    requires Ord(l0) <= Ord(l1) <= Ord(l2)
    ensures (l1 != l0 || l2 != l1) == (l2 != l0)
  {
    OrdInjective(l0, l1);
    OrdInjective(l0, l2);
  }

  lemma FlagChain(f0: bool, f2: bool, l0: AvatarLevel, l1: AvatarLevel, l2: AvatarLevel)
    requires f2 == (f0 || l1 != l0 || l2 != l1)
    requires (l1 != l0 || l2 != l1) == (l2 != l0)
    ensures f2 == (f0 || l2 != l0)
  {
  }

  lemma TwoGrantsFlag(s: GameState, a: int, b: int)
    ensures var s1 := AddXP(s, a);
            var s2 := AddXP(s1, b);
            s2.showLevelUp == (s.showLevelUp || s1.stats.avatarLevel != s.stats.avatarLevel
                               || s2.stats.avatarLevel != s1.stats.avatarLevel)
  {
  }

  lemma OrdInjective(l: AvatarLevel, m: AvatarLevel)
    ensures Ord(l) == Ord(m) ==> l == m
  {
  }

  /** The book row a completed session touches: one more session, progress
      up by `8 + jitter` and clamped at 100. */
  function AdvanceBook(b: Book, bookId: string, jitter: nat): Book {
    if b.id == bookId then
      b.(sessionsCompleted := b.sessionsCompleted + 1, progress := Min(100, b.progress + 8 + jitter))
    else b
  }

  function AdvanceBooks(books: seq<Book>, bookId: string, jitter: nat): (r: seq<Book>)
    ensures |r| == |books|
    ensures forall i :: 0 <= i < |books| ==> r[i] == AdvanceBook(books[i], bookId, jitter)
  {
    if books == [] then [] else [AdvanceBook(books[0], bookId, jitter)] + AdvanceBooks(books[1..], bookId, jitter)
  }

  /** `completeSession(bookId)`: one more session and 30 more minutes, the
      matching books advance, every other book is untouched, then the
      session reward is granted. `jitter` is `Math.floor(Math.random() * 5)`. */
  function CompleteSession(s: GameState, bookId: string, jitter: nat): (r: GameState)
    requires jitter <= 4
    ensures r.stats.totalSessions == s.stats.totalSessions + 1
    ensures r.stats.totalMinutes == s.stats.totalMinutes + 30
    ensures r.stats.totalXP == s.stats.totalXP + SessionCompleteXP
    ensures Consistent(r.stats)
    ensures r.stats.streak == s.stats.streak && r.stats.sessionHistory == s.stats.sessionHistory
    ensures |r.stats.books| == |s.stats.books|
    ensures forall i :: 0 <= i < |s.stats.books| && s.stats.books[i].id != bookId ==>
              r.stats.books[i] == s.stats.books[i]
    ensures forall i :: 0 <= i < |s.stats.books| && s.stats.books[i].id == bookId ==>
              var b, b' := s.stats.books[i], r.stats.books[i];
              && b'.id == b.id && b'.title == b.title && b'.subject == b.subject && b'.icon == b.icon
              && b'.sessionsCompleted == b.sessionsCompleted + 1
              && b'.progress == Min(100, b.progress + 8 + jitter)
              && b'.progress <= 100
              && (b'.progress == 100 || b.progress + 8 <= b'.progress <= b.progress + 12)
    ensures ProgressInRange(s.stats.books) ==> ProgressInRange(r.stats.books)
    ensures r.showLevelUp == (s.showLevelUp || r.stats.avatarLevel != s.stats.avatarLevel)
    ensures r.previousLevel ==
              (if r.stats.avatarLevel != s.stats.avatarLevel then s.stats.avatarLevel else s.previousLevel)
  {
    var stats := s.stats.(totalSessions := s.stats.totalSessions + 1,
                          totalMinutes := s.stats.totalMinutes + 30,
                          books := AdvanceBooks(s.stats.books, bookId, jitter));
    AddXP(s.(stats := stats), SessionCompleteXP)
  }

  /** `completeReflection`: the reflection reward. */
  function CompleteReflection(s: GameState): (r: GameState)
    ensures r.stats.totalXP == s.stats.totalXP + ReflectionXP
    ensures Consistent(r.stats) && SameNonXPFields(r.stats, s.stats)
    ensures r.showLevelUp == (s.showLevelUp || r.stats.avatarLevel != s.stats.avatarLevel)
    ensures r.previousLevel ==
              (if r.stats.avatarLevel != s.stats.avatarLevel then s.stats.avatarLevel else s.previousLevel)
  {
    AddXP(s, ReflectionXP)
  }

  /** `completeSynthesis`: the synthesis reward. */
  function CompleteSynthesis(s: GameState): (r: GameState)
    ensures r.stats.totalXP == s.stats.totalXP + SynthesisXP
    ensures Consistent(r.stats) && SameNonXPFields(r.stats, s.stats)
    ensures r.showLevelUp == (s.showLevelUp || r.stats.avatarLevel != s.stats.avatarLevel)
    ensures r.previousLevel ==
              (if r.stats.avatarLevel != s.stats.avatarLevel then s.stats.avatarLevel else s.previousLevel)
  {
    AddXP(s, SynthesisXP)
  }

  const CustomBookIcon: string := "\U{1F4D6}"

  /** `addCustomBook(title)`: appends an untouched custom book whose id is
      `custom-<now>` and returns it. `now` stands for `Date.now()`. */
  function AddCustomBook(s: GameState, title: string, now: nat): (r: (GameState, Book))
    ensures r.1.title == title && r.1.subject == CustomSubject
    ensures r.1.progress == 0 && r.1.sessionsCompleted == 0
    ensures "custom-" <= r.1.id
    ensures r.0.stats.books == s.stats.books + [r.1]
    ensures r.0.stats == s.stats.(books := r.0.stats.books)
    ensures r.0.showLevelUp == s.showLevelUp && r.0.previousLevel == s.previousLevel
    ensures ProgressInRange(s.stats.books) ==> ProgressInRange(r.0.stats.books)
  {
    var book := Book("custom-" + DecimalString(now), title, CustomSubject, CustomBookIcon, 0, 0);
    (s.(stats := s.stats.(books := s.stats.books + [book])), book)
  }

  /** `dismissLevelUp`. */
  function DismissLevelUp(s: GameState): (r: GameState)
    ensures !r.showLevelUp && r.stats == s.stats && r.previousLevel == s.previousLevel
  {
    s.(showLevelUp := false)
  }

  /** The documented scenario: 45 XP, then a session, a reflection and a
      synthesis stay a toddler at 95; one more session reaches 120 and
      crosses into the beginner tier with one level-up report. */
  lemma ProgressionScenario(jitter1: nat, jitter2: nat)
    requires jitter1 <= 4 && jitter2 <= 4
    ensures var s1 := CompleteSession(InitialGameState, "english", jitter1);
            var s2 := CompleteReflection(s1);
            var s3 := CompleteSynthesis(s2);
            var s4 := CompleteSession(s3, "math", jitter2);
            && s1.stats.totalXP == 70 && s1.stats.avatarLevel == Toddler && !s1.showLevelUp
            && s2.stats.totalXP == 85 && s2.stats.avatarLevel == Toddler && !s2.showLevelUp
            && s3.stats.totalXP == 95 && s3.stats.avatarLevel == Toddler && !s3.showLevelUp
            && s4.stats.totalXP == 120 && s4.stats.avatarLevel == Beginner
            && s4.showLevelUp && s4.previousLevel == Toddler
            && s4.stats.currentLevelXP == 20 && s4.stats.xpToNextLevel == 200 && s4.stats.level == 2
  {
    GetAvatarLevelUnique(70, Toddler);
    GetAvatarLevelUnique(85, Toddler);
    GetAvatarLevelUnique(95, Toddler);
    GetAvatarLevelUnique(120, Beginner);
  }
}
