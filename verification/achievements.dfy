/** Achievement evaluation: each definition is checked against one aggregate
    of the player's statistics or notes, and the badge view splits the result
    into unlocked and locked lists. The definition table itself is an input. */
module Achievements {
  import opened Common
  import opened GameTypes

  /** The requirement kinds; `OtherRequirement` stands for any other tag,
      which no case of the evaluation matches. */
  datatype RequirementType = Sessions | Minutes | Books | Streak | Notes | OtherRequirement

  datatype AchievementDef = AchievementDef(id: string, name: string, description: string,
                                           icon: string, reqType: RequirementType, reqValue: int)

  /** An evaluated achievement: the definition unchanged, the flag, and the
      unlock timestamp (`now`, an ISO string supplied by the caller). */
  datatype Achievement = Achievement(def: AchievementDef, unlocked: bool, unlockedAt: Option<string>)

  /** The distinct book ids of the session history. */
  function StudiedBooks(history: seq<SessionRecord>): (r: set<string>)
    ensures forall id :: id in r <==> exists i :: 0 <= i < |history| && history[i].bookId == id
    ensures |r| <= |history|
    decreases |history|
  {
    if history == [] then {}
    else
      var rest := StudiedBooks(history[1..]);
      assert forall i :: 1 <= i < |history| ==> history[i] == history[1..][i - 1];
      {history[0].bookId} + rest
  }

  /** The value a requirement is compared against. */
  function Aggregate(t: RequirementType, stats: PlayerStats, notes: seq<BookNote>): (v: int)
    ensures t == Sessions ==> v == stats.totalSessions
    ensures t == Minutes ==> v == stats.totalMinutes
    ensures t == Books ==> v == |StudiedBooks(stats.sessionHistory)| && 0 <= v <= |stats.sessionHistory|
    ensures t == Streak ==> v == stats.streak
    ensures t == Notes ==> v == |notes|
    ensures t == OtherRequirement ==> v == 0
  {
    match t
    case Sessions => stats.totalSessions
    case Minutes => stats.totalMinutes
    case Books => |StudiedBooks(stats.sessionHistory)|
    case Streak => stats.streak
    case Notes => |notes|
    case OtherRequirement => 0
  }

  /** The "books" requirement counts the distinct books of the history, not
      its sessions: every book id of the history is counted once. */
  lemma BooksCountsDistinctIds(stats: PlayerStats, notes: seq<BookNote>)
    ensures var h := stats.sessionHistory;
            Aggregate(Books, stats, notes) == |set i | 0 <= i < |h| :: h[i].bookId|
  {
    var h := stats.sessionHistory;
    assert StudiedBooks(h) == set i | 0 <= i < |h| :: h[i].bookId;
  }

  /** Two sessions on one book count as one book. */
  lemma RepeatSessionsCountOneBook(stats: PlayerStats, notes: seq<BookNote>, s1: SessionRecord, s2: SessionRecord)
    requires stats.sessionHistory == [s1, s2] && s1.bookId == s2.bookId
    ensures Aggregate(Books, stats, notes) == 1
  {
    assert StudiedBooks(stats.sessionHistory) == {s1.bookId};
  }

  function Evaluate(def: AchievementDef, stats: PlayerStats, notes: seq<BookNote>, now: string): (a: Achievement)
    ensures a.def == def
    ensures a.unlocked <==> Aggregate(def.reqType, stats, notes) >= def.reqValue
    ensures a.unlockedAt.Some? <==> a.unlocked
    ensures a.unlockedAt.Some? ==> a.unlockedAt.value == now
  {
    var unlocked := Aggregate(def.reqType, stats, notes) >= def.reqValue;
    Achievement(def, unlocked, if unlocked then Some(now) else None)
  }

  /** `calculateAchievements`: one entry per definition, in order. */
  function CalculateAchievements(defs: seq<AchievementDef>, stats: PlayerStats,
                                 notes: seq<BookNote>, now: string): (r: seq<Achievement>)
    ensures |r| == |defs|
    ensures forall i :: 0 <= i < |defs| ==> r[i].def == defs[i]
    ensures forall i :: 0 <= i < |defs| ==>
              (r[i].unlocked <==> Aggregate(defs[i].reqType, stats, notes) >= defs[i].reqValue)
    ensures forall i :: 0 <= i < |defs| ==> (r[i].unlockedAt.Some? <==> r[i].unlocked)
  {
    seq(|defs|, i requires 0 <= i < |defs| => Evaluate(defs[i], stats, notes, now))
  }

  /** Sessions on more books count as more studied books. */
  lemma {:induction false} StudiedBooksMonotone(h1: seq<SessionRecord>, h2: seq<SessionRecord>)
    requires h1 <= h2
    ensures StudiedBooks(h1) <= StudiedBooks(h2)
    ensures |StudiedBooks(h1)| <= |StudiedBooks(h2)|
  {
    var a, b := StudiedBooks(h1), StudiedBooks(h2);
    forall id | id in a ensures id in b {
      var i :| 0 <= i < |h1| && h1[i].bookId == id;
      assert h2[i] == h1[i];
    }
    SubsetCardinality(a, b);
  }

  lemma {:induction false} SubsetCardinality(a: set<string>, b: set<string>)
    requires a <= b
    ensures |a| <= |b|
    decreases |b|
  {
    if a != {} {
      var x :| x in a;
      SubsetCardinality(a - {x}, b - {x});
    }
  }

  /** Playing on never locks an achievement again: with the session history
      and the notes only growing and the counters not falling, every badge
      that was unlocked stays unlocked. */
  lemma {:induction false} AchievementsMonotone(defs: seq<AchievementDef>, s1: PlayerStats, n1: seq<BookNote>,
                                                 s2: PlayerStats, n2: seq<BookNote>, now1: string, now2: string)
    requires s1.totalSessions <= s2.totalSessions && s1.totalMinutes <= s2.totalMinutes
    requires s1.streak <= s2.streak
    requires s1.sessionHistory <= s2.sessionHistory
    requires |n1| <= |n2|
    ensures forall i :: 0 <= i < |defs| ==>
              CalculateAchievements(defs, s1, n1, now1)[i].unlocked ==> CalculateAchievements(defs, s2, n2, now2)[i].unlocked
  {
    var r1, r2 := CalculateAchievements(defs, s1, n1, now1), CalculateAchievements(defs, s2, n2, now2);
    forall i | 0 <= i < |defs| && r1[i].unlocked ensures r2[i].unlocked {
      AggregateMonotone(defs[i].reqType, s1, n1, s2, n2);
    }
  }

  /** Every requirement's figure grows with the statistics. */
  lemma AggregateMonotone(t: RequirementType, s1: PlayerStats, n1: seq<BookNote>, s2: PlayerStats, n2: seq<BookNote>)
    requires s1.totalSessions <= s2.totalSessions && s1.totalMinutes <= s2.totalMinutes
    requires s1.streak <= s2.streak
    requires s1.sessionHistory <= s2.sessionHistory
    requires |n1| <= |n2|
    ensures Aggregate(t, s1, n1) <= Aggregate(t, s2, n2)
  {
    if t == Books {
      StudiedBooksMonotone(s1.sessionHistory, s2.sessionHistory);
    }
  }

  /** The badge view's unlocked list. */
  function UnlockedOf(a: seq<Achievement>): (r: seq<Achievement>)
    ensures |r| <= |a|
    ensures forall x :: x in r <==> x in a && x.unlocked
    ensures forall x :: multiset(r)[x] == if x.unlocked then multiset(a)[x] else 0
    decreases |a|
  {
    if a == [] then []
    else
      assert a == [a[0]] + a[1..];
      (if a[0].unlocked then [a[0]] else []) + UnlockedOf(a[1..])
  }

  /** The badge view's locked list. */
  function LockedOf(a: seq<Achievement>): (r: seq<Achievement>)
    ensures |r| <= |a|
    ensures forall x :: x in r <==> x in a && !x.unlocked
    ensures forall x :: multiset(r)[x] == if !x.unlocked then multiset(a)[x] else 0
    decreases |a|
  {
    if a == [] then []
    else
      assert a == [a[0]] + a[1..];
      (if a[0].unlocked then [] else [a[0]]) + LockedOf(a[1..])
  }

  lemma FilterCons(x: Achievement, rest: seq<Achievement>)
    ensures UnlockedOf([x] + rest) == (if x.unlocked then [x] else []) + UnlockedOf(rest)
    ensures LockedOf([x] + rest) == (if x.unlocked then [] else [x]) + LockedOf(rest)
  {
    assert ([x] + rest)[0] == x && ([x] + rest)[1..] == rest;
  }

  lemma ConcatAssoc(a: seq<Achievement>, b: seq<Achievement>, c: seq<Achievement>)
    ensures a + (b + c) == (a + b) + c
  {
  }

  /** Filtering keeps order: the lists of a concatenation are the
      concatenated lists, so each entry keeps its place relative to the
      others of its list. */
  lemma {:induction false} FilterKeepsOrder(a: seq<Achievement>, b: seq<Achievement>)
    ensures UnlockedOf(a + b) == UnlockedOf(a) + UnlockedOf(b)
    ensures LockedOf(a + b) == LockedOf(a) + LockedOf(b)
    decreases |a|
  {
    if a == [] {
      assert a + b == b;
    } else {
      var x, rest := a[0], a[1..];
      assert a == [x] + rest;
      assert a + b == [x] + (rest + b);
      FilterKeepsOrder(rest, b);
      FilterCons(x, rest);
      FilterCons(x, rest + b);
      var h := if x.unlocked then [x] else [];
      var u1, u2 := UnlockedOf(rest), UnlockedOf(b);
      assert UnlockedOf(a + b) == h + (u1 + u2);
      ConcatAssoc(h, u1, u2);
      var l := if x.unlocked then [] else [x];
      var l1, l2 := LockedOf(rest), LockedOf(b);
      assert LockedOf(a + b) == l + (l1 + l2);
      ConcatAssoc(l, l1, l2);
    }
  }

  /** The two lists share no entry and together account for every
      achievement: the header's "n / total unlocked" is consistent. */
  lemma {:induction false} PartitionSizes(a: seq<Achievement>)
    ensures |UnlockedOf(a)| + |LockedOf(a)| == |a|
    ensures forall x :: !(x in UnlockedOf(a) && x in LockedOf(a))
    decreases |a|
  {
    if a != [] {
      PartitionSizes(a[1..]);
    }
  }
}
