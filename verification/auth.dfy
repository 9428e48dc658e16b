/** The account context: the signed-in user, their profile (premium flag
    and remaining credits), the derived guest and premium flags, spending a
    credit and moving a guest's progress into a new account. Every call to
    the backend is an outcome passed in: whether a write succeeded, what the
    progress row held. */
module AuthContext {
  import opened Common
  import opened GameTypes

  datatype User = User(id: string)

  datatype Profile = Profile(id: string, userId: string, displayName: Option<string>,
                             isPremium: bool, creditsRemaining: int)

  datatype Auth = Auth(user: Option<User>, profile: Option<Profile>)

  /** Before the session is known: nobody signed in, no profile. */
  const InitialAuth: Auth := Auth(None, None)

  /** Credits shown to a visitor without a profile. */
  const GuestCredits: int := 2

  // ---------------------------------------------------------------------
  // Derived flags

  datatype Flags = Flags(isGuest: bool, isLoggedIn: bool, isPremium: bool, creditsRemaining: int)

  /** `isGuest`, `isLoggedIn`, `isPremium` and `creditsRemaining`. */
  function DerivedFlags(a: Auth): (f: Flags)
    ensures f.isGuest <==> a.user.None?
    ensures f.isLoggedIn <==> !f.isGuest
    ensures f.isPremium <==> a.profile.Some? && a.profile.value.isPremium
    ensures a.profile.None? ==> f.creditsRemaining == GuestCredits
    ensures a.profile.Some? ==> f.creditsRemaining == a.profile.value.creditsRemaining
  {
    Flags(a.user.None?, a.user.Some?, a.profile.Some? && a.profile.value.isPremium,
          if a.profile.Some? then a.profile.value.creditsRemaining else GuestCredits)
  }

  // ---------------------------------------------------------------------
  // Session changes

  /** The auth listener: the session's user (or none) replaces the current
      one; without a user the profile is dropped, with one it is fetched
      later (`ProfileFetched`). */
  function AuthStateChange(a: Auth, sessionUser: Option<User>): (r: Auth)
    ensures r.user == sessionUser
    ensures sessionUser.None? ==> r.profile.None?
    ensures sessionUser.Some? ==> r.profile == a.profile
  {
    if sessionUser.Some? then a.(user := sessionUser) else Auth(None, None)
  }

  /** A profile fetch completed; a failed fetch yields no profile. */
  function ProfileFetched(a: Auth, fetched: Option<Profile>): (r: Auth)
    ensures r.user == a.user && r.profile == fetched
  {
    a.(profile := fetched)
  }

  /** `signOut`: the profile is cleared at once; the user goes when the
      listener reports the ended session. */
  function SignOut(a: Auth): (r: Auth)
    ensures r.profile.None? && r.user == a.user
  {
    a.(profile := None)
  }

  /** Right after signing out nothing premium remains and the guest credit
      figure shows; once the listener reports the ended session the visitor
      is a guest. */
  lemma SignOutFlags(a: Auth)
    ensures var f := DerivedFlags(SignOut(a));
            !f.isPremium && f.creditsRemaining == GuestCredits
    ensures var f := DerivedFlags(AuthStateChange(SignOut(a), None));
            f.isGuest && !f.isLoggedIn && !f.isPremium && f.creditsRemaining == GuestCredits
  {
  }

  // ---------------------------------------------------------------------
  // Spending a credit

  /** The profile update `useCredit` sends: the user's row gets this many
      credits. */
  datatype CreditWrite = CreditWrite(userId: string, credits: int)

  datatype CreditResult = CreditResult(auth: Auth, used: bool, write: Option<CreditWrite>)

  /** `useCredit`: with no user or profile, or no credits left, nothing is
      written and the answer is false; otherwise the row is set to one credit
      fewer, and when that write succeeds the profile follows and the answer
      is true. */
  function UseCredit(a: Auth, writeOk: bool): (r: CreditResult)
    ensures a.user.None? || a.profile.None? ==> r == CreditResult(a, false, None)
    ensures a.user.Some? && a.profile.Some? && a.profile.value.creditsRemaining <= 0 ==>
              r == CreditResult(a, false, None)
    ensures a.user.Some? && a.profile.Some? && a.profile.value.creditsRemaining > 0 ==>
              && r.write == Some(CreditWrite(a.user.value.id, a.profile.value.creditsRemaining - 1))
              && r.used == writeOk
              && r.auth.user == a.user && r.auth.profile.Some?
              && r.auth.profile.value == a.profile.value.(creditsRemaining := r.auth.profile.value.creditsRemaining)
              && r.auth.profile.value.creditsRemaining == a.profile.value.creditsRemaining - (if writeOk then 1 else 0)
  {
    if a.user.None? || a.profile.None? then CreditResult(a, false, None)
    else
      var p := a.profile.value;
      if p.creditsRemaining <= 0 then CreditResult(a, false, None)
      else
        var w := CreditWrite(a.user.value.id, p.creditsRemaining - 1);
        if writeOk then CreditResult(DecrementProfile(a), true, Some(w))
        else CreditResult(a, false, Some(w))
  }

  /** Spends credits once per backend outcome; returns the final state and
      how many calls answered true. */
  function UseCredits(a: Auth, outcomes: seq<bool>): (r: (Auth, nat))
    decreases |outcomes|
  {
    if outcomes == [] then (a, 0)
    else
      var step := UseCredit(a, outcomes[0]);
      var (a', n) := UseCredits(step.auth, outcomes[1..]);
      (a', n + (if step.used then 1 else 0))
  }

  /** Across any run of calls the profile loses exactly one credit per call
      that answered true, never more calls succeed than there were credits,
      and a non-negative balance never turns negative. */
  lemma {:induction false} CreditsAccounting(a: Auth, outcomes: seq<bool>)
    requires a.user.Some? && a.profile.Some?
    ensures var (a', n) := UseCredits(a, outcomes);
            && a'.user == a.user && a'.profile.Some?
            && a'.profile.value == a.profile.value.(creditsRemaining := a'.profile.value.creditsRemaining)
            && a'.profile.value.creditsRemaining == a.profile.value.creditsRemaining - n
            && (a.profile.value.creditsRemaining >= 0 ==> a'.profile.value.creditsRemaining >= 0)
            && n <= if a.profile.value.creditsRemaining >= 0 then a.profile.value.creditsRemaining else 0
    decreases |outcomes|
  {
    if outcomes != [] {
      var step := UseCredit(a, outcomes[0]);
      CreditsAccounting(step.auth, outcomes[1..]);
    }
  }

  /** Two calls that overlap: both read the profile of the same render, so
      with one credit left both pass the check and both send a write of 0
      credits; each then applies the decrement to the latest profile, and
      the profile in memory ends at -1 although the stored row holds 0. */
  lemma OverlappingCallsOverspend(u: User, p: Profile)
    requires p.creditsRemaining == 1
    ensures var a := Auth(Some(u), Some(p));
            var first := UseCredit(a, true);
            var second := UseCredit(a, true);
            && first.write == Some(CreditWrite(u.id, 0)) && second.write == first.write
            && first.used && second.used
            && DecrementProfile(DecrementProfile(a)).profile.value.creditsRemaining == -1
  {
  }

  /** The state updater `useCredit` applies after a successful write:
      one credit fewer on whatever profile is current. */
  function DecrementProfile(a: Auth): (r: Auth)
    ensures r.user == a.user && (r.profile.Some? <==> a.profile.Some?)
    ensures a.profile.Some? ==> r.profile.value.creditsRemaining == a.profile.value.creditsRemaining - 1
  {
    if a.profile.Some? then a.(profile := Some(a.profile.value.(creditsRemaining := a.profile.value.creditsRemaining - 1)))
    else a
  }

  // ---------------------------------------------------------------------
  // Moving guest progress into an account

  /** The account's progress row, as far as this model follows it. */
  datatype ProgressRow = ProgressRow(totalXP: int, currentLevelXP: int, xpToNextLevel: int, level: int,
                                     avatarLevel: AvatarLevel, totalSessions: int, totalMinutes: int,
                                     streak: int, books: seq<Book>, sessionHistory: seq<SessionRecord>)

  /** The row written from the guest's statistics. */
  function RowOf(st: PlayerStats): (row: ProgressRow)
    ensures StatsOf(row) == st
  {
    ProgressRow(st.totalXP, st.currentLevelXP, st.xpToNextLevel, st.level, st.avatarLevel,
                st.totalSessions, st.totalMinutes, st.streak, st.books, st.sessionHistory)
  }

  /** Reading a row back as statistics. */
  function StatsOf(row: ProgressRow): PlayerStats {
    PlayerStats(row.totalXP, row.currentLevelXP, row.xpToNextLevel, row.level, row.avatarLevel,
                row.totalSessions, row.totalMinutes, row.books, row.streak, row.sessionHistory)
  }

  datatype MergeResult = MergeResult(write: Option<(string, ProgressRow)>, savedToast: bool)

  /** `mergeGuestProgress(guest)`: only a signed-in user whose stored row
      exists and records no session gets the guest's statistics; the
      "Progress saved!" notice follows a successful write. `existing` is the
      row the backend returned, if any. */
  function MergeGuestProgress(a: Auth, existing: Option<ProgressRow>, guest: PlayerStats, writeOk: bool): (r: MergeResult)
    ensures r.write.Some? <==> a.user.Some? && existing.Some? && existing.value.totalSessions == 0
    ensures r.write.Some? ==> r.write.value.0 == a.user.value.id && StatsOf(r.write.value.1) == guest
    ensures r.savedToast <==> r.write.Some? && writeOk
  {
    if a.user.Some? && existing.Some? && existing.value.totalSessions == 0 then
      MergeResult(Some((a.user.value.id, RowOf(guest))), writeOk)
    else MergeResult(None, false)
  }

  /** An account that has recorded any session is never overwritten, and a
      guest is never merged. */
  lemma MergeNeverOverwritesProgress(a: Auth, existing: ProgressRow, guest: PlayerStats, writeOk: bool)
    requires existing.totalSessions != 0 || a.user.None?
    ensures MergeGuestProgress(a, Some(existing), guest, writeOk).write.None?
    ensures !MergeGuestProgress(a, Some(existing), guest, writeOk).savedToast
  {
  }

  /** After a merge into a fresh account, reading the row back gives the
      guest's statistics unchanged. */
  lemma MergeRoundTrip(u: User, p: Option<Profile>, existing: ProgressRow, guest: PlayerStats)
    requires existing.totalSessions == 0
    ensures var r := MergeGuestProgress(Auth(Some(u), p), Some(existing), guest, true);
            r.write.Some? && StatsOf(r.write.value.1) == guest && r.savedToast
  {
  }
}
