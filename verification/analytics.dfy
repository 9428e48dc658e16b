/** Consent-gated analytics: events are recorded only with consent, each
    carrying the page session's id, in a local buffer that keeps the last
    hundred. The clock, `Math.random` and a write failure of the store are
    parameters; the event buffer, kept as JSON under `analytics_events`, is
    modelled as a list of event records. */
module Analytics {
  import opened Common
  import opened CookieConsent

  datatype EventName =
    | AppOpened | DemoStarted | SessionCompleted | CreditsUsed | LoginCompleted
    | UpgradeViewed | UpgradePurchased | WaitlistSignup | BookAdded | NotesCreated
    | XPGained | StreakUpdated

  /** A property value: string, number, boolean or undefined. Numbers are
      modelled as integers. */
  datatype PropValue = PString(s: string) | PNumber(n: int) | PBool(b: bool) | PUndefined

  type Properties = map<string, PropValue>

  datatype EventData = EventData(event: EventName, properties: Option<Properties>,
                                 timestamp: string, sessionId: string)

  const BufferLimit: nat := 100

  // ---------------------------------------------------------------------
  // The consent decision

  /** The keys the analytics module reads, which are not the ones the
      consent banner writes. */
  const LegacyConsentKey: string := "cookie-consent"
  const LegacySettingsKey: string := "cookie-settings"

  /** `isEnabled` as written: consent `accepted` under `cookie-consent`, or
      consent `custom` with a stored settings text under `cookie-settings`
      whose `analytics` flag is true; text that does not read as settings
      gives false, as the `catch` does. */
  function IsEnabledAsWritten(st: Storage): (on: bool)
    ensures on ==> LegacyConsentKey in st
    ensures LegacyConsentKey in st && st[LegacyConsentKey] == "accepted" ==> on
    ensures (LegacyConsentKey in st && st[LegacyConsentKey] == "custom"
             && LegacySettingsKey in st && DecodeSettings(st[LegacySettingsKey]).Some?) ==>
              on == DecodeSettings(st[LegacySettingsKey]).value.analytics
    ensures (LegacyConsentKey in st && st[LegacyConsentKey] == "custom"
             && (LegacySettingsKey !in st || DecodeSettings(st[LegacySettingsKey]).None?)) ==> !on
    ensures LegacyConsentKey in st && st[LegacyConsentKey] != "accepted" && st[LegacyConsentKey] != "custom" ==> !on
  {
    if LegacyConsentKey !in st then false
    else if st[LegacyConsentKey] == "accepted" then true
    else if st[LegacyConsentKey] == "custom" && LegacySettingsKey in st && st[LegacySettingsKey] != [] then
      match DecodeSettings(st[LegacySettingsKey])
      case Some(s) => s.analytics
      case None => false
    else false
  }

  /** The banner's operations. */
  datatype BannerOp = AcceptAllOp | AcceptEssentialOp | SaveCustomOp(custom: Settings) | ResetOp

  function ApplyOp(h: Hook, st: Storage, op: BannerOp): (r: (Hook, Storage))
    ensures forall k :: k != ConsentKey && k != SettingsKey ==> (k in r.1 <==> k in st)
    ensures forall k :: k != ConsentKey && k != SettingsKey && k in st ==> r.1[k] == st[k]
  {
    match op
    case AcceptAllOp => AcceptAll(st)
    case AcceptEssentialOp => AcceptEssential(st)
    case SaveCustomOp(custom) => SaveCustom(st, custom)
    case ResetOp => Reset(h, st)
  }

  function RunOps(h: Hook, st: Storage, ops: seq<BannerOp>): (r: (Hook, Storage))
    decreases |ops|
  {
    if ops == [] then (h, st)
    else
      var (h', st') := ApplyOp(h, st, ops[0]);
      RunOps(h', st', ops[1..])
  }

  lemma LegacyKeysAreNotBannerKeys()
    ensures LegacyConsentKey != ConsentKey && LegacyConsentKey != SettingsKey
    ensures LegacySettingsKey != ConsentKey && LegacySettingsKey != SettingsKey
  {
    assert LegacyConsentKey[6] != ConsentKey[6];
    assert LegacyConsentKey[6] != SettingsKey[6];
    assert LegacySettingsKey[6] != ConsentKey[6];
    assert LegacySettingsKey[6] != SettingsKey[6];
  }

  /** No sequence of banner choices touches the keys analytics reads. */
  lemma {:induction false} BannerLeavesLegacyKeys(h: Hook, st: Storage, ops: seq<BannerOp>)
    ensures var st' := RunOps(h, st, ops).1;
            && (LegacyConsentKey in st' <==> LegacyConsentKey in st)
            && (LegacyConsentKey in st ==> st'[LegacyConsentKey] == st[LegacyConsentKey])
            && (LegacySettingsKey in st' <==> LegacySettingsKey in st)
            && (LegacySettingsKey in st ==> st'[LegacySettingsKey] == st[LegacySettingsKey])
    decreases |ops|
  {
    LegacyKeysAreNotBannerKeys();
    if ops != [] {
      var (h', st') := ApplyOp(h, st, ops[0]);
      BannerLeavesLegacyKeys(h', st', ops[1..]);
    }
  }

  /** As written, analytics never turns on through the banner: starting from
      a store without the hyphenated keys, no choice enables it, not even
      "accept all". */
  lemma AsWrittenNeverEnabled(h: Hook, st: Storage, ops: seq<BannerOp>)
    requires LegacyConsentKey !in st
    ensures !IsEnabledAsWritten(RunOps(h, st, ops).1)
  {
    BannerLeavesLegacyKeys(h, st, ops);
  }

  /** The concrete case: a fresh store, "accept all", analytics still off. */
  lemma AcceptAllLeavesAnalyticsOffAsWritten()
    ensures var (h, st) := AcceptAll(map[]);
            h.settings.analytics && !IsEnabledAsWritten(st)
  {
    AsWrittenNeverEnabled(InitialHook, map[], [AcceptAllOp]);
    assert RunOps(InitialHook, map[], [AcceptAllOp]) == AcceptAll(map[]);
  }

  /** What the banner's state means for analytics: everything accepted, or
      a custom choice with the analytics flag. */
  predicate AnalyticsConsented(h: Hook) {
    h.consent == All || (h.consent == Custom && h.settings.analytics)
  }

  /** The consent decision reading the keys the banner writes: consent `all`,
      or consent `custom` with a stored settings text whose `analytics` flag
      is true. */
  function IsEnabled(st: Storage): (on: bool)
    ensures on <==> AnalyticsConsented(Mount(st))
    ensures on ==> ConsentKey in st
    ensures ConsentKey in st && st[ConsentKey] == "all" ==> on
    ensures (ConsentKey in st && st[ConsentKey] == "custom"
             && SettingsKey in st && DecodeSettings(st[SettingsKey]).Some?) ==>
              on == DecodeSettings(st[SettingsKey]).value.analytics
    ensures (ConsentKey in st && st[ConsentKey] == "custom"
             && (SettingsKey !in st || DecodeSettings(st[SettingsKey]).None?)) ==> !on
    ensures ConsentKey in st && st[ConsentKey] != "all" && st[ConsentKey] != "custom" ==> !on
  {
    if ConsentKey !in st then false
    else if st[ConsentKey] == "all" then true
    else if st[ConsentKey] == "custom" && SettingsKey in st && st[SettingsKey] != [] then
      match DecodeSettings(st[SettingsKey])
      case Some(s) => s.analytics
      case None => false
    else false
  }

  /** With the keys read correctly, each banner choice has its intended
      effect on analytics. */
  lemma ConsentChoicesGovernAnalytics(h: Hook, st: Storage, custom: Settings)
    ensures IsEnabled(AcceptAll(st).1)
    ensures !IsEnabled(AcceptEssential(st).1)
    ensures IsEnabled(SaveCustom(st, custom).1) == custom.analytics
    ensures !IsEnabled(Reset(h, st).1)
  {
  }

  // ---------------------------------------------------------------------
  // The session id

  const SessionIdPrefix: string := "session_"

  /** `getSessionId`: the id kept in session storage, or, when there is none
      or it is empty, a fresh `session_<now>_<random>` that is then kept.
      `now` is `Date.now()`, `random` the base-36 digits drawn. */
  function GetSessionId(sessionStore: Option<string>, now: nat, random: string): (r: (string, Option<string>))
    ensures r.0 != [] && r.1 == Some(r.0)
    ensures sessionStore.Some? && sessionStore.value != [] ==> r.0 == sessionStore.value
    ensures !(sessionStore.Some? && sessionStore.value != []) ==> SessionIdPrefix <= r.0
  {
    if sessionStore.Some? && sessionStore.value != [] then (sessionStore.value, sessionStore)
    else
      var id := SessionIdPrefix + DecimalString(now) + "_" + random;
      (id, Some(id))
  }

  /** Once an id exists, every later call returns it, whatever the clock and
      the random draw. */
  lemma SessionIdReused(sessionStore: Option<string>, now1: nat, random1: string, now2: nat, random2: string)
    ensures var (id1, store1) := GetSessionId(sessionStore, now1, random1);
            GetSessionId(store1, now2, random2) == (id1, store1)
  {
  }

  // ---------------------------------------------------------------------
  // The event buffer

  /** The last `n` entries of `s` (all of them when there are fewer). */
  function KeepLast<T>(s: seq<T>, n: nat): (r: seq<T>)
    ensures |r| == Min(|s|, n)
    ensures r == s[|s| - |r|..]
  {
    if |s| > n then s[|s| - n..] else s
  }

  /** `storeEvent`: append, then drop the oldest beyond a hundred; a failed
      write leaves the buffer as it was. */
  function StoreEvent(events: seq<EventData>, e: EventData, writeOk: bool): (r: seq<EventData>)
    ensures writeOk ==> |r| == Min(|events| + 1, BufferLimit) && r[|r| - 1] == e
                        && r == (events + [e])[|events| + 1 - |r|..]
    ensures !writeOk ==> r == events
  {
    if writeOk then KeepLast(events + [e], BufferLimit) else events
  }

  /** Stores a run of events one by one, each write succeeding. */
  function StoreAll(events: seq<EventData>, es: seq<EventData>): seq<EventData>
    decreases |es|
  {
    if es == [] then events else StoreAll(StoreEvent(events, es[0], true), es[1..])
  }

  /** The buffer always holds the last hundred of every event stored, in the
      order they were tracked. */
  lemma {:induction false} StoreAllIsLastHundred(events: seq<EventData>, es: seq<EventData>)
    requires |events| <= BufferLimit
    ensures StoreAll(events, es) == KeepLast(events + es, BufferLimit)
    decreases |es|
  {
    if es == [] {
      assert events + es == events;
    } else {
      var next := StoreEvent(events, es[0], true);
      StoreAllIsLastHundred(next, es[1..]);
      KeepLastConcat(events + [es[0]], es[1..], BufferLimit);
      assert events + [es[0]] + es[1..] == events + es;
    }
  }

  /** Dropping the front of `s` first does not change the last `n` of
      `s + t`. */
  lemma KeepLastConcat<T>(s: seq<T>, t: seq<T>, n: nat)
    ensures KeepLast(KeepLast(s, n) + t, n) == KeepLast(s + t, n)
  {
    if |s| > n {
      var k := s[|s| - n..];
      var m := Min(|k + t|, n);
      assert (k + t)[|k + t| - m..] == (s + t)[|s + t| - m..];
    }
  }

  // ---------------------------------------------------------------------
  // Tracking

  /** The analytics state: the local store the consent lives in, the event
      buffer and the session storage slot for the id. */
  datatype Tracker = Tracker(local: Storage, events: seq<EventData>, sessionStore: Option<string>)

  /** The part of `track` past the consent gate: the event is recorded with
      the given name and properties, the timestamp and the page session's
      id. */
  function Record(t: Tracker, event: EventName, properties: Option<Properties>,
                  timestamp: string, now: nat, random: string, writeOk: bool): (r: Tracker)
    ensures r.local == t.local
    ensures r.sessionStore.Some? && r.sessionStore.value != []
    ensures t.sessionStore.Some? && t.sessionStore.value != [] ==> r.sessionStore == t.sessionStore
    ensures writeOk ==> |r.events| > 0 && var e := r.events[|r.events| - 1];
                        e.event == event && e.properties == properties
                        && e.timestamp == timestamp && Some(e.sessionId) == r.sessionStore
    ensures writeOk ==> r.events == StoreEvent(t.events, r.events[|r.events| - 1], true)
    ensures !writeOk ==> r.events == t.events
    ensures |t.events| <= BufferLimit ==> |r.events| <= BufferLimit
  {
    var (id, store) := GetSessionId(t.sessionStore, now, random);
    var e := EventData(event, properties, timestamp, id);
    Tracker(t.local, StoreEvent(t.events, e, writeOk), store)
  }

  /** `track(event, properties)`, gated by the consent the banner records:
      without consent nothing changes; with consent the event is recorded. */
  function Track(t: Tracker, event: EventName, properties: Option<Properties>,
                 timestamp: string, now: nat, random: string, writeOk: bool): (r: Tracker)
    ensures !IsEnabled(t.local) ==> r == t
    ensures IsEnabled(t.local) ==>
              && r.local == t.local
              && r.sessionStore.Some? && r.sessionStore.value != []
              && (t.sessionStore.Some? && t.sessionStore.value != [] ==> r.sessionStore == t.sessionStore)
              && (writeOk ==> |r.events| > 0 && var e := r.events[|r.events| - 1];
                              e.event == event && e.properties == properties
                              && e.timestamp == timestamp && Some(e.sessionId) == r.sessionStore
                              && r.events == StoreEvent(t.events, e, true))
              && (!writeOk ==> r.events == t.events)
    ensures |t.events| <= BufferLimit ==> |r.events| <= BufferLimit
  {
    if !IsEnabled(t.local) then t
    else Record(t, event, properties, timestamp, now, random, writeOk)
  }

  /** `track` as written, gated by `isEnabled` on the hyphenated keys. */
  function TrackAsWritten(t: Tracker, event: EventName, properties: Option<Properties>,
                          timestamp: string, now: nat, random: string, writeOk: bool): (r: Tracker)
    ensures !IsEnabledAsWritten(t.local) ==> r == t
    ensures IsEnabledAsWritten(t.local) ==>
              && r.local == t.local
              && r.sessionStore.Some? && r.sessionStore.value != []
              && (t.sessionStore.Some? && t.sessionStore.value != [] ==> r.sessionStore == t.sessionStore)
              && (writeOk ==> |r.events| > 0 && var e := r.events[|r.events| - 1];
                              e.event == event && e.properties == properties
                              && e.timestamp == timestamp && Some(e.sessionId) == r.sessionStore
                              && r.events == StoreEvent(t.events, e, true))
              && (!writeOk ==> r.events == t.events)
    ensures |t.events| <= BufferLimit ==> |r.events| <= BufferLimit
  {
    if !IsEnabledAsWritten(t.local) then t
    else Record(t, event, properties, timestamp, now, random, writeOk)
  }

  /** As written, after any banner choices on a store without the hyphenated
      keys, tracking records nothing; the corrected gate records the event
      after "accept all". */
  lemma TrackAsWrittenIgnoresBanner(h: Hook, st: Storage, ops: seq<BannerOp>, events: seq<EventData>,
                                    sessionStore: Option<string>, event: EventName, properties: Option<Properties>,
                                    timestamp: string, now: nat, random: string)
    requires LegacyConsentKey !in st
    ensures var t := Tracker(RunOps(h, st, ops).1, events, sessionStore);
            TrackAsWritten(t, event, properties, timestamp, now, random, true) == t
    ensures var t := Tracker(AcceptAll(st).1, events, sessionStore);
            var r := Track(t, event, properties, timestamp, now, random, true);
            |r.events| > 0 && r.events[|r.events| - 1].event == event
  {
    AsWrittenNeverEnabled(h, st, ops);
    ConsentChoicesGovernAnalytics(h, st, DefaultSettings);
  }

  /** Every event tracked in one page session carries the same id. */
  lemma OneSessionIdPerPage(t: Tracker, e1: EventName, e2: EventName, p1: Option<Properties>, p2: Option<Properties>,
                            ts1: string, ts2: string, now1: nat, now2: nat, r1: string, r2: string)
    requires IsEnabled(t.local)
    ensures var t1 := Track(t, e1, p1, ts1, now1, r1, true);
            var t2 := Track(t1, e2, p2, ts2, now2, r2, true);
            t2.events[|t2.events| - 1].sessionId == t1.events[|t1.events| - 1].sessionId
  {
  }
}
