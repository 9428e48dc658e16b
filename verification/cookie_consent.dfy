/** The cookie consent hook: a consent choice and three cookie flags, kept in
    `localStorage` under `cookie_consent` and `cookie_settings` (the settings
    as `JSON.stringify` writes them). The store is a map from keys to
    strings; a key that is absent is `getItem`'s null. */
module CookieConsent {
  import opened Common

  type Storage = map<string, string>

  const ConsentKey: string := "cookie_consent"
  const SettingsKey: string := "cookie_settings"

  /** The consent value. The hook casts whatever text is stored, so a value
      outside the four known ones is kept as `Other`. */
  datatype Consent = Pending | All | Essential | Custom | Other(text: string)

  function ConsentText(c: Consent): (t: string)
    ensures t != []
  {
    match c
    case Pending => "pending"
    case All => "all"
    case Essential => "essential"
    case Custom => "custom"
    case Other(text) => if text == [] then "pending" else text
  }

  /** Reads a stored consent text back. */
  function ParseConsent(t: string): (c: Consent)
    ensures t == "pending" <==> c == Pending
    ensures t == "all" <==> c == All
    ensures t == "essential" <==> c == Essential
    ensures t == "custom" <==> c == Custom
    ensures c.Other? ==> c.text == t
  {
    if t == "pending" then Pending
    else if t == "all" then All
    else if t == "essential" then Essential
    else if t == "custom" then Custom
    else Other(t)
  }

  /** A consent value that does not pretend to be a known one. */
  predicate WellFormedConsent(c: Consent) {
    c.Other? ==> c.text != [] && ParseConsent(c.text) == c
  }

  lemma ConsentRoundTrip(c: Consent)
    requires WellFormedConsent(c)
    ensures ParseConsent(ConsentText(c)) == c
  {
  }

  datatype Settings = Settings(essential: bool, functional: bool, analytics: bool)

  const DefaultSettings: Settings := Settings(true, false, false)
  const AllSettings: Settings := Settings(true, true, true)

  // ---------------------------------------------------------------------
  // `JSON.stringify` of the settings object, and reading that text back

  function BoolText(b: bool): (t: string)
    ensures |t| >= 4
  {
    if b then "true" else "false"
  }

  const EssentialField: string := "{\"essential\":"
  const FunctionalField: string := ",\"functional\":"
  const AnalyticsField: string := ",\"analytics\":"
  const CloseBrace: string := "}"

  /** The text `JSON.stringify` gives for a settings object, its keys in
      declaration order and no whitespace. */
  function EncodeSettings(s: Settings): (r: string)
    ensures EssentialField <= r
  {
    EssentialField + BoolText(s.essential) + FunctionalField + BoolText(s.functional)
    + AnalyticsField + BoolText(s.analytics) + CloseBrace
  }

  /** The rest of `s` after `lit`, if `s` starts with it. */
  function Expect(s: string, lit: string): (rest: Option<string>)
    ensures rest.Some? <==> lit <= s
    ensures rest.Some? ==> s == lit + rest.value
  {
    if lit <= s then
      assert s == lit + s[|lit|..];
      Some(s[|lit|..])
    else None
  }

  /** A JSON boolean at the front of `s`, and the rest. */
  function ParseBool(s: string): (r: Option<(bool, string)>)
    ensures r.Some? ==> s == BoolText(r.value.0) + r.value.1
  {
    match Expect(s, "true")
    case Some(rest) => Some((true, rest))
    case None =>
      match Expect(s, "false")
      case Some(rest) => Some((false, rest))
      case None => None
  }

  lemma ParseBoolText(b: bool, rest: string)
    ensures ParseBool(BoolText(b) + rest) == Some((b, rest))
  {
    var s := BoolText(b) + rest;
    if b {
      assert "true" <= s;
    } else {
      assert !("true" <= s) by { assert s[1] == 'a'; }
      assert "false" <= s;
    }
  }

  /** A key's text followed by a JSON boolean at the front of `s`. */
  function ParseField(s: string, key: string): (r: Option<(bool, string)>)
    ensures r.Some? ==> s == key + BoolText(r.value.0) + r.value.1
  {
    match Expect(s, key)
    case None => None
    case Some(t) =>
      match ParseBool(t)
      case None => None
      case Some((b, rest)) =>
        assert s == key + (BoolText(b) + rest);
        Some((b, rest))
  }

  lemma ParseFieldText(key: string, b: bool, rest: string)
    ensures ParseField(key + BoolText(b) + rest, key) == Some((b, rest))
  {
    var s := key + BoolText(b) + rest;
    assert key <= s;
    assert s[|key|..] == BoolText(b) + rest;
    ParseBoolText(b, rest);
  }

  /** `JSON.parse` of a stored settings text, for the text `JSON.stringify`
      writes; any other text is not read as settings. */
  function DecodeSettings(text: string): (r: Option<Settings>)
    ensures r.Some? ==> text == EncodeSettings(r.value)
  {
    match ParseField(text, EssentialField)
    case None => None
    case Some((e, t1)) =>
      match ParseField(t1, FunctionalField)
      case None => None
      case Some((f, t2)) =>
        match ParseField(t2, AnalyticsField)
        case None => None
        case Some((a, t3)) =>
          if t3 == CloseBrace then
            EncodeShape(Settings(e, f, a), t1, t2);
            Some(Settings(e, f, a))
          else None
  }

  /** The encoding read as three fields in a row. */
  lemma EncodeShape(s: Settings, t1: string, t2: string)
    requires t2 == AnalyticsField + BoolText(s.analytics) + CloseBrace
    requires t1 == FunctionalField + BoolText(s.functional) + t2
    ensures EncodeSettings(s) == EssentialField + BoolText(s.essential) + t1
  {
  }

  /** Whatever is written is read back unchanged. */
  lemma SettingsRoundTrip(s: Settings)
    ensures DecodeSettings(EncodeSettings(s)) == Some(s)
  {
    var t2 := AnalyticsField + BoolText(s.analytics) + CloseBrace;
    var t1 := FunctionalField + BoolText(s.functional) + t2;
    EncodeShape(s, t1, t2);
    ParseFieldText(EssentialField, s.essential, t1);
    ParseFieldText(FunctionalField, s.functional, t2);
    assert t2 == AnalyticsField + BoolText(s.analytics) + CloseBrace;
    ParseFieldText(AnalyticsField, s.analytics, CloseBrace);
  }

  /** Reading is exact: a text is read as settings iff it is their encoding. */
  lemma DecodeSettingsIff(text: string, s: Settings)
    ensures DecodeSettings(text) == Some(s) <==> text == EncodeSettings(s)
  {
    if text == EncodeSettings(s) {
      SettingsRoundTrip(s);
    }
  }

  // ---------------------------------------------------------------------
  // The hook

  datatype Hook = Hook(consent: Consent, settings: Settings)

  /** The state before the mount effect runs. */
  const InitialHook: Hook := Hook(Pending, DefaultSettings)

  /** The mount effect: a stored non-empty consent replaces `pending`, and
      stored settings replace the defaults. */
  function Mount(st: Storage): (h: Hook)
    ensures ConsentKey in st && st[ConsentKey] != [] ==> h.consent == ParseConsent(st[ConsentKey])
    ensures !(ConsentKey in st && st[ConsentKey] != []) ==> h.consent == Pending
    ensures SettingsKey in st && DecodeSettings(st[SettingsKey]).Some? ==> h.settings == DecodeSettings(st[SettingsKey]).value
    ensures !(SettingsKey in st && DecodeSettings(st[SettingsKey]).Some?) ==> h.settings == DefaultSettings
  {
    var consent := if ConsentKey in st && st[ConsentKey] != [] then ParseConsent(st[ConsentKey]) else Pending;
    var settings := if SettingsKey in st && DecodeSettings(st[SettingsKey]).Some?
                    then DecodeSettings(st[SettingsKey]).value else DefaultSettings;
    Hook(consent, settings)
  }

  lemma KeysDistinct()
    ensures ConsentKey != SettingsKey
  {
    assert ConsentKey[7] != SettingsKey[7];
  }

  /** Records a choice in memory and in the store. */
  function Choose(st: Storage, consent: Consent, settings: Settings): (r: (Hook, Storage))
    ensures r.0 == Hook(consent, settings)
    ensures r.1 == st[ConsentKey := ConsentText(consent)][SettingsKey := EncodeSettings(settings)]
    ensures ConsentKey in r.1 && r.1[ConsentKey] == ConsentText(consent)
    ensures SettingsKey in r.1 && DecodeSettings(r.1[SettingsKey]) == Some(settings)
    ensures forall k :: k in st && k != ConsentKey && k != SettingsKey ==> k in r.1 && r.1[k] == st[k]
  {
    KeysDistinct();
    SettingsRoundTrip(settings);
    (Hook(consent, settings), st[ConsentKey := ConsentText(consent)][SettingsKey := EncodeSettings(settings)])
  }

  /** A second choice overwrites the first entirely. */
  lemma ChooseTwice(st: Storage, c1: Consent, s1: Settings, c2: Consent, s2: Settings)
    ensures Choose(Choose(st, c1, s1).1, c2, s2) == Choose(st, c2, s2)
  {
    KeysDistinct();
    OverwriteTwoKeys(st, ConsentKey, SettingsKey, ConsentText(c1), EncodeSettings(s1),
                     ConsentText(c2), EncodeSettings(s2));
  }

  lemma OverwriteTwoKeys(st: Storage, x: string, y: string, p: string, q: string, p': string, q': string)
    requires x != y
    ensures st[x := p][y := q][x := p'][y := q'] == st[x := p'][y := q']
  {
    var a := st[x := p][y := q][x := p'][y := q'];
    var b := st[x := p'][y := q'];
    assert a.Keys == b.Keys;
  }

  /** `acceptAll`: every flag on, consent `all`. */
  function AcceptAll(st: Storage): (r: (Hook, Storage))
    ensures r.0.consent == All && r.0.settings.essential && r.0.settings.functional && r.0.settings.analytics
    ensures ConsentKey in r.1 && r.1[ConsentKey] == "all"
    ensures SettingsKey in r.1 && DecodeSettings(r.1[SettingsKey]) == Some(r.0.settings)
    ensures forall k :: k in st && k != ConsentKey && k != SettingsKey ==> k in r.1 && r.1[k] == st[k]
  {
    Choose(st, All, AllSettings)
  }

  /** `acceptEssential`: only the essential flag, consent `essential`. */
  function AcceptEssential(st: Storage): (r: (Hook, Storage))
    ensures r.0.consent == Essential && r.0.settings.essential && !r.0.settings.functional && !r.0.settings.analytics
    ensures ConsentKey in r.1 && r.1[ConsentKey] == "essential"
    ensures SettingsKey in r.1 && DecodeSettings(r.1[SettingsKey]) == Some(r.0.settings)
    ensures forall k :: k in st && k != ConsentKey && k != SettingsKey ==> k in r.1 && r.1[k] == st[k]
  {
    Choose(st, Essential, DefaultSettings)
  }

  /** `saveCustomSettings(custom)`: the given flags verbatim, consent
      `custom`. */
  function SaveCustom(st: Storage, custom: Settings): (r: (Hook, Storage))
    ensures r.0 == Hook(Custom, custom)
    ensures ConsentKey in r.1 && r.1[ConsentKey] == "custom"
    ensures SettingsKey in r.1 && DecodeSettings(r.1[SettingsKey]) == Some(r.0.settings)
    ensures forall k :: k in st && k != ConsentKey && k != SettingsKey ==> k in r.1 && r.1[k] == st[k]
  {
    Choose(st, Custom, custom)
  }

  /** `resetConsent`: back to `pending`, both keys removed, the in-memory
      flags left as they were. */
  function Reset(h: Hook, st: Storage): (r: (Hook, Storage))
    ensures r.0.consent == Pending && r.0.settings == h.settings
    ensures ConsentKey !in r.1 && SettingsKey !in r.1
    ensures forall k :: k in st && k != ConsentKey && k != SettingsKey <==> k in r.1
    ensures forall k :: k in r.1 ==> r.1[k] == st[k]
  {
    (h.(consent := Pending), st - {ConsentKey, SettingsKey})
  }

  /** The banner is shown while no choice has been made. */
  function ShowBanner(h: Hook): (b: bool)
    ensures h == InitialHook ==> b
    ensures h.consent == All || h.consent == Essential || h.consent == Custom ==> !b
  {
    h.consent == Pending
  }

  /** Every choice is remembered: mounting again on the store a choice left
      restores exactly the hook state it set, so the banner stays hidden. */
  lemma ChoiceSurvivesReload(st: Storage, custom: Settings)
    ensures var (h, st') := AcceptAll(st); Mount(st') == h && !ShowBanner(Mount(st'))
    ensures var (h, st') := AcceptEssential(st); Mount(st') == h && !ShowBanner(Mount(st'))
    ensures var (h, st') := SaveCustom(st, custom); Mount(st') == h && !ShowBanner(Mount(st'))
  {
    SettingsRoundTrip(AllSettings);
    SettingsRoundTrip(DefaultSettings);
    SettingsRoundTrip(custom);
  }

  /** After a reset a reload shows the banner again, with the default
      flags. */
  lemma ResetShowsBannerAfterReload(h: Hook, st: Storage)
    ensures ShowBanner(Reset(h, st).0)
    ensures Mount(Reset(h, st).1) == InitialHook
  {
  }

  /** Choosing twice in a row is the same as choosing once. */
  lemma ChoicesIdempotent(st: Storage, custom: Settings)
    ensures AcceptAll(AcceptAll(st).1) == AcceptAll(st)
    ensures AcceptEssential(AcceptEssential(st).1) == AcceptEssential(st)
    ensures SaveCustom(SaveCustom(st, custom).1, custom) == SaveCustom(st, custom)
  {
    ChooseTwice(st, All, AllSettings, All, AllSettings);
    ChooseTwice(st, Essential, DefaultSettings, Essential, DefaultSettings);
    ChooseTwice(st, Custom, custom, Custom, custom);
  }

  /** The last choice wins, whatever came before it. */
  lemma LastChoiceWins(st: Storage, custom: Settings)
    ensures AcceptAll(AcceptEssential(st).1) == AcceptAll(st)
    ensures AcceptEssential(SaveCustom(st, custom).1) == AcceptEssential(st)
    ensures SaveCustom(AcceptAll(st).1, custom) == SaveCustom(st, custom)
  {
    ChooseTwice(st, Essential, DefaultSettings, All, AllSettings);
    ChooseTwice(st, Custom, custom, Essential, DefaultSettings);
    ChooseTwice(st, All, AllSettings, Custom, custom);
  }
}
