/** The synthesis screen: the deterministic templater that turns a reflection
    into a summary and a key takeaway, and the typewriter that reveals both,
    one character per tick, the takeaway only after the whole summary. The
    random choice of a canned takeaway is the parameter `pick`. */
module SynthesisTemplate {
  import opened Common
  import opened GameTypes

  const ExploredPrefix: string := "You explored "
  const FocusPrefix: string := "Key focus: "
  const NotePrefix: string := "Note: "
  const TakeawayPrefix: string := "Focus on what felt important: "
  const DefaultSummary: string :=
    "Great focus session! " + "You stayed engaged with the material and made progress."

  const CannedTakeaways: seq<string> := [
    "Consistent practice builds lasting knowledge.",
    "Understanding concepts deeply beats surface-level memorization.",
    "Connecting new ideas to existing knowledge strengthens recall.",
    "Active reflection transforms information into understanding."
  ]

  /** The summary sentence for one trimmed field: the prefix, at most `n`
      lower-cased characters, and the closing punctuation. */
  function Part(prefix: string, field: string, n: nat, close: string): (p: string)
    ensures |p| <= |prefix| + n + |close|
    ensures exists c :: p == prefix + c + close && c <= Lower(field) && |c| == Min(n, |field|)
  {
    var c := Take(Lower(field), n);
    assert Take(Lower(field), n) <= Lower(field);
    prefix + c + close
  }

  /** The summary parts of the trimmed fields, in field order, one per
      non-empty field. */
  function SummaryParts(u: string, i: string, m: string): (parts: seq<string>)
    ensures |parts| == (if u != [] then 1 else 0) + (if i != [] then 1 else 0) + (if m != [] then 1 else 0)
    ensures u != [] ==> parts[0] == Part(ExploredPrefix, u, 50, "...")
    ensures i != [] ==> parts[if u != [] then 1 else 0] == Part(FocusPrefix, i, 40, ".")
    ensures m != [] ==> parts[|parts| - 1] == Part(NotePrefix, m, 40, ".")
    ensures u != [] ==> ExploredPrefix <= parts[0]
    ensures i != [] ==> FocusPrefix <= parts[if u != [] then 1 else 0]
    ensures u == [] && i == [] && m != [] ==> NotePrefix <= parts[0]
    ensures m != [] ==> NotePrefix <= parts[|parts| - 1]
  {
    (if u != [] then [Part(ExploredPrefix, u, 50, "...")] else [])
    + (if i != [] then [Part(FocusPrefix, i, 40, ".")] else [])
    + (if m != [] then [Part(NotePrefix, m, 40, ".")] else [])
  }

  /** The reflection with every field trimmed. */
  function Trimmed(refl: Reflection): (t: Reflection)
    ensures t.understood == [] <==> !HasContent(refl.understood)
    ensures t.important == [] <==> !HasContent(refl.important)
    ensures t.remember == [] <==> !HasContent(refl.remember)
  {
    TrimEmptyIff(refl.understood);
    TrimEmptyIff(refl.important);
    TrimEmptyIff(refl.remember);
    Reflection(Trim(refl.understood), Trim(refl.important), Trim(refl.remember))
  }

  predicate AnyContent(refl: Reflection) {
    HasContent(refl.understood) || HasContent(refl.important) || HasContent(refl.remember)
  }

  /** The summary of the trimmed fields: the parts joined by single spaces,
      or the fixed sentence when every field is empty. */
  function SummaryOf(u: string, i: string, m: string): (s: string)
    ensures |s| > 0
    ensures s == DefaultSummary <==> u == [] && i == [] && m == []
    ensures !(u == [] && i == [] && m == []) ==> s == Join(SummaryParts(u, i, m), " ")
  {
    var parts := SummaryParts(u, i, m);
    if |parts| > 0 then
      JoinStartsWithFirst(parts, " ");
      var s := Join(parts, " ");
      assert s[0] == parts[0][0];
      assert s[0] in "YKN";
      assert DefaultSummary[0] == 'G';
      s
    else DefaultSummary
  }

  /** The answer the takeaway quotes: `important || understood || remember`. */
  function Quoted(u: string, i: string, m: string): string {
    if i != [] then i else if u != [] then u else m
  }

  /** The takeaway of the trimmed fields: with some content, the fixed
      prefix and the first non-empty of important, understood, remember, cut
      to 100 characters; with none, the canned takeaway `pick`. */
  function TakeawayOf(u: string, i: string, m: string, pick: nat): (k: string)
    requires pick < |CannedTakeaways|
    ensures |k| > 0
    ensures u == [] && i == [] && m == [] ==> k == CannedTakeaways[pick]
    ensures !(u == [] && i == [] && m == []) ==>
              |k| <= 100 && TakeawayPrefix <= k
              && k <= TakeawayPrefix + Quoted(u, i, m)
              && |k| == Min(100, |TakeawayPrefix| + |Quoted(u, i, m)|)
              && (|TakeawayPrefix| + |Quoted(u, i, m)| <= 100 ==> k == TakeawayPrefix + Quoted(u, i, m))
  {
    if u != [] || i != [] || m != [] then
      Take(TakeawayPrefix + Quoted(u, i, m), 100)
    else CannedTakeaways[pick]
  }

  /** The synthesis of already trimmed fields. */
  function SynthesisOf(u: string, i: string, m: string, pick: nat): (r: Synthesis)
    requires pick < |CannedTakeaways|
    ensures u == [] && i == [] && m == [] ==> r == Synthesis(DefaultSummary, CannedTakeaways[pick])
    ensures !(u == [] && i == [] && m == []) ==>
              && r.summary == SummaryOf(u, i, m) && r.summary != DefaultSummary
              && TakeawayPrefix <= r.keyTakeaway && |r.keyTakeaway| <= 100
              && r.keyTakeaway <= TakeawayPrefix + Quoted(u, i, m)
              && |r.keyTakeaway| == Min(100, |TakeawayPrefix| + |Quoted(u, i, m)|)
    ensures |r.summary| > 0 && |r.keyTakeaway| > 0
  {
    Synthesis(SummaryOf(u, i, m), TakeawayOf(u, i, m, pick))
  }

  /** `generateMockSynthesis`: the fields are trimmed, then the summary and
      the takeaway are built from them. */
  function GenerateMockSynthesis(refl: Reflection, pick: nat): (r: Synthesis)
    requires pick < |CannedTakeaways|
    ensures r.summary == DefaultSummary <==> !AnyContent(refl)
    ensures !AnyContent(refl) ==> r.keyTakeaway == CannedTakeaways[pick]
    ensures AnyContent(refl) ==> TakeawayPrefix <= r.keyTakeaway && |r.keyTakeaway| <= 100
    ensures |r.summary| > 0 && |r.keyTakeaway| > 0
    ensures var t := Trimmed(refl);
            var q := Quoted(t.understood, t.important, t.remember);
            (t.understood != [] || t.important != [] || t.remember != []) ==>
              && r.summary == SummaryOf(t.understood, t.important, t.remember)
              && r.keyTakeaway <= TakeawayPrefix + q
              && |r.keyTakeaway| == Min(100, |TakeawayPrefix| + |q|)
  {
    var t := Trimmed(refl);
    SynthesisOf(t.understood, t.important, t.remember, pick)
  }

  /** The joined text starts with the first part. */
  lemma JoinStartsWithFirst(parts: seq<string>, sep: string)
    requires |parts| > 0
    ensures parts[0] <= Join(parts, sep)
  {
  }

  /** Trimming the fields a second time changes nothing. */
  lemma TrimmedIdempotent(refl: Reflection)
    ensures Trimmed(Trimmed(refl)) == Trimmed(refl)
  {
    TrimIdempotent(refl.understood);
    TrimIdempotent(refl.important);
    TrimIdempotent(refl.remember);
  }

  /** Only the trimmed fields matter: surrounding whitespace changes nothing. */
  lemma SynthesisSeesOnlyTrimmed(refl: Reflection, pick: nat)
    requires pick < |CannedTakeaways|
    ensures GenerateMockSynthesis(refl, pick) == GenerateMockSynthesis(Trimmed(refl), pick)
  {
    TrimmedIdempotent(refl);
  }

  /** Which field the takeaway quotes: important first, then understood,
      then remember. */
  lemma TakeawayQuotesFirstNonEmpty(refl: Reflection, pick: nat)
    requires pick < |CannedTakeaways|
    requires AnyContent(refl)
    ensures var t := Trimmed(refl);
            var q := if HasContent(refl.important) then t.important
                     else if HasContent(refl.understood) then t.understood
                     else t.remember;
            var k := GenerateMockSynthesis(refl, pick).keyTakeaway;
            && k <= TakeawayPrefix + q
            && |k| == Min(100, |TakeawayPrefix| + |q|)
  {
    var t := Trimmed(refl);
    QuotedMatchesContent(refl);
    assert t.understood != [] || t.important != [] || t.remember != [];
  }

  /** The field chosen by content is the field `Quoted` picks after trimming. */
  lemma QuotedMatchesContent(refl: Reflection)
    ensures var t := Trimmed(refl);
            (if HasContent(refl.important) then t.important
             else if HasContent(refl.understood) then t.understood
             else t.remember) == Quoted(t.understood, t.important, t.remember)
  {
  }

  /** With all three answers given, the summary is the three sentences in
      field order (understood, important, remember), separated by single
      spaces, each quoting its lower-cased field cut to 50, 40 and 40
      characters. */
  lemma SummaryOfAllFields(u: string, i: string, m: string)
    requires u != [] && i != [] && m != []
    ensures SummaryOf(u, i, m) == Part(ExploredPrefix, u, 50, "...") + " "
                                  + Part(FocusPrefix, i, 40, ".") + " "
                                  + Part(NotePrefix, m, 40, ".")
  {
    var parts := SummaryParts(u, i, m);
    assert parts == [Part(ExploredPrefix, u, 50, "..."), Part(FocusPrefix, i, 40, "."), Part(NotePrefix, m, 40, ".")];
    JoinThree(parts, " ");
  }

  /** Three parts join as the first, the separator, the second, the
      separator and the third. */
  lemma JoinThree(parts: seq<string>, sep: string)
    requires |parts| == 3
    ensures Join(parts, sep) == parts[0] + sep + parts[1] + sep + parts[2]
  {
    assert parts[1..][1..] == [parts[2]];
    assert Join(parts[1..][1..], sep) == parts[2];
    assert Join(parts[1..], sep) == parts[1] + sep + parts[2];
  }

  /** A single answer gives a single sentence, with no separator. */
  lemma SummaryOfOneField(u: string, i: string, m: string)
    ensures u != [] && i == [] && m == [] ==> SummaryOf(u, i, m) == ExploredPrefix + Take(Lower(u), 50) + "..."
    ensures u == [] && i != [] && m == [] ==> SummaryOf(u, i, m) == FocusPrefix + Take(Lower(i), 40) + "."
    ensures u == [] && i == [] && m != [] ==> SummaryOf(u, i, m) == NotePrefix + Take(Lower(m), 40) + "."
  {
  }

  // ---------------------------------------------------------------------
  // The typewriter

  /** `synthesis` is None while generating; each text has its own interval
      index, the next slice length to show. */
  datatype Typewriter = Typewriter(synthesis: Option<Synthesis>,
                                   summaryIndex: nat, displayedSummary: string,
                                   takeawayIndex: nat, displayedTakeaway: string)

  const Generating: Typewriter := Typewriter(None, 0, "", 0, "")

  datatype Tick = Generated(result: Synthesis) | SummaryTick | TakeawayTick

  /** Whether the takeaway interval runs: the whole summary is on screen. */
  predicate SummaryShown(t: Typewriter) {
    t.synthesis.Some? && t.displayedSummary == t.synthesis.value.summary
  }

  function Advance(t: Typewriter, k: Tick): (r: Typewriter)
    ensures t.synthesis.Some? ==> r.synthesis == t.synthesis
    ensures t.synthesis.None? && k.Generated? ==> r.synthesis == Some(k.result)
    ensures r.summaryIndex >= t.summaryIndex && r.takeawayIndex >= t.takeawayIndex
  {
    match k
    case Generated(result) =>
      if t.synthesis.None? then t.(synthesis := Some(result)) else t
    case SummaryTick =>
      if t.synthesis.Some? && t.summaryIndex <= |t.synthesis.value.summary| then
        t.(displayedSummary := t.synthesis.value.summary[..t.summaryIndex],
           summaryIndex := t.summaryIndex + 1)
      else t
    case TakeawayTick =>
      if SummaryShown(t) && t.takeawayIndex <= |t.synthesis.value.keyTakeaway| then
        t.(displayedTakeaway := t.synthesis.value.keyTakeaway[..t.takeawayIndex],
           takeawayIndex := t.takeawayIndex + 1)
      else t
  }

  /** `isComplete`: the whole takeaway is on screen; Save and Skip are shown
      only then. */
  predicate IsComplete(t: Typewriter) {
    t.synthesis.Some? && t.displayedTakeaway == t.synthesis.value.keyTakeaway
  }

  /** What the screen keeps true: both texts shown are prefixes of their
      targets, each index has just shown its slice, and no takeaway text
      appears before the summary is whole. */
  predicate Valid(t: Typewriter) {
    if t.synthesis.None? then t == Generating
    else
      var s := t.synthesis.value;
      && |s.keyTakeaway| > 0
      && t.summaryIndex <= |s.summary| + 1
      && t.displayedSummary == (if t.summaryIndex == 0 then "" else s.summary[..t.summaryIndex - 1])
      && t.takeawayIndex <= |s.keyTakeaway| + 1
      && t.displayedTakeaway == (if t.takeawayIndex == 0 then "" else s.keyTakeaway[..t.takeawayIndex - 1])
      && (t.takeawayIndex > 0 ==> t.displayedSummary == s.summary)
  }

  /** Every tick keeps the screen valid, so the shown texts are always
      prefixes and a complete screen always shows the whole summary. */
  lemma AdvancePreservesValid(t: Typewriter, k: Tick)
    requires Valid(t)
    requires k.Generated? ==> |k.result.keyTakeaway| > 0
    ensures Valid(Advance(t, k))
    ensures var t' := Advance(t, k);
            t'.synthesis.Some? ==> t'.displayedSummary <= t'.synthesis.value.summary
                                   && t'.displayedTakeaway <= t'.synthesis.value.keyTakeaway
    ensures IsComplete(Advance(t, k)) ==> SummaryShown(Advance(t, k))
  {
  }

  /** `n` ticks of the same kind. */
  function Repeat(t: Typewriter, k: Tick, n: nat): Typewriter
    decreases n
  {
    if n == 0 then t else Repeat(Advance(t, k), k, n - 1)
  }

  /** The summary interval shows the whole summary after one tick more than
      its length, and ticking on changes nothing. */
  lemma {:induction false} SummaryTicksReachEnd(t: Typewriter, n: nat)
    requires Valid(t) && t.synthesis.Some?
    requires t.summaryIndex + n == |t.synthesis.value.summary| + 1
    ensures Valid(Repeat(t, SummaryTick, n))
    ensures SummaryShown(Repeat(t, SummaryTick, n))
    ensures Repeat(t, SummaryTick, n).synthesis == t.synthesis
    ensures Repeat(t, SummaryTick, n).takeawayIndex == t.takeawayIndex
    decreases n
  {
    if n > 0 {
      AdvancePreservesValid(t, SummaryTick);
      SummaryTicksReachEnd(Advance(t, SummaryTick), n - 1);
    } else {
      assert t.synthesis.value.summary[..|t.synthesis.value.summary|] == t.synthesis.value.summary;
    }
  }

  /** Once the summary is whole, the takeaway interval completes the screen. */
  lemma {:induction false} TakeawayTicksReachEnd(t: Typewriter, n: nat)
    requires Valid(t) && SummaryShown(t)
    requires t.takeawayIndex + n == |t.synthesis.value.keyTakeaway| + 1
    ensures Valid(Repeat(t, TakeawayTick, n))
    ensures IsComplete(Repeat(t, TakeawayTick, n))
    decreases n
  {
    if n > 0 {
      AdvancePreservesValid(t, TakeawayTick);
      TakeawayTicksReachEnd(Advance(t, TakeawayTick), n - 1);
    } else {
      assert t.synthesis.value.keyTakeaway[..|t.synthesis.value.keyTakeaway|] == t.synthesis.value.keyTakeaway;
    }
  }

  /** After generation, |summary|+1 summary ticks followed by
      |takeaway|+1 takeaway ticks bring the screen to completion. */
  lemma TypewriterCompletes(refl: Reflection, pick: nat)
    requires pick < |CannedTakeaways|
    ensures var s := GenerateMockSynthesis(refl, pick);
            var t0 := Advance(Generating, Generated(s));
            var t1 := Repeat(t0, SummaryTick, |s.summary| + 1);
            IsComplete(Repeat(t1, TakeawayTick, |s.keyTakeaway| + 1))
  {
    var s := GenerateMockSynthesis(refl, pick);
    var t0 := Advance(Generating, Generated(s));
    AdvancePreservesValid(Generating, Generated(s));
    SummaryTicksReachEnd(t0, |s.summary| + 1);
    TakeawayTicksReachEnd(Repeat(t0, SummaryTick, |s.summary| + 1), |s.keyTakeaway| + 1);
  }
}
