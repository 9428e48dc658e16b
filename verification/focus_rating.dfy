/** The focus rating screen: five stars, a hovered star and a chosen one;
    "Continue" passes the chosen rating on, "Skip rating" passes nothing. */
module FocusRatingForm {
  import opened Common

  const StarCount: nat := 5

  /** The stars offered, `[1, 2, 3, 4, 5]`. */
  const Stars: seq<int> := [1, 2, 3, 4, 5]

  datatype RatingState = RatingState(hovered: Option<int>, selected: Option<int>)

  const InitialRating: RatingState := RatingState(None, None)

  datatype RatingEvent = Click(star: int) | Enter(star: int) | Leave

  /** A click chooses that star; hovering tracks the mouse. */
  function RatingStep(s: RatingState, e: RatingEvent): (r: RatingState)
    ensures e.Click? ==> r.selected == Some(e.star) && r.hovered == s.hovered
    ensures e.Enter? ==> r.hovered == Some(e.star) && r.selected == s.selected
    ensures e.Leave? ==> r.hovered == None && r.selected == s.selected
  {
    match e
    case Click(star) => s.(selected := Some(star))
    case Enter(star) => s.(hovered := Some(star))
    case Leave => s.(hovered := None)
  }

  /** Only the offered stars reach the state. */
  predicate EventFromStars(e: RatingEvent) {
    e.Leave? || e.star in Stars
  }

  predicate InRange(o: Option<int>) {
    o.None? || 1 <= o.value <= StarCount
  }

  /** The hovered and chosen stars stay within 1..5. */
  lemma StepKeepsRange(s: RatingState, e: RatingEvent)
    requires InRange(s.hovered) && InRange(s.selected) && EventFromStars(e)
    ensures var r := RatingStep(s, e); InRange(r.hovered) && InRange(r.selected)
  {
  }

  /** `handleSubmit`: the chosen rating, if any. The button is disabled
      while nothing is chosen. */
  function Submit(s: RatingState): (rated: Option<int>)
    ensures rated.Some? <==> s.selected.Some?
    ensures rated.Some? ==> rated.value == s.selected.value
  {
    if s.selected.Some? then Some(s.selected.value) else None
  }

  function Replay(s: RatingState, events: seq<RatingEvent>): RatingState
    decreases |events|
  {
    if events == [] then s else Replay(RatingStep(s, events[0]), events[1..])
  }

  /** Hovering never changes the chosen star: after a run of events it is the
      star of the last click, or what it was when there was no click. */
  lemma {:induction false} ReplaySelected(s: RatingState, events: seq<RatingEvent>)
    ensures (forall k :: 0 <= k < |events| ==> !events[k].Click?) ==> Replay(s, events).selected == s.selected
    ensures (exists k :: 0 <= k < |events| && events[k].Click?) ==>
              exists k :: 0 <= k < |events| && events[k].Click?
                          && Replay(s, events).selected == Some(events[k].star)
                          && forall j :: k < j < |events| ==> !events[j].Click?
    decreases |events|
  {
    if events != [] {
      var rest := events[1..];
      var s1 := RatingStep(s, events[0]);
      ReplaySelected(s1, rest);
      assert forall k :: 1 <= k < |events| ==> events[k] == rest[k - 1];
      if exists k :: 0 <= k < |rest| && rest[k].Click? {
        var k :| 0 <= k < |rest| && rest[k].Click?
                 && Replay(s1, rest).selected == Some(rest[k].star)
                 && forall j :: k < j < |rest| ==> !rest[j].Click?;
        assert events[k + 1] == rest[k];
      } else if events[0].Click? {
        assert Replay(s, events).selected == Some(events[0].star);
      }
    }
  }

  /** What "Continue" submits after a click and any further events: the
      last click's star. */
  lemma SubmitIsLastClick(s: RatingState, events: seq<RatingEvent>, star: int)
    ensures Submit(Replay(RatingStep(s, Click(star)), events)).Some?
    ensures (forall k :: 0 <= k < |events| ==> !events[k].Click?) ==>
              Submit(Replay(RatingStep(s, Click(star)), events)) == Some(star)
  {
    var s1 := RatingStep(s, Click(star));
    ReplaySelected(s1, events);
    if exists k :: 0 <= k < |events| && events[k].Click? {
      var k :| 0 <= k < |events| && events[k].Click? && Replay(s1, events).selected == Some(events[k].star);
    }
  }

  /** A star shows gold when it is at or below the hovered star or the
      chosen one. */
  predicate Gold(s: RatingState, star: int) {
    (s.hovered.Some? && star <= s.hovered.value) || (s.selected.Some? && star <= s.selected.value)
  }

  /** With nothing hovered, the gold stars are exactly the first `rating`. */
  lemma GoldIsPrefix(s: RatingState)
    requires s.hovered.None? && s.selected.Some? && 1 <= s.selected.value <= StarCount
    ensures forall i :: 0 <= i < |Stars| ==> (Gold(s, Stars[i]) <==> i < s.selected.value)
  {
  }

  /** The message under the stars for a chosen rating. */
  function RatingMessage(rating: int): (m: string)
    ensures m == "" <==> !(1 <= rating <= 5)
  {
    if rating == 1 then "Distracted today - that's okay!"
    else if rating == 2 then "A bit unfocused, but you showed up!"
    else if rating == 3 then "Decent focus, keep building!"
    else if rating == 4 then "Great focus session!"
    else if rating == 5 then "Peak focus achieved! \U{1F525}"
    else ""
  }
}
