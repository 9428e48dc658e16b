/** The mascot helper: a floating button that, after a stretch without
    activity, shows a short prompt, and a panel that pages through six help
    messages in a ring. The idle and prompt timers are events here. */
module Mascot {

  datatype HelpMessage = HelpMessage(id: nat, title: string)

  const HelpMessages: seq<HelpMessage> := [
    HelpMessage(1, "Getting Started"),
    HelpMessage(2, "Track Progress"),
    HelpMessage(3, "Earn XP"),
    HelpMessage(4, "Weekly Goals"),
    HelpMessage(5, "Evolution Path"),
    HelpMessage(6, "Stay Consistent")
  ]

  const MessageCount: nat := |HelpMessages|

  /** `handleNext`. */
  function Next(i: nat): (j: nat)
    requires i < MessageCount
    ensures j < MessageCount
    ensures i + 1 < MessageCount ==> j == i + 1
    ensures i == MessageCount - 1 ==> j == 0
  {
    (i + 1) % MessageCount
  }

  /** `handlePrev`: adding the length before the remainder keeps it
      non-negative. */
  function Prev(i: nat): (j: nat)
    requires i < MessageCount
    ensures j < MessageCount
    ensures i > 0 ==> j == i - 1
    ensures i == 0 ==> j == MessageCount - 1
  {
    (i - 1 + MessageCount) % MessageCount
  }

  /** Previous undoes next and next undoes previous. */
  lemma NextPrevInverse(i: nat)
    requires i < MessageCount
    ensures Prev(Next(i)) == i && Next(Prev(i)) == i
  {
  }

  function NextN(i: nat, n: nat): (j: nat)
    requires i < MessageCount
    ensures j < MessageCount
    decreases n
  {
    if n == 0 then i else NextN(Next(i), n - 1)
  }

  /** Paging forward `n` times lands `n` places on, round the ring. */
  lemma {:induction false} NextNIsRotation(i: nat, n: nat)
    requires i < MessageCount
    ensures NextN(i, n) == (i + n) % MessageCount
    decreases n
  {
    if n > 0 {
      NextNIsRotation(Next(i), n - 1);
      assert Next(i) == (i + 1) % MessageCount;
      assert ((i + 1) % MessageCount + (n - 1)) % MessageCount == (i + n) % MessageCount;
    }
  }

  /** Six steps forward come back to the same message. */
  lemma FullCycle(i: nat)
    requires i < MessageCount
    ensures NextN(i, MessageCount) == i
  {
    NextNIsRotation(i, MessageCount);
  }

  /** The counter reads `index + 1 / 6`: 1 on the first message, 6 on the
      last, never outside that. */
  function Counter(i: nat): (c: (nat, nat))
    requires i < MessageCount
    ensures 1 <= c.0 <= c.1 && c.1 == 6
    ensures c.0 - 1 == i
  {
    (i + 1, MessageCount)
  }

  // ---------------------------------------------------------------------
  // The button, the panel and the idle prompt

  datatype Helper = Helper(isOpen: bool, showPrompt: bool, index: nat)

  const InitialHelper: Helper := Helper(false, false, 0)

  datatype HelperEvent =
    | ButtonClick      // toggles the panel and hides the prompt
    | ClosePanel       // the backdrop or the close button
    | NextClick
    | PrevClick
    | Activity         // mouse, key, touch or scroll: restarts the idle timer
    | IdleElapsed      // thirty seconds without activity
    | PromptElapsed    // five seconds after the prompt appeared

  predicate Valid(h: Helper) {
    h.index < MessageCount
  }

  function HelperStep(h: Helper, e: HelperEvent): (r: Helper)
    requires Valid(h)
    ensures Valid(r)
    ensures e.ButtonClick? ==> r.isOpen == !h.isOpen && !r.showPrompt
    ensures e.ClosePanel? ==> !r.isOpen
    ensures (e.Activity? || e.PromptElapsed?) ==> !r.showPrompt
    ensures e.IdleElapsed? ==> r.showPrompt == (h.showPrompt || !h.isOpen)
    ensures !(e.ButtonClick? || e.ClosePanel?) ==> r.isOpen == h.isOpen
    ensures !(e.NextClick? || e.PrevClick?) ==> r.index == h.index
    ensures e.NextClick? ==> r.index == Next(h.index)
    ensures e.PrevClick? ==> r.index == Prev(h.index)
  {
    match e
    case ButtonClick => h.(isOpen := !h.isOpen, showPrompt := false)
    case ClosePanel => h.(isOpen := false)
    case NextClick => h.(index := Next(h.index))
    case PrevClick => h.(index := Prev(h.index))
    case Activity => h.(showPrompt := false)
    case IdleElapsed => if !h.isOpen then h.(showPrompt := true) else h
    case PromptElapsed => h.(showPrompt := false)
  }

  /** The prompt bubble is drawn only while the panel is closed. */
  function PromptVisible(h: Helper): (b: bool)
    ensures b ==> !h.isOpen
    ensures !h.showPrompt ==> !b
  {
    h.showPrompt && !h.isOpen
  }

  function Replay(h: Helper, events: seq<HelperEvent>): (r: Helper)
    requires Valid(h)
    ensures Valid(r)
    decreases |events|
  {
    if events == [] then h else Replay(HelperStep(h, events[0]), events[1..])
  }

  /** Closing the panel keeps the message the reader had reached, so
      reopening it continues there. */
  lemma ReopenKeepsPlace(h: Helper)
    requires Valid(h) && h.isOpen
    ensures Replay(h, [ButtonClick, ButtonClick]).index == h.index
    ensures Replay(h, [ButtonClick, ButtonClick]).isOpen
  {
    assert Replay(h, [ButtonClick, ButtonClick]) == HelperStep(HelperStep(h, ButtonClick), ButtonClick);
  }

  /** The prompt appears only after an idle stretch with the panel closed:
      from a state without it, any run without `IdleElapsed` keeps it
      hidden. */
  lemma {:induction false} PromptNeedsIdle(h: Helper, events: seq<HelperEvent>)
    requires Valid(h) && !h.showPrompt
    requires forall k :: 0 <= k < |events| ==> !events[k].IdleElapsed?
    ensures !Replay(h, events).showPrompt
    decreases |events|
  {
    if events != [] {
      PromptNeedsIdle(HelperStep(h, events[0]), events[1..]);
    }
  }
}
