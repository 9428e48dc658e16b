/** The book picker: one card per book with the selected one highlighted, a
    small form for a custom title, and the start button that appears once a
    book is chosen. Adding a custom book goes through the game state's
    `addCustomBook`; `now` stands for `Date.now()`. */
module BookSelectionForm {
  import opened Common
  import opened GameTypes
  import opened Progression

  /** The form's local state: whether the title input is open, and its text. */
  datatype Form = Form(showCustomInput: bool, customTitle: string)

  const InitialForm: Form := Form(false, "")

  /** What the picker and its parent hold together. */
  datatype Picker = Picker(game: GameState, selectedBook: Option<Book>, form: Form)

  /** "Add Custom Book" opens the input and leaves the text as it is. */
  function OpenCustomInput(p: Picker): (r: Picker)
    ensures r.form.showCustomInput && r.form.customTitle == p.form.customTitle
    ensures r.game == p.game && r.selectedBook == p.selectedBook
  {
    p.(form := p.form.(showCustomInput := true))
  }

  /** Typing replaces the text and nothing else. */
  function TypeTitle(p: Picker, text: string): (r: Picker)
    ensures r.form.customTitle == text && r.form.showCustomInput == p.form.showCustomInput
    ensures r.game == p.game && r.selectedBook == p.selectedBook
  {
    p.(form := p.form.(customTitle := text))
  }

  /** The "Add Book" button is enabled exactly when the text trims to
      something; Enter runs the same handler. */
  predicate AddEnabled(f: Form) {
    Trim(f.customTitle) != []
  }

  /** `handleAddCustomBook`: a title that trims to something is added in its
      trimmed form, the new book becomes the selection and the form closes
      empty; a blank title changes nothing. */
  function HandleAddCustomBook(p: Picker, now: nat): (r: Picker)
    ensures HasContent(p.form.customTitle) ==>
              && |r.game.stats.books| == |p.game.stats.books| + 1
              && r.game.stats.books[..|p.game.stats.books|] == p.game.stats.books
              && r.selectedBook == Some(r.game.stats.books[|p.game.stats.books|])
              && r.selectedBook.value.title == Trim(p.form.customTitle)
              && r.selectedBook.value.progress == 0 && r.selectedBook.value.sessionsCompleted == 0
              && r.form == InitialForm
    ensures !HasContent(p.form.customTitle) ==> r == p
  {
    var title := Trim(p.form.customTitle);
    TrimEmptyIff(p.form.customTitle);
    if title != [] then
      var (game, book) := AddCustomBook(p.game, title, now);
      assert game.stats.books[..|p.game.stats.books|] == p.game.stats.books;
      Picker(game, Some(book), InitialForm)
    else p
  }

  /** A custom book's title is never blank and carries no outer
      whitespace, whatever was typed. */
  lemma CustomTitleIsClean(p: Picker, now: nat)
    requires HasContent(p.form.customTitle)
    ensures var t := HandleAddCustomBook(p, now).selectedBook.value.title;
            t != [] && Trim(t) == t && !IsWhitespace(t[0]) && !IsWhitespace(t[|t| - 1])
  {
    TrimEmptyIff(p.form.customTitle);
    TrimIdempotent(p.form.customTitle);
  }

  /** The button's guard and the handler's guard agree, so the button never
      fires a no-op and Enter on a blank title does nothing. */
  lemma AddEnabledIffAdds(p: Picker, now: nat)
    ensures AddEnabled(p.form) <==> HandleAddCustomBook(p, now) != p
  {
    TrimEmptyIff(p.form.customTitle);
    if AddEnabled(p.form) {
      assert |HandleAddCustomBook(p, now).game.stats.books| != |p.game.stats.books|;
    }
  }

  /** Cancel closes the input and clears the text. */
  function Cancel(p: Picker): (r: Picker)
    ensures r.form == InitialForm && r.game == p.game && r.selectedBook == p.selectedBook
  {
    p.(form := Form(false, ""))
  }

  /** Reopening after a cancel or an add shows an empty input. */
  lemma ReopenIsEmpty(p: Picker, now: nat)
    ensures OpenCustomInput(Cancel(p)).form == Form(true, "")
    ensures HasContent(p.form.customTitle) ==> OpenCustomInput(HandleAddCustomBook(p, now)).form == Form(true, "")
  {
  }

  /** Clicking a card selects that book. */
  function SelectBook(p: Picker, b: Book): (r: Picker)
    ensures r.selectedBook == Some(b) && r.game == p.game && r.form == p.form
  {
    p.(selectedBook := Some(b))
  }

  /** A card is highlighted when its id is the selected book's id. */
  predicate Highlighted(selected: Option<Book>, b: Book) {
    selected.Some? && selected.value.id == b.id
  }

  /** With distinct ids, selecting a listed book highlights its card and no
      other. */
  lemma SelectHighlightsOne(p: Picker, k: nat)
    requires k < |p.game.stats.books|
    requires forall i, j :: 0 <= i < j < |p.game.stats.books| ==> p.game.stats.books[i].id != p.game.stats.books[j].id
    ensures var books := p.game.stats.books;
            var sel := SelectBook(p, books[k]).selectedBook;
            forall i :: 0 <= i < |books| ==> (Highlighted(sel, books[i]) <==> i == k)
  {
  }

  /** The start button is shown once some book is selected. */
  predicate ShowStartButton(p: Picker) {
    p.selectedBook.Some?
  }

  /** After an add the start button is always shown. */
  lemma AddShowsStart(p: Picker, now: nat)
    requires HasContent(p.form.customTitle)
    ensures ShowStartButton(HandleAddCustomBook(p, now))
  {
  }

  /** The card's mastery badge `Lv.{Math.floor(progress / 20) + 1}`, shown
      only for progress above zero: the badge is the band of twenty the
      progress falls in, counted from one. */
  function MasteryBadge(progress: int): (lv: Option<int>)
    ensures lv.Some? <==> progress > 0
    ensures lv.Some? ==> (lv.value - 1) * 20 <= progress < lv.value * 20
  {
    if progress > 0 then Some(progress / 20 + 1) else None
  }

  /** For progress within 1..100 the badge reads 1..6, and 6 only at 100. */
  lemma MasteryBadgeRange(progress: int)
    requires 0 < progress <= 100
    ensures 1 <= MasteryBadge(progress).value <= 6
    ensures MasteryBadge(progress).value == 6 <==> progress == 100
  {
  }

  /** More progress never shows a lower badge. */
  lemma MasteryBadgeMonotone(a: int, b: int)
    requires 0 < a <= b
    ensures MasteryBadge(a).value <= MasteryBadge(b).value
  {
  }
}
