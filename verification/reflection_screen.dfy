/** The reflection form: three free-text answers, saved only when one of
    them holds something other than whitespace, or skipped. */
module ReflectionForm {
  import opened Common
  import opened GameTypes

  datatype Field = Understood | Important | Remember

  const EmptyReflection: Reflection := Reflection("", "", "")

  function Get(r: Reflection, f: Field): string {
    match f
    case Understood => r.understood
    case Important => r.important
    case Remember => r.remember
  }

  /** `handleChange(key, value)`: the named answer becomes `value`, the other
      two keep theirs. */
  function HandleChange(r: Reflection, f: Field, value: string): (r': Reflection)
    ensures Get(r', f) == value
    ensures forall g :: g != f ==> Get(r', g) == Get(r, g)
  {
    match f
    case Understood => r.(understood := value)
    case Important => r.(important := value)
    case Remember => r.(remember := value)
  }

  /** A reflection is determined by its three answers. */
  lemma Extensional(a: Reflection, b: Reflection)
    requires forall g :: Get(a, g) == Get(b, g)
    ensures a == b
  {
    assert Get(a, Understood) == Get(b, Understood);
    assert Get(a, Important) == Get(b, Important);
    assert Get(a, Remember) == Get(b, Remember);
  }

  /** Writing back what a field already holds changes nothing, and the last
      of two writes to one field wins. */
  lemma HandleChangeLaws(r: Reflection, f: Field, v: string, w: string)
    ensures HandleChange(r, f, Get(r, f)) == r
    ensures HandleChange(HandleChange(r, f, v), f, w) == HandleChange(r, f, w)
  {
    Extensional(HandleChange(r, f, Get(r, f)), r);
    Extensional(HandleChange(HandleChange(r, f, v), f, w), HandleChange(r, f, w));
  }

  /** Writes to different fields commute. */
  lemma HandleChangeCommutes(r: Reflection, f: Field, g: Field, v: string, w: string)
    requires f != g
    ensures HandleChange(HandleChange(r, f, v), g, w) == HandleChange(HandleChange(r, g, w), f, v)
  {
    Extensional(HandleChange(HandleChange(r, f, v), g, w), HandleChange(HandleChange(r, g, w), f, v));
  }

  /** `hasContent`: some answer trims to a non-empty string. */
  predicate AnyContent(r: Reflection) {
    Trim(r.understood) != [] || Trim(r.important) != [] || Trim(r.remember) != []
  }

  /** The save button: `onComplete` receives the answers exactly as typed,
      untrimmed, and only when some answer has content. */
  function Save(r: Reflection): (out: Option<Reflection>)
    ensures out.Some? <==> HasContent(r.understood) || HasContent(r.important) || HasContent(r.remember)
    ensures out.Some? ==> out.value == r
  {
    TrimEmptyIff(r.understood);
    TrimEmptyIff(r.important);
    TrimEmptyIff(r.remember);
    if AnyContent(r) then Some(r) else None
  }

  /** The form opens empty, so an untouched form cannot be saved; a single
      answer with content is enough to enable saving. */
  lemma SaveNeedsAnAnswer(f: Field, value: string)
    ensures Save(EmptyReflection).None?
    ensures Save(HandleChange(EmptyReflection, f, value)).Some? <==> HasContent(value)
  {
    assert !HasContent("");
  }

  /** Whitespace-only answers are no answer at all. */
  lemma WhitespaceIsNoContent(r: Reflection)
    requires AllWhitespace(r.understood) && AllWhitespace(r.important) && AllWhitespace(r.remember)
    ensures Save(r).None?
  {
    NoContentIfAllWhitespace(r.understood);
    NoContentIfAllWhitespace(r.important);
    NoContentIfAllWhitespace(r.remember);
  }

  lemma NoContentIfAllWhitespace(s: string)
    requires AllWhitespace(s)
    ensures !HasContent(s)
  {
  }
}
