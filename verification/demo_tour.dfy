/** The walkthrough of `components/DemoTourModal.tsx`: a fixed list of five
    slides, a current position, and Next/Back/Close buttons. Closing
    rewinds to the first slide and tells the parent, which hides the modal. */
module DemoTour {
  /** The slide titles, in order; the descriptions only decorate them. */
  const Titles: seq<string> := [
    "Welcome to TourFlow!",
    "Create Interactive Tours",
    "Progress Tracking",
    "Customizable Design",
    "You're All Set!"]

  /** `tourSteps.length`. */
  const Length: nat := 5

  /** The position as the component holds it, and whether `onClose` has
      been called. */
  datatype Demo = Demo(current: int, closed: bool)

  const Start := Demo(0, false)

  /** The position always names a slide. */
  predicate Valid(d: Demo) {
    0 <= d.current < Length
  }

  /** `handleClose`: back to the first slide; the parent is told. */
  function Close(d: Demo): (r: Demo)
    ensures r.current == 0 && r.closed
    ensures Valid(r)
  {
    Demo(0, true)
  }

  /** `handleNext`: one slide on, or close from the last one. */
  function Next(d: Demo): (r: Demo)
    ensures d.current < Length - 1 ==> r == d.(current := d.current + 1)
    ensures d.current >= Length - 1 ==> r == Close(d)
    ensures Valid(d) ==> Valid(r)
  {
    if d.current < Length - 1 then d.(current := d.current + 1) else Close(d)
  }

  /** `handleBack`: one slide back, never before the first. */
  function Back(d: Demo): (r: Demo)
    ensures d.current > 0 ==> r == d.(current := d.current - 1)
    ensures d.current <= 0 ==> r == d
    ensures Valid(d) ==> Valid(r)
  {
    if d.current > 0 then d.(current := d.current - 1) else d
  }

  /** Back undoes a Next that did not close. */
  lemma BackUndoesNext(d: Demo)
    requires Valid(d) && d.current < Length - 1
    ensures Back(Next(d)) == d
  {
  }

  /** Next undoes a Back that moved. */
  lemma NextUndoesBack(d: Demo)
    requires Valid(d) && d.current > 0
    ensures Next(Back(d)) == d
  {
  }

  /** `n` presses of Next. */
  function Press(d: Demo, n: nat): Demo
    decreases n
  {
    if n == 0 then d else Press(Next(d), n - 1)
  }

  /** From any slide, Next presses walk forward one slide each without
      closing up to the last slide, and one more press closes. */
  lemma {:induction false} WalkThrough(d: Demo, n: nat)
    requires Valid(d) && !d.closed && d.current + n <= Length - 1
    ensures Press(d, n) == Demo(d.current + n, false)
    ensures Next(Press(d, n)) == (if d.current + n == Length - 1 then Demo(0, true) else Demo(d.current + n + 1, false))
    decreases n
  {
    if n > 0 {
      WalkThrough(Next(d), n - 1);
    }
  }

  /** The title on screen: `tourSteps[currentStep].title`. */
  function Title(d: Demo): (t: string)
    requires Valid(d)
    ensures t == Titles[d.current]
    ensures d.current == Length - 1 ==> t == "You're All Set!"
  {
    Titles[d.current]
  }

  /** No two slides share a title, so the title on screen tells which slide
      is showing. */
  lemma TitlesIdentifySlides(a: Demo, b: Demo)
    requires Valid(a) && Valid(b) && Title(a) == Title(b)
    ensures a.current == b.current
  {
  }

  /** `((currentStep + 1) / tourSteps.length) * 100`. */
  function Progress(d: Demo): (p: real)
    requires Valid(d)
    ensures 0.0 < p <= 100.0
    ensures p == 100.0 <==> d.current == Length - 1
  {
    (d.current + 1) as real / Length as real * 100.0
  }

  /** Progress grows with every Next that does not close. */
  lemma ProgressIncreases(d: Demo)
    requires Valid(d) && d.current < Length - 1
    ensures Progress(Next(d)) == Progress(d) + 20.0
  {
  }

  /** The forward button reads "Finish" on the last slide and "Next" before. */
  function NextLabel(d: Demo): (s: string)
    ensures s == "Finish" <==> d.current == Length - 1
    ensures s != "Finish" ==> s == "Next"
  {
    if d.current == Length - 1 then "Finish" else "Next"
  }

  /** The Back button is disabled exactly on the first slide. */
  function BackDisabled(d: Demo): (b: bool)
    ensures b <==> d.current == 0
    ensures Valid(d) && b ==> Back(d) == d
  {
    d.current == 0
  }
}
