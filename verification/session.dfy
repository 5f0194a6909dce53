/**
 Whole sessions: the quiz component and the provider driven together by a
 sequence of user actions, and the invariants that hold along every such
 sequence. The index bound holds only because the component chooses between
 restart and advance; the provider alone would run past the last slide.
 */
module Session {
  import opened Provider
  import opened QuizView

  /** The calls that can change the state: the quiz component's handlers and
      what the provider's context exposes. Every action is allowed on every
      slide, whether or not its button is rendered there, which
      over-approximates what the user can do. A direct call of
      `handleNextQuestion` is deliberately absent: it would leave the slides
      from the final one (`UnguardedNextLeavesSlides`). */
  datatype Action =
    | Next                          // `handleNext`, behind the "next" button
    | Back                          // the "back" button, `handlePreviousQuestion`
    | FinalButton                   // the final slide's button, `buttonOnClick`
    | GetResult                     // the first slide's button, `handleGetResult`
    | CloseStartModal               // `handleCloseModal`
    | CloseRateModal                // `handleCloseRateModal`, once its timer fires
    | ProviderPrevious              // `handlePrevious`, called directly through the context
    | ProviderRestart               // `startFromTheBeginning`, called directly through the context
    | Edit(name: string, value: Num) // a calculator input, `setCalculationByName`
    | Rate(rated: bool)             // `setIsBeenRated`, exposed through the context
    | StartModal(shown: bool)       // `setIsStartModal`, exposed through the context
    | WrongTheme(on: bool)          // `setIsWrongTheme`, exposed through the context
    | RightTheme(on: bool)          // `setIsRightTheme`, exposed through the context

  /** The invariant of every reachable screen: the index names a slide, the
      four calculator inputs are present, and `total`, when present, is the
      formula's value. */
  predicate Valid(n: SlideCount, sc: Screen)
  {
    OnSlide(n, sc) && HasInputs(sc.quiz.calculation) && TotalTracksInputs(sc.quiz.calculation)
  }

  /** The screen as the component first renders it. */
  function Start(): (sc: Screen)
    ensures sc.quiz == Init() && !sc.isRateModal
    ensures forall n: SlideCount :: Valid(n, sc)
  {
    Screen(Init(), false)
  }

  /** One action. */
  function Apply(n: SlideCount, sc: Screen, a: Action): (r: Screen)
    requires Valid(n, sc)
    ensures Valid(n, r)
    ensures !a.Edit? && !((a.Back? || a.ProviderPrevious?) && sc.quiz.index == 1) ==>
      r.quiz.calculation == sc.quiz.calculation
  {
    match a
    case Next => HandleNext(n, sc)
    case Back => HandlePreviousQuestion(n, sc)
    case FinalButton => ButtonOnClick(n, sc)
    case GetResult => HandleGetResult(n, sc)
    case CloseStartModal => HandleCloseModal(sc)
    case CloseRateModal => HandleCloseRateModal(sc)
    case ProviderPrevious => sc.(quiz := Previous(sc.quiz))
    case ProviderRestart => sc.(quiz := StartFromTheBeginning(sc.quiz))
    case Edit(name, value) => sc.(quiz := SetCalculationByName(sc.quiz, name, value))
    case Rate(rated) => sc.(quiz := sc.quiz.(isBeenRated := rated))
    case StartModal(shown) => sc.(quiz := sc.quiz.(isStartModal := shown))
    case WrongTheme(on) => sc.(quiz := sc.quiz.(isWrongTheme := on))
    case RightTheme(on) => sc.(quiz := sc.quiz.(isRightTheme := on))
  }

  /** A sequence of actions, applied left to right. Every screen it passes
      through is valid. */
  function Run(n: SlideCount, sc: Screen, actions: seq<Action>): (r: Screen)
    requires Valid(n, sc)
    ensures Valid(n, r)
    decreases |actions|
  {
    if |actions| == 0 then sc else Run(n, Apply(n, sc, actions[0]), actions[1..])
  }

  /** Only editing and stepping back onto slide 0 touch the calculation:
      navigation, restarts included, leaves it as it was. */
  lemma {:induction false} NavigationKeepsCalculation(n: SlideCount, sc: Screen, actions: seq<Action>)
    requires Valid(n, sc)
    requires forall i :: 0 <= i < |actions| ==> actions[i] == Next || actions[i] == FinalButton || actions[i] == GetResult
    ensures Run(n, sc, actions).quiz.calculation == sc.quiz.calculation
    decreases |actions|
  {
    if |actions| > 0 {
      NavigationKeepsCalculation(n, Apply(n, sc, actions[0]), actions[1..]);
    }
  }

  /** `handleNext` called `k` times. It never touches the calculation, not
      even on a restart. */
  function Advance(n: SlideCount, sc: Screen, k: nat): (r: Screen)
    requires OnSlide(n, sc)
    ensures OnSlide(n, r)
    ensures r.quiz.calculation == sc.quiz.calculation
    decreases k
  {
    if k == 0 then sc else HandleNext(n, Advance(n, sc, k - 1))
  }

  /** Short of the last slide, each call of `handleNext` moves exactly one slide on. */
  lemma {:induction false} AdvanceCounts(n: SlideCount, sc: Screen, k: nat)
    requires OnSlide(n, sc)
    requires sc.quiz.index + k <= n - 1
    ensures Advance(n, sc, k).quiz.index == sc.quiz.index + k
    decreases k
  {
    if k > 0 {
      AdvanceCounts(n, sc, k - 1);
    }
  }

  /** From the first slide, `n - 1` calls of `handleNext` reach the final
      slide, and one more call restarts at slide 0 with `isBeenRated` cleared
      and the calculation kept. (In the program that last call comes through
      the final slide's button once the quiz is rated.) */
  lemma FullCycle(n: SlideCount, sc: Screen)
    requires OnSlide(n, sc) && sc.quiz.index == 0
    ensures IsFinal(n, Advance(n, sc, n - 1))
    ensures Advance(n, sc, n).quiz.index == 0
    ensures !Advance(n, sc, n).quiz.isBeenRated
    ensures Advance(n, sc, n).quiz.calculation == sc.quiz.calculation
  {
    AdvanceCounts(n, sc, n - 1);
    SlidePredicates(n, Advance(n, sc, n - 1));
    assert Advance(n, sc, n) == HandleNext(n, Advance(n, sc, n - 1));
  }

  /** The provider's own step forward, without the component's guard, leaves
      the slides from the final one: the bound is the caller's doing. */
  lemma UnguardedNextLeavesSlides(n: SlideCount, sc: Screen)
    requires sc.quiz.index == n - 1
    ensures !OnSlide(n, sc.(quiz := NextQuestion(sc.quiz)))
    ensures OnSlide(n, HandleNext(n, sc))
  {
  }
}
