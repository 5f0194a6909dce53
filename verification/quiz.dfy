/**
 The dispatch logic of the quiz component (src/components/quiz/Quiz.tsx): the
 slide predicates, the button handlers that drive the provider, and the
 progress indicator.

 The component reads `currentQuestion.id` on every render. Past the last slide
 `currentQuestion` itself is `undefined`, and reading its `id` throws, so the
 component only works on a state whose index names a slide; every handler here
 that reads the index therefore requires `OnSlide` (closing a modal does not).
 Slide `i` has id `String(i)`, and the component compares ids as strings,
 which `Decimal.Show` models.
 */
module QuizView {
  import Decimal
  import opened Provider

  /** The number of slides, `quizData.length`; the quiz has at least one. */
  type SlideCount = n: nat | 1 <= n witness 1

  /** The provider's state together with the component's own `isRateModal`. */
  datatype Screen = Screen(quiz: State, isRateModal: bool)

  /** The current index names one of the `n` slides. */
  predicate OnSlide(n: SlideCount, sc: Screen)
  {
    sc.quiz.index < n
  }

  /** `isFinal`: the current id equals `(quizData.length - 1).toString()`. */
  predicate IsFinal(n: SlideCount, sc: Screen)
  {
    Decimal.Show(sc.quiz.index) == Decimal.Show(n - 1)
  }

  /** `isFirstSlide`: the current id equals `'0'`. */
  predicate IsFirstSlide(sc: Screen)
  {
    Decimal.Show(sc.quiz.index) == "0"
  }

  /** The id comparisons are index comparisons. */
  lemma SlidePredicates(n: SlideCount, sc: Screen)
    ensures IsFinal(n, sc) <==> sc.quiz.index == n - 1
    ensures IsFirstSlide(sc) <==> sc.quiz.index == 0
  {
    Decimal.ShowInjective(sc.quiz.index, n - 1);
    Decimal.ShowInjective(sc.quiz.index, 0);
    Decimal.ShowZero();
  }

  /** `handleNext`: on the final slide, restart and clear `isBeenRated`;
      anywhere else, advance one slide. Either way the index stays on a slide,
      which the provider's unchecked increment relies on. */
  function HandleNext(n: SlideCount, sc: Screen): (r: Screen)
    requires OnSlide(n, sc)
    ensures OnSlide(n, r)
    ensures sc.quiz.index == n - 1 ==>
      r.quiz.index == 0 && !r.quiz.isBeenRated && r.quiz.isStartModal &&
      !r.quiz.isWrongTheme && !r.quiz.isRightTheme
    ensures sc.quiz.index < n - 1 ==>
      r.quiz == NextQuestion(sc.quiz) && r.quiz.index == sc.quiz.index + 1
    ensures r.quiz.calculation == sc.quiz.calculation
    ensures r.isRateModal == sc.isRateModal
  {
    SlidePredicates(n, sc);
    if IsFinal(n, sc) then
      sc.(quiz := StartFromTheBeginning(sc.quiz).(isBeenRated := false))
    else
      sc.(quiz := NextQuestion(sc.quiz))
  }

  /** `buttonOnClick`: once rated, always `handleNext`; otherwise the final
      slide only opens the rate modal, and every other slide goes `handleNext`. */
  function ButtonOnClick(n: SlideCount, sc: Screen): (r: Screen)
    requires OnSlide(n, sc)
    ensures OnSlide(n, r)
    ensures sc.quiz.isBeenRated ==> r == HandleNext(n, sc)
    ensures !sc.quiz.isBeenRated && sc.quiz.index == n - 1 ==>
      r.quiz == sc.quiz && r.isRateModal
    ensures sc.quiz.index != n - 1 ==> r == HandleNext(n, sc)
  {
    SlidePredicates(n, sc);
    if sc.quiz.isBeenRated then HandleNext(n, sc)
    else if IsFinal(n, sc) then sc.(isRateModal := true)
    else HandleNext(n, sc)
  }

  /** `handlePreviousQuestion`: nothing on slide `'0'`, otherwise the
      provider's `handlePrevious`, which then always steps back. */
  function HandlePreviousQuestion(n: SlideCount, sc: Screen): (r: Screen)
    requires OnSlide(n, sc)
    ensures OnSlide(n, r)
    ensures sc.quiz.index == 0 ==> r == sc
    ensures sc.quiz.index > 0 ==>
      r.quiz == Previous(sc.quiz) && r.quiz.index == sc.quiz.index - 1 &&
      r.isRateModal == sc.isRateModal
  {
    SlidePredicates(n, sc);
    if IsFirstSlide(sc) then sc else sc.(quiz := Previous(sc.quiz))
  }

  /** `handleGetResult`, the button shown on the first slide: `buttonOnClick`
      followed by analytics calls, which leave the state alone. On the first
      slide of a quiz with more than one slide it always advances to slide 1. */
  function HandleGetResult(n: SlideCount, sc: Screen): (r: Screen)
    requires OnSlide(n, sc)
    ensures r == ButtonOnClick(n, sc)
    ensures sc.quiz.index == 0 && 1 < n ==>
      r.quiz == NextQuestion(sc.quiz) && r.quiz.index == 1
  {
    ButtonOnClick(n, sc)
  }

  /** `handleGetResult` as the program runs it: it is memoised over
      `[calculation]`, so the `buttonOnClick` it calls sees `isBeenRated` and
      `isFinal` as they were at `captured`, the last render in which the
      calculation changed. The provider calls inside read the current index. */
  function HandleGetResultAsCaptured(n: SlideCount, captured: Screen, sc: Screen): (r: Screen)
    requires OnSlide(n, captured) && OnSlide(n, sc)
    ensures captured.quiz.index == sc.quiz.index && captured.quiz.isBeenRated == sc.quiz.isBeenRated ==>
      r == HandleGetResult(n, sc)
    ensures captured.quiz.index == 0 && sc.quiz.index == 0 && 1 < n ==>
      r == HandleGetResult(n, sc)
    ensures !captured.quiz.isBeenRated && captured.quiz.index == n - 1 ==>
      r == sc.(isRateModal := true)
    ensures captured.quiz.isBeenRated && captured.quiz.index == n - 1 ==>
      r == sc.(quiz := StartFromTheBeginning(sc.quiz).(isBeenRated := false))
    ensures captured.quiz.index != n - 1 ==> r == sc.(quiz := NextQuestion(sc.quiz))
    ensures captured.quiz.index == 0 && sc.quiz.index == 0 ==> OnSlide(n, r)
  {
    SlidePredicates(n, captured);
    var wasFinal := IsFinal(n, captured);
    if !captured.quiz.isBeenRated && wasFinal then sc.(isRateModal := true)
    else if wasFinal then sc.(quiz := StartFromTheBeginning(sc.quiz).(isBeenRated := false))
    else sc.(quiz := NextQuestion(sc.quiz))
  }

  /** With a single slide the memoised handler and the current-state one part
      ways: rated since the last calculation change, a press only reopens the
      rate modal where the current-state handler restarts. */
  lemma GetResultStaleOnSingleSlide(captured: Screen, sc: Screen)
    requires captured.quiz.index == 0 && !captured.quiz.isBeenRated
    requires sc.quiz.index == 0 && sc.quiz.isBeenRated && !sc.quiz.isStartModal
    ensures HandleGetResultAsCaptured(1, captured, sc).quiz == sc.quiz
    ensures HandleGetResult(1, sc).quiz.isStartModal && !HandleGetResult(1, sc).quiz.isBeenRated
  {
  }

  /** The other direction: rated at the last calculation change but unrated
      now, a press restarts where the current-state handler only reopens the
      rate modal. */
  lemma GetResultStaleRatedOnSingleSlide(captured: Screen, sc: Screen)
    requires captured.quiz.index == 0 && captured.quiz.isBeenRated
    requires sc.quiz.index == 0 && !sc.quiz.isBeenRated && !sc.quiz.isStartModal
    ensures HandleGetResultAsCaptured(1, captured, sc).quiz.isStartModal
    ensures HandleGetResult(1, sc).quiz == sc.quiz && HandleGetResult(1, sc).isRateModal
  {
  }

  /** `handleCloseRateModal`, with its 500 ms delay collapsed: the rate modal
      closes and the quiz state is untouched (the button caption it also sets
      is presentation). */
  function HandleCloseRateModal(sc: Screen): (r: Screen)
    ensures !r.isRateModal
    ensures r.quiz == sc.quiz
  {
    sc.(isRateModal := false)
  }

  /** `handleCloseModal`: hide the start modal (after an analytics call). */
  function HandleCloseModal(sc: Screen): (r: Screen)
    ensures !r.quiz.isStartModal
    ensures r.quiz.(isStartModal := sc.quiz.isStartModal) == sc.quiz
    ensures r.isRateModal == sc.isRateModal
  {
    sc.(quiz := sc.quiz.(isStartModal := false))
  }

  /** The progress indicator: one point per slide, for the ids `String(i)`,
      marked active when it equals the current id. */
  function ProgressPoints(n: SlideCount, sc: Screen): (points: seq<bool>)
    ensures |points| == n
    ensures forall i :: 0 <= i < n ==> (points[i] <==> i == sc.quiz.index)
  {
    var points := seq(n, i requires 0 <= i => Decimal.Show(i) == Decimal.Show(sc.quiz.index));
    forall i | 0 <= i < n
      ensures points[i] <==> i == sc.quiz.index
    {
      Decimal.ShowInjective(i, sc.quiz.index);
    }
    points
  }
}
