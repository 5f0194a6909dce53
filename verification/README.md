# Quiz session state machine

A Dafny model of the state machine behind the smoking-cost quiz widget. It covers
two pieces.

- **The quiz provider** (`src/containers/QuizProvider.tsx`). It holds the slide
  index, the calculator's string-keyed map of numbers (`calculation`) and the
  flags `isWrongTheme`, `isRightTheme`, `isBeenRated` and `isStartModal`. It
  exposes `handleNextQuestion`, `handlePrevious`, `startFromTheBeginning` and
  `setCalculationByName`.
- **The quiz component** (`src/components/quiz/Quiz.tsx`). It drives the
  provider. It defines `isFinal` and `isFirstSlide`, and the handlers
  `handleNext`, `buttonOnClick`, `handlePreviousQuestion`, `handleGetResult`
  and `handleCloseModal`. It also renders the progress-indicator points.

The number of slides `N = quizData.length` is a parameter with `N >= 1`. Slide
`i` has id `String(i)`. The component compares ids as strings, so `isFinal` and
`isFirstSlide` are modelled as comparisons of decimal strings (`Decimal.Show`),
and the model then proves them equal to index comparisons. The provider keeps
the index twice, in a ref and as the current question object. The model
collapses both into one `index: nat`.

A JavaScript number is `Provider.Num`: either `Finite(real)` or `NaN`. The total
formula reads four keys. A missing key reads as `undefined`, and `undefined` in
a product is `NaN`. The model therefore handles maps that lack the inputs,
instead of requiring them.

Modules:

- `Decimal` (decimal.dfy) models `String(i)`.
- `Provider` (provider.dfy) models the provider's state and transitions.
- `QuizView` (quiz.dfy) models the component's handlers.
- `Session` (session.dfy) runs sequences of user actions and states the
  invariants that hold along them.

Behaviours a reader might not expect, which the model follows:

- `setCalculationByName` accepts any name. An unknown name is stored rather than
  rejected.
- `initialCalc` has no `total` key.
- Its `default` is `119 * 0.5 * 30 + 1 * 25 = 1810`. The formula on the same
  inputs gives 1823, because the `lighter` field holds 38, not 25.
- Restarting from the final slide keeps the calculation. Only stepping back from
  slide 1 to slide 0 restores `initialCalc`.

## Model

| member | source | states |
|---|---|---|
| Decimal.Show | src/components/quiz/Quiz.tsx:168 | The id `String(i)` is a non-empty string of decimal digits. It has a single digit exactly when `i < 10`, its last digit is `i % 10`, and it starts with `0` only for `i = 0`, so there are no leading zeros. |
| Decimal.ValueOfShow | src/components/quiz/Quiz.tsx:168 | Reading the digits of `String(i)` back gives `i`, so the rendering loses nothing. |
| Decimal.ShowInjective | src/components/quiz/Quiz.tsx:87-88 | Two slide ids are equal as strings exactly when their indices are equal. |
| Provider.TotalOfValue | src/containers/QuizProvider.tsx:145-147 | The total is finite exactly when all four inputs are present and finite. It then equals `cigarette * cigarettePacksInDay * 30 + lightersMonthly * lighter`. |
| Provider.TotalOfIgnoresOtherKeys | src/containers/QuizProvider.tsx:145-147 | The total formula reads only its four inputs. Writing `total`, `default` or any unknown key does not change it. |
| Provider.SetByName | src/containers/QuizProvider.tsx:136-149 | Any name is accepted. The keys grow by exactly that name and `total`. The name maps to the value unless it is `total`. Every other key keeps its value. `total` equals the formula on the result's own inputs. The four inputs stay present. |
| Provider.SetByNameIdempotent | src/containers/QuizProvider.tsx:136-149 | Applying the same `(name, value)` twice gives the same map as applying it once. This includes the name `total`. |
| Provider.SetByNameTwice | src/containers/QuizProvider.tsx:136-149 | Every edit recomputes `total`, so a second edit, of any name, discards the `total` written by the first edit. The result equals the second edit applied to the first edit's raw write. |
| Provider.SetTotalIgnoresValue | src/containers/QuizProvider.tsx:136-149 | An edit of the name `total` loses the written value: the result is the map with `total` set to the formula. |
| Provider.SetInputsCommute | src/containers/QuizProvider.tsx:136-149 | For two different names other than `total`, editing the raw write of one with the other gives the same map in either order. |
| Provider.SetTotalCommutes | src/containers/QuizProvider.tsx:136-149 | For any name other than `total`, editing the raw write of `total` with that name gives the same map as editing the raw write of that name with `total`. |
| Provider.SetByNameCommutes | src/containers/QuizProvider.tsx:136-149 | Edits of two different names give the same map in either order, `total` included. |
| Provider.SetByNameExamples | src/containers/QuizProvider.tsx:136-149 | From `initialCalc`, one pack a day totals 3608 and leaves `cigarette` and `lighter` alone. On an empty map the total is NaN. An unknown name `bogus` is stored, and the total stays 1823. |
| Provider.Init | src/containers/QuizProvider.tsx:74-92 | The initial index is 0. `calculation` equals `initialCalc`: exactly the keys `cigarette` = 119, `cigarettePacksInDay` = 0.5, `lightersMonthly` = 1, `lighter` = 38 and `default` = 1810, with no `total`. Both theme flags and `isBeenRated` are false. The start modal is shown. |
| Provider.DefaultIsNotInitialTotal | src/containers/QuizProvider.tsx:74-80 | The formula on the initial inputs gives 1823, which differs from the stored `default`. |
| Provider.NextQuestion | src/containers/QuizProvider.tsx:105-110 | The index goes up by exactly one, with no bound. Both theme flags are cleared. `calculation`, `isBeenRated` and `isStartModal` are unchanged. |
| Provider.Previous | src/containers/QuizProvider.tsx:112-123 | At index 0 the state is unchanged. At `k > 0` the index becomes `k - 1` and both theme flags are cleared. From `k = 1`, `calculation` becomes `initialCalc`, which has no `total`. From `k >= 2`, `calculation` is unchanged. |
| Provider.StartFromTheBeginning | src/containers/QuizProvider.tsx:125-134 | From any state, the index becomes 0, the start modal is set and both theme flags are cleared. `calculation` and `isBeenRated` are kept. |
| Provider.SetCalculationByName | src/containers/QuizProvider.tsx:136-149 | Only `calculation` changes, and it changes as `SetByName` describes. |
| Provider.PreviousUndoesNext | src/containers/QuizProvider.tsx:105-123 | A step back after a step forward returns to the same index. It keeps the calculation unless it lands on slide 0, where `initialCalc` is restored. |
| QuizView.SlidePredicates | src/components/quiz/Quiz.tsx:87-88 | `isFinal` holds exactly when `index == N - 1`. `isFirstSlide` holds exactly when `index == 0`. |
| QuizView.HandleNext | src/components/quiz/Quiz.tsx:99-109 | On the final slide it restarts: index 0, `isBeenRated` cleared, start modal shown. Elsewhere it is exactly the provider's step forward, to `index + 1`. The index stays in `[0, N-1]`, and `calculation` is never changed. |
| QuizView.ButtonOnClick | src/components/quiz/Quiz.tsx:115-117 | If `isBeenRated`, it is `handleNext`. If not, on the final slide it only opens the rate modal and leaves the quiz state unchanged. On other slides it is `handleNext`. |
| QuizView.HandlePreviousQuestion | src/components/quiz/Quiz.tsx:119-124 | On slide 0 it is a no-op. Elsewhere it is the provider's `handlePrevious`, which then decrements the index. The index stays in range. |
| QuizView.HandleGetResult | src/components/quiz/Quiz.tsx:125-148 | Its effect on the state is that of `buttonOnClick`. On the first slide of a quiz with more than one slide, it advances to slide 1. |
| QuizView.HandleGetResultAsCaptured | src/components/quiz/Quiz.tsx:115-148 | The memoised handler reads `isBeenRated` and `isFinal` from the render where `calculation` last changed. When that render had the current index and rating, it agrees with `HandleGetResult`. It also agrees when both states are on slide 0 of a quiz with more than one slide. When the captured state was unrated on the final slide, it only opens the rate modal. When it was rated on the final slide, the current state restarts with `isBeenRated` cleared. When it was not on the final slide, the current state advances by `handleNextQuestion`. When both states are on slide 0, the index stays on a slide. |
| QuizView.GetResultStaleOnSingleSlide | src/components/quiz/Quiz.tsx:115-148 | With one slide, if the captured state was unrated and the current one is rated, the memoised handler leaves the quiz state alone. The current-state handler instead restarts, showing the start modal and clearing `isBeenRated`. |
| QuizView.GetResultStaleRatedOnSingleSlide | src/components/quiz/Quiz.tsx:115-148 | With one slide, if the captured state was rated and the current one is not, the memoised handler restarts. The current-state handler instead only opens the rate modal. |
| QuizView.HandleCloseRateModal | src/components/quiz/Quiz.tsx:68-74 | Once the delay has passed, the rate modal is closed and the quiz state is unchanged. |
| QuizView.HandleCloseModal | src/components/quiz/Quiz.tsx:76-79 | The start modal is hidden and nothing else changes. |
| QuizView.ProgressPoints | src/components/quiz/Quiz.tsx:168-178 | There are `N` points, and point `i` is active exactly when `i` is the current index. |
| Session.Start | src/containers/QuizProvider.tsx:81-92 | The first render has the provider's initial state and no rate modal. It satisfies the invariant for every slide count: the index is on a slide, the four inputs are present, and there is no `total` yet. |
| Session.Apply | src/components/quiz/Quiz.tsx:99-124 | Every handler of the quiz component, every context setter, and a direct call of `handlePrevious` or `startFromTheBeginning` keeps the index in `[0, N-1]`, the four calculator inputs present, and `total`, whenever present, equal to the formula on the current inputs. Only an edit, or a step back from slide 1 (by the button or a direct call), changes `calculation`. |
| Session.Run | src/components/quiz/Quiz.tsx:99-124 | After any sequence of actions from a valid state, the index is still in `[0, N-1]`, the four inputs are still present, and `total`, whenever present, equals the formula on the current inputs. |
| Session.NavigationKeepsCalculation | src/containers/QuizProvider.tsx:125-134 | Any sequence of calls of `handleNext`, `buttonOnClick` and `handleGetResult`, restarts included, leaves `calculation` as it was. |
| Session.Advance | src/components/quiz/Quiz.tsx:99-109 | Any number of calls of `handleNext` keeps the index on a slide and leaves `calculation` unchanged, restarts included. |
| Session.AdvanceCounts | src/components/quiz/Quiz.tsx:99-105 | Short of the final slide, `k` calls of `handleNext` move exactly `k` slides forward. |
| Session.FullCycle | src/components/quiz/Quiz.tsx:87-105 | From slide 0, `N - 1` calls of `handleNext` reach `isFinal`. One more call returns to slide 0, with `isBeenRated` cleared and the calculation kept. |
| Session.UnguardedNextLeavesSlides | src/containers/QuizProvider.tsx:105-110 | On the final slide, the provider's unguarded step forward leaves the slide range, while `handleNext` stays in it. The bound comes from the caller. |

## Left out

- Rendering, JSX, CSS classes and the caption/body lookup tables (Quiz.tsx lines 30-50) are left out. They are presentation only. So is `scrollIntoView`.
- The `setTimeout` timing is left out. The fade-in animation flag (`handleClick`) and the button caption set by `handleCloseRateModal` are presentation only. The rate modal's delayed close is modelled as the `CloseRateModal` action, without the 500 ms delay.
- `sendGoal` analytics calls are left out. They are foreign calls and do not change the state.
- The `Modal`, `RateUsModal` and `Calculator` components, the slide and caption components rendered inside the provider (Quiz.tsx lines 12-28), and the contents of `quizData` are not part of this model. The context gives them eight functions (QuizProvider.tsx lines 156-171): `handleNextQuestion`, `handlePrevious`, `startFromTheBeginning`, `setCalculationByName`, `setIsBeenRated`, `setIsStartModal`, `setIsWrongTheme` and `setIsRightTheme`. All but `handleNextQuestion` are actions of `Session.Action`, and each keeps the invariant.
- Session.Run: its index bound assumes that no component other than the quiz component calls `handleNextQuestion`. A direct call from the final slide leaves the slides (`Session.UnguardedNextLeavesSlides`), so such a call is not an action of the model.
- `startTime` and `calculateTimePassedAndReset` are left out. They read the wall clock and do not affect the modelled state.
- Deep-cloning of slides with lodash is left out. Slides are immutable values here, identified by their index.
- Numbers are modelled as Dafny reals plus NaN. IEEE-754 rounding, infinities and `-0` are not modelled, and no claim is made about floating-point results such as the 0.5 packs.
- QuizView.HandleGetResult: reads `isBeenRated` and `isFinal` from the current state. The program memoises the handler over `[calculation]`, so it reads them from the last render in which `calculation` changed. `QuizView.HandleGetResultAsCaptured` models that. The two agree on slide 0 of a quiz with more than one slide, which is where the button is rendered. The captured render is always on slide 0. `calculation` changes only in renders at index 0, assuming no component other than the Calculator calls `setCalculationByName` (the model's `Edit` action is allowed on every slide): the Calculator is rendered only on the first slide (Quiz.tsx lines 198-205), and the reset in `handlePrevious` lands on slide 0 (QuizProvider.tsx lines 115-120). The two handlers differ when N = 1, in both directions. Take the actions close start modal, get result, rate, get result. The second press in the program only reopens the rate modal, while the model restarts (`QuizView.GetResultStaleOnSingleSlide`). With a rated capture and an unrated current state, the program restarts, while the model only opens the rate modal (`QuizView.GetResultStaleRatedOnSingleSlide`). `Session.Apply` uses the current-state handler.
- Actions ignore which buttons are rendered. In Quiz.tsx lines 208-233, the get-result button appears only on slide 0. The "back" and "next" buttons appear only off the final slide and are hidden on slide 0. The final slide's button, `buttonOnClick`, restarts only once the quiz is rated. The model allows every action on every slide, which over-approximates what the user can do, so the invariants of `Session.Run` cover more sequences than the program allows.
- Apart from that handler, the model reads React state as current and does not model batching.
- The component handlers require the index to name a slide. Past the last slide `currentQuestion` is `undefined` (`_.cloneDeep(quizData[N])`), and the component's read of its `id` throws, so it cannot run there. The provider's transitions take any index.
