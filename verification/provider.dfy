/**
 The state held by the quiz provider (src/containers/QuizProvider.tsx): the
 slide index, the calculator's string-keyed map of numbers, and four boolean
 flags, together with the transitions the provider exposes.

 The provider keeps the index twice, once in a ref and once as the current
 question object; slide `i` has id `String(i)`, so both collapse into one
 index here. Transitions are pure functions from state to state.
 */
module Provider {

  /** A JavaScript number as far as the calculator sees it: a real value, or
      NaN, which is what arithmetic on a missing (`undefined`) property yields. */
  datatype Num = Finite(v: real) | NaN

  function Mul(a: Num, b: Num): (r: Num)
    ensures r.Finite? <==> a.Finite? && b.Finite?
    ensures r.Finite? ==> r.v == a.v * b.v
  {
    if a.Finite? && b.Finite? then Finite(a.v * b.v) else NaN
  }

  function Add(a: Num, b: Num): (r: Num)
    ensures r.Finite? <==> a.Finite? && b.Finite?
    ensures r.Finite? ==> r.v == a.v + b.v
  {
    if a.Finite? && b.Finite? then Finite(a.v + b.v) else NaN
  }

  /** The calculator's object `{ [x: string]: number }`. */
  type Calc = map<string, Num>

  const Cigarette: string := "cigarette"
  const PacksInDay: string := "cigarettePacksInDay"
  const LightersMonthly: string := "lightersMonthly"
  const Lighter: string := "lighter"
  const Default: string := "default"
  const Total: string := "total"

  /** Reading a property: a missing key reads as `undefined`, and
      `undefined` in a product is NaN. */
  function Get(m: Calc, key: string): (r: Num)
    ensures key in m ==> r == m[key]
    ensures key !in m ==> r == NaN
  {
    if key in m then m[key] else NaN
  }

  /** `initialCalc`: four inputs and a `default` of 119 * 0.5 * 30 + 1 * 25,
      with no `total` key. */
  const InitialCalc: Calc := map[
    Cigarette := Finite(119.0),
    PacksInDay := Finite(0.5),
    LightersMonthly := Finite(1.0),
    Lighter := Finite(38.0),
    Default := Finite(119.0 * 0.5 * 30.0 + 1.0 * 25.0)
  ]

  /** The four keys the total formula reads. */
  predicate HasInputs(m: Calc)
  {
    Cigarette in m && PacksInDay in m && LightersMonthly in m && Lighter in m
  }

  /** The total formula, `cigarette * cigarettePacksInDay * 30 +
      lightersMonthly * lighter`, read from a map. */
  function TotalOf(m: Calc): (r: Num)
  {
    Add(Mul(Mul(Get(m, Cigarette), Get(m, PacksInDay)), Finite(30.0)),
        Mul(Get(m, LightersMonthly), Get(m, Lighter)))
  }

  /** The formula's value when all four inputs are finite, and NaN as soon as
      one of them is missing or NaN. */
  lemma TotalOfValue(m: Calc)
    ensures TotalOf(m).Finite? <==>
      Get(m, Cigarette).Finite? && Get(m, PacksInDay).Finite? &&
      Get(m, LightersMonthly).Finite? && Get(m, Lighter).Finite?
    ensures TotalOf(m).Finite? ==>
      HasInputs(m) &&
      TotalOf(m).v == m[Cigarette].v * m[PacksInDay].v * 30.0 + m[LightersMonthly].v * m[Lighter].v
  {
  }

  /** The formula does not read the `total` key (nor any key outside its four inputs). */
  lemma TotalOfIgnoresOtherKeys(m: Calc, key: string, x: Num)
    requires key != Cigarette && key != PacksInDay && key != LightersMonthly && key != Lighter
    ensures TotalOf(m[key := x]) == TotalOf(m)
  {
    assert Get(m[key := x], Cigarette) == Get(m, Cigarette);
    assert Get(m[key := x], PacksInDay) == Get(m, PacksInDay);
    assert Get(m[key := x], LightersMonthly) == Get(m, LightersMonthly);
    assert Get(m[key := x], Lighter) == Get(m, Lighter);
  }

  /** A map whose `total` entry is what the formula gives for its own inputs. */
  predicate TotalConsistent(m: Calc)
  {
    Total in m && m[Total] == TotalOf(m)
  }

  /** The calculator's invariant as the code keeps it: `total` may be absent
      (`initialCalc` has none), but when present it is the formula's value. */
  predicate TotalTracksInputs(m: Calc)
  {
    Total in m ==> TotalConsistent(m)
  }

  /** `setCalculationByName(name, value)`: write `value` under `name`, whatever
      the name, then write the formula's result under `total`. */
  function SetByName(m: Calc, name: string, value: Num): (r: Calc)
    ensures r.Keys == m.Keys + {name, Total}
    ensures name != Total ==> r[name] == value
    ensures forall k :: k in m && k != name && k != Total ==> r[k] == m[k]
    ensures TotalConsistent(r)
    ensures HasInputs(m) ==> HasInputs(r)
  {
    var written := m[name := value];
    TotalOfIgnoresOtherKeys(written, Total, TotalOf(written));
    written[Total := TotalOf(written)]
  }

  /** Writing the same value under the same name twice is the same as once. */
  lemma SetByNameIdempotent(m: Calc, name: string, value: Num)
    ensures SetByName(SetByName(m, name, value), name, value) == SetByName(m, name, value)
  {
    var once := SetByName(m, name, value);
    if name == Total {
      TotalOfIgnoresOtherKeys(once, Total, value);
      assert once[Total := value][Total := TotalOf(once)] == once;
    } else {
      assert once[name := value] == once;
    }
  }

  /** A second edit overrides the first edit's `total`: the result is the
      second edit applied to the first one's raw write. */
  lemma SetByNameTwice(m: Calc, a: string, x: Num, b: string, y: Num)
    ensures SetByName(SetByName(m, a, x), b, y) == SetByName(m[a := x], b, y)
  {
    var w := m[a := x];
    var t := TotalOf(w);
    if b == Total {
      TotalOfIgnoresOtherKeys(w, Total, y);
      TotalOfIgnoresOtherKeys(w, Total, t);
      assert w[Total := t][Total := y] == w[Total := y];
    } else {
      assert w[Total := t][b := y] == w[b := y][Total := t];
      TotalOfIgnoresOtherKeys(w[b := y], Total, t);
      assert w[b := y][Total := t][Total := TotalOf(w[b := y])] == w[b := y][Total := TotalOf(w[b := y])];
    }
  }

  /** An edit of `total` keeps only the recomputed total: the written value is lost. */
  lemma SetTotalIgnoresValue(m: Calc, x: Num)
    ensures SetByName(m, Total, x) == m[Total := TotalOf(m)]
  {
    TotalOfIgnoresOtherKeys(m, Total, x);
    assert m[Total := x][Total := TotalOf(m)] == m[Total := TotalOf(m)];
  }

  /** Edits of two different names other than `total` commute. */
  lemma SetInputsCommute(m: Calc, a: string, x: Num, b: string, y: Num)
    requires a != b && a != Total && b != Total
    ensures SetByName(m[a := x], b, y) == SetByName(m[b := y], a, x)
  {
    var w := m[a := x][b := y];
    assert w == m[b := y][a := x];
  }

  /** An edit of `total` commutes with an edit of any other name. */
  lemma SetTotalCommutes(m: Calc, x: Num, b: string, y: Num)
    requires b != Total
    ensures SetByName(m[Total := x], b, y) == SetByName(m[b := y], Total, x)
  {
    SetTotalIgnoresValue(m[b := y], x);
    TotalOfIgnoresOtherKeys(m[b := y], Total, x);
    assert m[Total := x][b := y] == m[b := y][Total := x];
    assert m[b := y][Total := x][Total := TotalOf(m[b := y])] == m[b := y][Total := TotalOf(m[b := y])];
  }

  /** Edits of two different names give the same map in either order,
      `total` included, since an edit of `total` is always overwritten. */
  lemma SetByNameCommutes(m: Calc, a: string, x: Num, b: string, y: Num)
    requires a != b
    ensures SetByName(SetByName(m, a, x), b, y) == SetByName(SetByName(m, b, y), a, x)
  {
    SetByNameTwice(m, a, x, b, y);
    SetByNameTwice(m, b, y, a, x);
    if a == Total {
      SetTotalCommutes(m, x, b, y);
    } else if b == Total {
      SetTotalCommutes(m, y, a, x);
    } else {
      SetInputsCommute(m, a, x, b, y);
    }
  }

  /** Worked edits: one pack a day from the initial inputs totals
      119 * 1 * 30 + 1 * 38, leaving the other inputs alone; on a map that lacks
      the inputs the total is NaN; and an unknown name is stored, not refused. */
  lemma SetByNameExamples()
    ensures SetByName(InitialCalc, PacksInDay, Finite(1.0))[Total] == Finite(3608.0)
    ensures SetByName(InitialCalc, PacksInDay, Finite(1.0))[Cigarette] == Finite(119.0)
    ensures SetByName(InitialCalc, PacksInDay, Finite(1.0))[Lighter] == Finite(38.0)
    ensures SetByName(map[], Cigarette, Finite(100.0))[Total] == NaN
    ensures SetByName(InitialCalc, "bogus", Finite(5.0))["bogus"] == Finite(5.0)
    ensures SetByName(InitialCalc, "bogus", Finite(5.0))[Total] == Finite(1823.0)
  {
  }

  /** The provider's state. `index` is a `nat` with no upper bound: the
      provider itself never checks it against the number of slides. */
  datatype State = State(
    index: nat,
    calculation: Calc,
    isWrongTheme: bool,
    isRightTheme: bool,
    isBeenRated: bool,
    isStartModal: bool)

  /** The state the provider mounts with. */
  function Init(): (s: State)
    ensures s.index == 0
    ensures s.calculation.Keys == {Cigarette, PacksInDay, LightersMonthly, Lighter, Default}
    ensures Total !in s.calculation
    ensures s.calculation == InitialCalc
    ensures s.calculation[Cigarette] == Finite(119.0) && s.calculation[PacksInDay] == Finite(0.5)
    ensures s.calculation[LightersMonthly] == Finite(1.0) && s.calculation[Lighter] == Finite(38.0)
    ensures s.calculation[Default] == Finite(1810.0)
    ensures HasInputs(s.calculation)
    ensures !s.isWrongTheme && !s.isRightTheme && !s.isBeenRated && s.isStartModal
  {
    State(0, InitialCalc, false, false, false, true)
  }

  /** `default` is not the formula's value for the initial inputs: it prices a
      lighter at 25 where the `lighter` field holds 38. */
  lemma DefaultIsNotInitialTotal()
    ensures TotalOf(InitialCalc) == Finite(1823.0)
    ensures InitialCalc[Default] != TotalOf(InitialCalc)
  {
  }

  /** `handleNextQuestion`: one slide forward, with no bound check, clearing
      the theme flags. */
  function NextQuestion(s: State): (r: State)
    ensures r.index == s.index + 1
    ensures !r.isWrongTheme && !r.isRightTheme
    ensures r.calculation == s.calculation
    ensures r.isBeenRated == s.isBeenRated && r.isStartModal == s.isStartModal
  {
    s.(index := s.index + 1, isRightTheme := false, isWrongTheme := false)
  }

  /** `handlePrevious`: nothing at slide 0; otherwise one slide back, clearing
      the theme flags, and stepping back onto slide 0 also restores
      `initialCalc` (dropping any `total`). */
  function Previous(s: State): (r: State)
    ensures s.index == 0 ==> r == s
    ensures s.index > 0 ==> r.index == s.index - 1 && !r.isWrongTheme && !r.isRightTheme
    ensures s.index == 1 ==> r.calculation == InitialCalc && Total !in r.calculation
    ensures s.index != 1 ==> r.calculation == s.calculation
    ensures r.isBeenRated == s.isBeenRated && r.isStartModal == s.isStartModal
  {
    if s.index == 0 then s
    else
      var calculation := if s.index == 1 then InitialCalc else s.calculation;
      s.(calculation := calculation, index := s.index - 1, isRightTheme := false, isWrongTheme := false)
  }

  /** `startFromTheBeginning`: back to slide 0 with the start modal shown. The
      calculation is kept. */
  function StartFromTheBeginning(s: State): (r: State)
    ensures r.index == 0
    ensures r.isStartModal && !r.isWrongTheme && !r.isRightTheme
    ensures r.calculation == s.calculation && r.isBeenRated == s.isBeenRated
  {
    s.(index := 0, isRightTheme := false, isWrongTheme := false, isStartModal := true)
  }

  /** `setCalculationByName` on the provider's state: only the calculation changes. */
  function SetCalculationByName(s: State, name: string, value: Num): (r: State)
    ensures r.calculation == SetByName(s.calculation, name, value)
    ensures r.(calculation := s.calculation) == s
  {
    s.(calculation := SetByName(s.calculation, name, value))
  }

  /** A step forward followed by a step back returns to the same slide, and
      keeps the calculation unless that step back lands on slide 0. */
  lemma PreviousUndoesNext(s: State)
    ensures Previous(NextQuestion(s)).index == s.index
    ensures s.index > 0 ==> Previous(NextQuestion(s)).calculation == s.calculation
    ensures s.index == 0 ==> Previous(NextQuestion(s)).calculation == InitialCalc
  {
  }
}
