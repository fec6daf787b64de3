// `propagateFields`: one field-solver time step as the sequence of solver
// stages it runs. Magnetic-field propagation, derivatives, Hall term and
// volume averaging are events of the trace; the electric-field and grad-Pe
// stages are modelled in their own modules. With subcycling, the step
// control of SubcycleControl drives the loop.

module PropagateFields {
  import opened FieldGrids
  import opened SubcycleControl

  /** The stages `propagateFields` calls, with the arguments that decide what they do. */
  datatype Event =
    | ResetStepBounds
    | PropagateB(stage: Stage, dt: real)
    | Derivatives(stage: Stage, communicate: bool)
    | GradPeTerm(stage: Stage)
    | HallTerm(stage: Stage, communicateDerivatives: bool)
    | ElectricField(stage: Stage)
    | VolumeAverage
    | BVolDerivatives

  /** The build's time integration: `FS_1ST_ORDER_TIME` or the default second-order Runge-Kutta. */
  datatype TimeOrder = FirstOrderTime | SecondOrderTime

  /** Some grad-Pe event occurs among the first `i` events. */
  ghost predicate GradPeBefore(tr: seq<Event>, i: nat) {
    exists j :: 0 <= j < i && j < |tr| && tr[j].GradPeTerm?
  }

  /** The Hall-term flag after `tr`, starting from `h`: it falls with the first grad-Pe event and never rises. */
  ghost predicate HallFlagAfter(h: bool, tr: seq<Event>) {
    h && !GradPeBefore(tr, |tr|)
  }

  /**
   * Every Hall event of `tr` is told to communicate derivatives exactly
   * when the flag was `h` at the start and no grad-Pe event came before it.
   */
  ghost predicate HallFlagsFollow(h: bool, tr: seq<Event>) {
    forall i | 0 <= i < |tr| && tr[i].HallTerm? :: tr[i].communicateDerivatives == (h && !GradPeBefore(tr, i))
  }

  /** Every event of `ev` belongs to `stage`. */
  predicate AllInStage(ev: seq<Event>, stage: Stage) {
    forall i | 0 <= i < |ev| ::
      (ev[i].PropagateB? || ev[i].Derivatives? || ev[i].GradPeTerm? || ev[i].HallTerm? || ev[i].ElectricField?)
      && ev[i].stage == stage
  }

  /**
   * What the first-subcycle switch decides in a run of events: derivatives
   * are communicated, and grad-Pe computed, only when it is on.
   */
  predicate FirstSubcycleOnly(first: bool, ev: seq<Event>) {
    && (forall i | 0 <= i < |ev| && ev[i].Derivatives? :: ev[i].communicate == first)
    && (forall i | 0 <= i < |ev| && ev[i].GradPeTerm? :: first)
  }

  lemma FirstSubcycleOnlyAppend(first: bool, a: seq<Event>, b: seq<Event>)
    requires FirstSubcycleOnly(first, a) && FirstSubcycleOnly(first, b)
    ensures FirstSubcycleOnly(first, a + b)
  {
    assert forall i | |a| <= i < |a + b| :: (a + b)[i] == b[i - |a|];
  }

  /**
   * One Runge-Kutta stage: propagate B, derivatives, grad-Pe if its
   * coefficient is positive and this is the first subcycle, the Hall term
   * if its coefficient is positive, then E. Returns the events and the Hall
   * flag after them.
   */
  function StageEvents(prm: Params, stage: Stage, dt: real, firstSubcycle: bool, hallComm: bool): (r: (seq<Event>, bool))
    ensures |r.0| >= 3
    ensures r.0[0] == PropagateB(stage, dt) && r.0[1] == Derivatives(stage, firstSubcycle)
    ensures r.0[|r.0| - 1] == ElectricField(stage)
    ensures GradPeTerm(stage) in r.0 <==> prm.ohmGradPeTerm > 0 && firstSubcycle
    ensures (exists i | 0 <= i < |r.0| :: r.0[i].HallTerm?) <==> prm.ohmHallTerm > 0
    ensures AllInStage(r.0, stage)
    ensures FirstSubcycleOnly(firstSubcycle, r.0)
  {
    var gradPe := prm.ohmGradPeTerm > 0 && firstSubcycle;
    var hall := hallComm && !gradPe;
    var ev := [PropagateB(stage, dt), Derivatives(stage, firstSubcycle)]
              + (if gradPe then [GradPeTerm(stage)] else [])
              + (if prm.ohmHallTerm > 0 then [HallTerm(stage, hall)] else [])
              + [ElectricField(stage)];
    assert prm.ohmHallTerm > 0 ==> ev[|ev| - 2].HallTerm?;
    (ev, hall)
  }

  /** A stage's Hall event sees the flag its grad-Pe event left, and hands on the flag after both. */
  lemma {:induction false} StageHallFlags(prm: Params, stage: Stage, dt: real, firstSubcycle: bool, hallComm: bool)
    ensures var (ev, h) := StageEvents(prm, stage, dt, firstSubcycle, hallComm);
            HallFlagsFollow(hallComm, ev) && (h <==> HallFlagAfter(hallComm, ev))
  {
    var (ev, h) := StageEvents(prm, stage, dt, firstSubcycle, hallComm);
    var gradPe := prm.ohmGradPeTerm > 0 && firstSubcycle;
    assert GradPeBefore(ev, |ev|) <==> gradPe by {
      if gradPe {
        assert ev[2].GradPeTerm?;
      }
    }
    forall i | 0 <= i < |ev| && ev[i].HallTerm?
      ensures ev[i].communicateDerivatives == (hallComm && !GradPeBefore(ev, i))
    {
      assert GradPeBefore(ev, i) <==> gradPe by {
        if gradPe {
          assert ev[2].GradPeTerm? && 2 < i;
        }
      }
    }
  }

  /** The flags of two traces in a row follow the rule when each part does, from the flag the first leaves. */
  lemma {:induction false} HallFlagsAppend(h: bool, a: seq<Event>, b: seq<Event>)
    requires HallFlagsFollow(h, a) && HallFlagsFollow(HallFlagAfter(h, a), b)
    ensures HallFlagsFollow(h, a + b)
    ensures HallFlagAfter(h, a + b) <==> HallFlagAfter(HallFlagAfter(h, a), b)
  {
    var ab := a + b;
    forall i | 0 <= i <= |ab|
      ensures GradPeBefore(ab, i) <==> if i <= |a| then GradPeBefore(a, i) else GradPeBefore(a, |a|) || GradPeBefore(b, i - |a|)
    {
      if GradPeBefore(ab, i) {
        var j :| 0 <= j < i && j < |ab| && ab[j].GradPeTerm?;
        if j < |a| {
          assert a[j] == ab[j];
        } else {
          assert b[j - |a|] == ab[j];
        }
      }
      if i <= |a| && GradPeBefore(a, i) {
        var j :| 0 <= j < i && j < |a| && a[j].GradPeTerm?;
        assert ab[j] == a[j];
      }
      if i > |a| && GradPeBefore(a, |a|) {
        var j :| 0 <= j < |a| && j < |a| && a[j].GradPeTerm?;
        assert ab[j] == a[j];
      }
      if i > |a| && GradPeBefore(b, i - |a|) {
        var j :| 0 <= j < i - |a| && j < |b| && b[j].GradPeTerm?;
        assert ab[j + |a|] == b[j];
      }
    }
    forall i | 0 <= i < |ab| && ab[i].HallTerm?
      ensures ab[i].communicateDerivatives == (h && !GradPeBefore(ab, i))
    {
      if i < |a| {
        assert ab[i] == a[i];
      } else {
        assert ab[i] == b[i - |a|];
      }
    }
  }

  /** The events of one subcycle, or of the single step: a first and a second Runge-Kutta stage. */
  function TwoStages(prm: Params, dt: real, firstSubcycle: bool, hallComm: bool): (r: (seq<Event>, bool))
    ensures |r.0| >= 6 && r.0[0] == PropagateB(Order2Step1, dt) && r.0[|r.0| - 1] == ElectricField(Order2Step2)
    ensures FirstSubcycleOnly(firstSubcycle, r.0)
    ensures GradPeTerm(Order2Step1) in r.0 <==> prm.ohmGradPeTerm > 0 && firstSubcycle
    ensures HallFlagsFollow(hallComm, r.0) && (r.1 <==> HallFlagAfter(hallComm, r.0))
  {
    var (ev1, h1) := StageEvents(prm, Order2Step1, dt, firstSubcycle, hallComm);
    var (ev2, h2) := StageEvents(prm, Order2Step2, dt, firstSubcycle, h1);
    StageHallFlags(prm, Order2Step1, dt, firstSubcycle, hallComm);
    StageHallFlags(prm, Order2Step2, dt, firstSubcycle, h1);
    HallFlagsAppend(hallComm, ev1, ev2);
    FirstSubcycleOnlyAppend(firstSubcycle, ev1, ev2);
    assert GradPeTerm(Order2Step1) !in ev2;
    (ev1 + ev2, h2)
  }

  /** The subcycle loop's step-control variables. */
  datatype Subcycle = Subcycle(t: real, dt: real, count: nat, maxCount: nat)

  /**
   * The subcycle loop's step control from state `st`: the step each
   * subcycle runs with, and the state the loop stops in. `dtMaxGlobal(n)`
   * is the global step bound the reassessment after subcycle n sees. The
   * loop stops once the target time is reached or the count reaches its
   * limit.
   */
  function SubcycleLoop(rule: Rule, cfl: Cfl, target: real, dtMaxGlobal: nat -> real, st: Subcycle)
    : (r: (seq<real>, Subcycle))
    requires st.count <= UintMax && st.maxCount <= UintMax
    ensures r.1.count == st.count + |r.0|
    ensures r.1.count <= UintMax && r.1.maxCount <= UintMax
    ensures r.1.t >= target || r.1.count >= r.1.maxCount
    ensures st.count < st.maxCount ==> |r.0| > 0 && r.0[0] == st.dt
    decreases UintMax - st.count
  {
    if st.count >= st.maxCount then ([], st)
    else
      var t := st.t + st.dt;
      var count := st.count + 1;
      if t >= target || count >= st.maxCount then ([st.dt], Subcycle(t, st.dt, count, st.maxCount))
      else
        var next := Reassess(rule, cfl, target, t, st.dt, count, st.maxCount, dtMaxGlobal(count));
        var rest := SubcycleLoop(rule, cfl, target, dtMaxGlobal, Subcycle(t, next.dt, count, next.maxCount));
        ([st.dt] + rest.0, rest.1)
  }

  function Flatten(chunks: seq<seq<Event>>): seq<Event> {
    if |chunks| == 0 then [] else chunks[0] + Flatten(chunks[1..])
  }

  /**
   * The events of the subcycles that ran with steps `dts`, the first of
   * them subcycle number `count`, and the Hall flag after them.
   */
  function SubcycleEvents(prm: Params, dts: seq<real>, count: nat, hallComm: bool): (r: (seq<seq<Event>>, bool))
    ensures |r.0| == |dts|
    decreases |dts|
  {
    if |dts| == 0 then ([], hallComm)
    else
      var (ev, h) := TwoStages(prm, dts[0], count == 0, hallComm);
      var rest := SubcycleEvents(prm, dts[1..], count + 1, h);
      ([ev] + rest.0, rest.1)
  }

  /**
   * Each subcycle runs the two stages with its own step; derivatives are
   * communicated, and grad-Pe computed, only in the first subcycle.
   */
  lemma {:induction false} SubcycleEventsShape(prm: Params, dts: seq<real>, count: nat, hallComm: bool)
    ensures var r := SubcycleEvents(prm, dts, count, hallComm);
            && (forall n | 0 <= n < |r.0| :: FirstSubcycleOnly(count + n == 0, r.0[n]))
            && (count == 0 && |dts| > 0 && prm.ohmGradPeTerm > 0 ==> GradPeTerm(Order2Step1) in r.0[0])
            && (forall n | 0 <= n < |r.0| :: |r.0[n]| > 0 && r.0[n][0] == PropagateB(Order2Step1, dts[n]))
    decreases |dts|
  {
    if |dts| > 0 {
      var ev, h := FirstSubcycleShape(prm, dts, count, hallComm);
      var rest := SubcycleEvents(prm, dts[1..], count + 1, h);
      SubcycleEventsShape(prm, dts[1..], count + 1, h);
      var r := SubcycleEvents(prm, dts, count, hallComm);
      forall n | 0 <= n < |r.0|
        ensures FirstSubcycleOnly(count + n == 0, r.0[n])
        ensures |r.0[n]| > 0 && r.0[n][0] == PropagateB(Order2Step1, dts[n])
      {
        if n > 0 {
          TailIndex(r.0, ev, rest.0, n);
          assert dts[n] == dts[1..][n - 1];
        }
      }
    }
  }

  lemma TailIndex<T>(s: seq<T>, x: T, t: seq<T>, n: nat)
    requires s == [x] + t && 1 <= n < |s|
    ensures s[n] == t[n - 1]
  {
  }

  lemma FlattenCons(ev: seq<Event>, rest: seq<seq<Event>>)
    ensures Flatten([ev] + rest) == ev + Flatten(rest)
  {
    assert ([ev] + rest)[1..] == rest;
  }

  /** The first subcycle's events, then those of the rest from the Hall flag it leaves. */
  lemma SubcycleEventsCons(prm: Params, dts: seq<real>, count: nat, hallComm: bool)
    requires |dts| > 0
    ensures var two := TwoStages(prm, dts[0], count == 0, hallComm);
            var rest := SubcycleEvents(prm, dts[1..], count + 1, two.1);
            SubcycleEvents(prm, dts, count, hallComm) == ([two.0] + rest.0, rest.1)
  {
  }

  /** The first subcycle's events `ev` follow the Hall-flag rule and leave the flag `h` the rest start from. */
  lemma FirstSubcycleFlags(prm: Params, dts: seq<real>, count: nat, hallComm: bool) returns (ev: seq<Event>, h: bool)
    requires |dts| > 0
    ensures HallFlagsFollow(hallComm, ev) && (h <==> HallFlagAfter(hallComm, ev))
    ensures var rest := SubcycleEvents(prm, dts[1..], count + 1, h);
            SubcycleEvents(prm, dts, count, hallComm) == ([ev] + rest.0, rest.1)
  {
    var two := TwoStages(prm, dts[0], count == 0, hallComm);
    ev, h := two.0, two.1;
    SubcycleEventsCons(prm, dts, count, hallComm);
  }

  /** The first subcycle's events `ev` start with its B propagation and follow the first-subcycle rule. */
  lemma FirstSubcycleShape(prm: Params, dts: seq<real>, count: nat, hallComm: bool) returns (ev: seq<Event>, h: bool)
    requires |dts| > 0
    ensures |ev| > 0 && ev[0] == PropagateB(Order2Step1, dts[0])
    ensures FirstSubcycleOnly(count == 0, ev)
    ensures count == 0 && prm.ohmGradPeTerm > 0 ==> GradPeTerm(Order2Step1) in ev
    ensures var rest := SubcycleEvents(prm, dts[1..], count + 1, h);
            SubcycleEvents(prm, dts, count, hallComm) == ([ev] + rest.0, rest.1)
  {
    var two := TwoStages(prm, dts[0], count == 0, hallComm);
    ev, h := two.0, two.1;
    SubcycleEventsCons(prm, dts, count, hallComm);
  }

  /** Over any run of subcycles the Hall flags follow the grad-Pe events. */
  lemma {:induction false} SubcycleHallFlags(prm: Params, dts: seq<real>, count: nat, hallComm: bool)
    ensures var r := SubcycleEvents(prm, dts, count, hallComm);
            HallFlagsFollow(hallComm, Flatten(r.0)) && (r.1 <==> HallFlagAfter(hallComm, Flatten(r.0)))
    decreases |dts|
  {
    var r := SubcycleEvents(prm, dts, count, hallComm);
    if |dts| == 0 {
      assert !GradPeBefore(Flatten(r.0), 0);
    } else {
      var ev, h := FirstSubcycleFlags(prm, dts, count, hallComm);
      var rest := SubcycleEvents(prm, dts[1..], count + 1, h);
      SubcycleHallFlags(prm, dts[1..], count + 1, h);
      FlattenCons(ev, rest.0);
      HallFlagsChain(hallComm, ev, h, Flatten(rest.0), rest.1, Flatten(r.0));
    }
  }

  /** A run that follows the rule, then one that follows it from the flag the first leaves. */
  lemma HallFlagsChain(h: bool, a: seq<Event>, ha: bool, b: seq<Event>, hb: bool, ab: seq<Event>)
    requires ab == a + b
    requires HallFlagsFollow(h, a) && (ha <==> HallFlagAfter(h, a))
    requires HallFlagsFollow(ha, b) && (hb <==> HallFlagAfter(ha, b))
    ensures HallFlagsFollow(h, ab) && (hb <==> HallFlagAfter(h, ab))
  {
    HallFlagsAppend(h, a, b);
  }

  /** What a field propagation does: stops the run for zero subcycles, otherwise runs the trace. */
  datatype Outcome =
    | Aborted
    | Propagated(trace: seq<Event>, effectiveSubcycles: nat, endT: real)

  /** The events of the single-step branch, for either time order. */
  function SingleStep(prm: Params, order: TimeOrder, dt: real): (r: seq<Event>)
    ensures HallFlagsFollow(true, r)
    ensures FirstSubcycleOnly(true, r)
    ensures order == FirstOrderTime ==> r == StageEvents(prm, Order1, dt, true, true).0
    ensures order == SecondOrderTime ==> r == TwoStages(prm, dt, true, true).0
  {
    if order == FirstOrderTime then
      StageHallFlags(prm, Order1, dt, true, true);
      StageEvents(prm, Order1, dt, true, true).0
    else TwoStages(prm, dt, true, true).0
  }

  /** The loop's state before the first subcycle: the step split evenly, no count limit. */
  function InitialSubcycle(t0: real, dt: real, subcycles: nat): (st: Subcycle)
    requires subcycles > 0
    ensures st.count == 0 && st.maxCount == UintMax
    ensures st.t == t0 && st.dt * subcycles as real == dt
  {
    Subcycle(t0, dt / subcycles as real, 0, UintMax)
  }

  /**
   * The clock after the loop: the number of subcycles run and the time
   * reached. The single-step branch runs one step of the whole `dt`.
   */
  function Clock(rule: Rule, cfl: Cfl, t0: real, dt: real, subcycles: nat, dtMaxGlobal: nat -> real): (r: (nat, real))
    requires subcycles > 0
    ensures r.0 <= UintMax
    ensures subcycles == 1 ==> r == (1, t0 + dt)
  {
    if subcycles == 1 then (1, t0 + dt)
    else
      var f := SubcycleLoop(rule, cfl, t0 + dt, dtMaxGlobal, InitialSubcycle(t0, dt, subcycles)).1;
      (f.count, f.t)
  }

  /** The stages between the reset of the step bounds and the volume averages. */
  function Stages(rule: Rule, prm: Params, order: TimeOrder, cfl: Cfl, t0: real, dt: real, subcycles: nat,
                  dtMaxGlobal: nat -> real): seq<Event>
    requires subcycles > 0
  {
    if subcycles == 1 then SingleStep(prm, order, dt)
    else
      var dts := SubcycleLoop(rule, cfl, t0 + dt, dtMaxGlobal, InitialSubcycle(t0, dt, subcycles)).0;
      Flatten(SubcycleEvents(prm, dts, 0, true).0)
  }

  /** The stage that opens a step: B propagated over the first step, at the first stage of the time order. */
  function FirstPropagation(order: TimeOrder, dt: real, subcycles: nat): Event
    requires subcycles > 0
  {
    if subcycles == 1 then PropagateB(if order == FirstOrderTime then Order1 else Order2Step1, dt)
    else PropagateB(Order2Step1, dt / subcycles as real)
  }

  /** The step's trace: the reset of the step bounds, the stages, the volume averages and their derivatives. */
  function Framed(body: seq<Event>): seq<Event>
  {
    [ResetStepBounds] + body + [VolumeAverage, BVolDerivatives]
  }

  /**
   * Inside the frame, the stages open with the first B propagation and
   * include an electric-field stage: the loop always runs at least one
   * subcycle.
   */
  lemma {:induction false} StagesShape(rule: Rule, prm: Params, order: TimeOrder, cfl: Cfl, t0: real, dt: real,
                                       subcycles: nat, dtMaxGlobal: nat -> real)
    requires subcycles > 0
    ensures var trace := Framed(Stages(rule, prm, order, cfl, t0, dt, subcycles, dtMaxGlobal));
            && |trace| >= 4 && trace[1] == FirstPropagation(order, dt, subcycles)
            && exists i | 1 <= i < |trace| - 2 :: trace[i].ElectricField?
  {
    var body := Stages(rule, prm, order, cfl, t0, dt, subcycles, dtMaxGlobal);
    var trace := Framed(body);
    var i: nat;
    if subcycles == 1 {
      i := |body| - 1;
    } else {
      var st := InitialSubcycle(t0, dt, subcycles);
      var dts := SubcycleLoop(rule, cfl, t0 + dt, dtMaxGlobal, st).0;
      assert |dts| > 0 && dts[0] == dt / subcycles as real;
      var two := TwoStages(prm, dts[0], true, true);
      var rest := SubcycleEvents(prm, dts[1..], 1, two.1);
      SubcycleEventsCons(prm, dts, 0, true);
      FlattenCons(two.0, rest.0);
      assert body == two.0 + Flatten(rest.0);
      i := |two.0| - 1;
      assert body[i] == two.0[i];
    }
    assert 0 < i < |body| && body[i].ElectricField?;
    assert trace[i + 1] == body[i] && trace[1] == body[0];
  }

  /**
   * `propagateFields` from time `t0` over `dt` in `subcycles` subcycles: the
   * reset of the step bounds, the stages, then the volume averages and
   * their derivatives. `rule` chooses the subcycle step control: the
   * source's, or the corrected one. The Hall flag starts up.
   */
  function Propagate(rule: Rule, prm: Params, order: TimeOrder, cfl: Cfl, t0: real, dt: real, subcycles: nat,
                     dtMaxGlobal: nat -> real): (r: Outcome)
    ensures r.Aborted? <==> subcycles == 0
    ensures r.Propagated? ==> |r.trace| >= 3 && r.trace[0] == ResetStepBounds
                              && r.trace[|r.trace| - 2..] == [VolumeAverage, BVolDerivatives]
    ensures r.Propagated? ==> 1 <= r.effectiveSubcycles <= UintMax
    // The first stage propagates B over the first step, and some stage computes E.
    ensures r.Propagated? ==> r.trace[1] == FirstPropagation(order, dt, subcycles)
    ensures r.Propagated? ==> exists i | 1 <= i < |r.trace| - 2 :: r.trace[i].ElectricField?
    // Without subcycling: exactly the single step, ending at t0 + dt.
    ensures r.Propagated? && subcycles == 1 ==>
              && r.trace == [ResetStepBounds] + SingleStep(prm, order, dt) + [VolumeAverage, BVolDerivatives]
              && r.effectiveSubcycles == 1 && r.endT == t0 + dt
  {
    if subcycles == 0 then Aborted
    else
      var clock := Clock(rule, cfl, t0, dt, subcycles, dtMaxGlobal);
      var body := Stages(rule, prm, order, cfl, t0, dt, subcycles, dtMaxGlobal);
      StagesShape(rule, prm, order, cfl, t0, dt, subcycles, dtMaxGlobal);
      Propagated(Framed(body), clock.0, clock.1)
  }

  /**
   * What the corrected loop keeps true: the step does not carry past the
   * target, and a count limit set by a snap leaves exactly the steps that
   * reach it.
   */
  ghost predicate OnCourse(st: Subcycle, target: real) {
    && st.dt >= 0.0 && st.t + st.dt <= target
    && (|| st.maxCount == UintMax
        || (st.maxCount == st.count + 1 && st.t + st.dt == target)
        || (st.maxCount == st.count + 2 && st.t + 2.0 * st.dt == target))
  }

  /** One corrected reassessment keeps the loop on course, unless the count is about to wrap. */
  lemma {:induction false} ReassessKeepsCourse(cfl: Cfl, target: real, t: real, dt: real, count: nat, maxCount: nat,
                                               dtMaxGlobal: real)
    requires CflOrdered(cfl) && dtMaxGlobal >= 0.0 && dt >= 0.0
    requires t < target && count + 2 <= UintMax
    ensures var next := Reassess(Corrected, cfl, target, t, dt, count, maxCount, dtMaxGlobal);
            OnCourse(Subcycle(t, next.dt, count, next.maxCount), target)
  {
    var next := Reassess(Corrected, cfl, target, t, dt, count, maxCount, dtMaxGlobal);
    if Snaps(cfl, target, t, dt, dtMaxGlobal) {
      assert next.maxCount == count + 1 || next.maxCount == count + 2;
    } else {
      var adj := CflAdjusted(cfl, dt, dtMaxGlobal);
      assert adj >= 0.0 && t + 1.5 * adj <= target;
    }
  }

  /**
   * With the corrected step control the loop ends exactly on the target
   * time, unless the 32-bit count itself runs out.
   */
  lemma {:induction false} CorrectedLoopEndsOnTarget(cfl: Cfl, target: real, dtMaxGlobal: nat -> real, st: Subcycle)
    requires st.count <= UintMax && st.maxCount <= UintMax
    requires OnCourse(st, target) && CflOrdered(cfl)
    requires forall n :: dtMaxGlobal(n) >= 0.0
    ensures var f := SubcycleLoop(Corrected, cfl, target, dtMaxGlobal, st).1;
            f.count < UintMax - 1 ==> f.t == target
    decreases UintMax - st.count
  {
    if st.count < st.maxCount {
      var t := st.t + st.dt;
      var count := st.count + 1;
      if !(t >= target || count >= st.maxCount) {
        var next := Reassess(Corrected, cfl, target, t, st.dt, count, st.maxCount, dtMaxGlobal(count));
        var st' := Subcycle(t, next.dt, count, next.maxCount);
        assert SubcycleLoop(Corrected, cfl, target, dtMaxGlobal, st).1
               == SubcycleLoop(Corrected, cfl, target, dtMaxGlobal, st').1;
        if count + 2 <= UintMax {
          ReassessKeepsCourse(cfl, target, t, st.dt, count, st.maxCount, dtMaxGlobal(count));
          CorrectedLoopEndsOnTarget(cfl, target, dtMaxGlobal, st');
        }
      }
    }
  }

  /** The evenly split step starts the loop on course for `t0 + dt`. */
  lemma InitialOnCourse(t0: real, dt: real, subcycles: nat)
    requires subcycles > 0 && dt >= 0.0
    ensures OnCourse(InitialSubcycle(t0, dt, subcycles), t0 + dt)
  {
    var st := InitialSubcycle(t0, dt, subcycles);
    var k := subcycles as real;
    assert st.dt == dt / k && k >= 1.0;
    assert st.dt >= 0.0;
    assert st.dt * (k - 1.0) >= 0.0;
    assert st.dt <= st.dt * k == dt;
  }

  /**
   * A whole field propagation ends on `t0 + dt`: by construction with one
   * subcycle, by the corrected step control with several.
   */
  lemma {:induction false} PropagateEndsOnTarget(prm: Params, order: TimeOrder, cfl: Cfl, t0: real, dt: real,
                                                 subcycles: nat, dtMaxGlobal: nat -> real)
    requires subcycles > 0 && dt >= 0.0 && CflOrdered(cfl)
    requires forall n :: dtMaxGlobal(n) >= 0.0
    ensures var r := Propagate(Corrected, prm, order, cfl, t0, dt, subcycles, dtMaxGlobal);
            r.effectiveSubcycles < UintMax - 1 ==> r.endT == t0 + dt
  {
    ClockEndsOnTarget(cfl, t0, dt, subcycles, dtMaxGlobal);
  }

  lemma {:induction false} ClockEndsOnTarget(cfl: Cfl, t0: real, dt: real, subcycles: nat, dtMaxGlobal: nat -> real)
    requires subcycles > 0 && dt >= 0.0 && CflOrdered(cfl)
    requires forall n :: dtMaxGlobal(n) >= 0.0
    ensures var clock := Clock(Corrected, cfl, t0, dt, subcycles, dtMaxGlobal);
            clock.0 < UintMax - 1 ==> clock.1 == t0 + dt
  {
    if subcycles > 1 {
      InitialOnCourse(t0, dt, subcycles);
      CorrectedLoopEndsOnTarget(cfl, t0 + dt, dtMaxGlobal, InitialSubcycle(t0, dt, subcycles));
    }
  }

  /** Every Hall event of a field propagation's trace communicates derivatives exactly when no grad-Pe event came before it. */
  lemma {:induction false} PropagateHallFlags(rule: Rule, prm: Params, order: TimeOrder, cfl: Cfl, t0: real, dt: real,
                                              subcycles: nat, dtMaxGlobal: nat -> real)
    requires subcycles > 0
    ensures HallFlagsFollow(true, Propagate(rule, prm, order, cfl, t0, dt, subcycles, dtMaxGlobal).trace)
  {
    var body := Stages(rule, prm, order, cfl, t0, dt, subcycles, dtMaxGlobal);
    if subcycles > 1 {
      var loop := SubcycleLoop(rule, cfl, t0 + dt, dtMaxGlobal, InitialSubcycle(t0, dt, subcycles));
      SubcycleHallFlags(prm, loop.0, 0, true);
    }
    HallFlagsAppend(true, [ResetStepBounds], body);
    HallFlagsAppend(true, [ResetStepBounds] + body, [VolumeAverage, BVolDerivatives]);
  }

  /**
   * The source's step control can stop short of the target: a snap to two
   * half steps limits the count, the global bound then drops, the next
   * reassessment shrinks the step without snapping, and the stale limit ends
   * the loop at 1.89 instead of 2.4. Only the bounds seen after subcycles 1
   * and 2 matter.
   */
  lemma {:induction false} AsWrittenStopsShortOfTarget(dtMax: nat -> real)
    requires dtMax(1) == 2.0 && dtMax(2) == 0.2
    ensures var f := SubcycleLoop(AsWritten, Cfl(0.5, 0.4), 2.4, dtMax, InitialSubcycle(0.0, 2.4, 2)).1;
            f.count == 3 && f.t == 1.89 && f.t < 2.4
  {
    var cfl := Cfl(0.5, 0.4);
    var s0 := InitialSubcycle(0.0, 2.4, 2);
    assert s0 == Subcycle(0.0, 1.2, 0, UintMax);
    assert Reassess(AsWritten, cfl, 2.4, 1.2, 1.2, 1, UintMax, 2.0) == Reassessed(0.6, 3);
    var s1 := Subcycle(1.2, 0.6, 1, 3);
    assert SubcycleLoop(AsWritten, cfl, 2.4, dtMax, s0).1 == SubcycleLoop(AsWritten, cfl, 2.4, dtMax, s1).1;
    assert CflAdjusted(cfl, 0.6, 0.2) == 0.09;
    assert Reassess(AsWritten, cfl, 2.4, 1.8, 0.6, 2, 3, 0.2) == Reassessed(0.09, 3);
    var s2 := Subcycle(1.8, 0.09, 2, 3);
    assert SubcycleLoop(AsWritten, cfl, 2.4, dtMax, s1).1 == SubcycleLoop(AsWritten, cfl, 2.4, dtMax, s2).1;
    assert SubcycleLoop(AsWritten, cfl, 2.4, dtMax, s2).1 == Subcycle(1.89, 0.09, 3, 3);
  }

  /** The whole field propagation under the source's rule: it reports 3 subcycles and ends at 1.89, not 2.4. */
  lemma {:induction false} PropagateAsWrittenStopsShort(prm: Params, order: TimeOrder, dtMax: nat -> real)
    requires dtMax(1) == 2.0 && dtMax(2) == 0.2
    ensures var r := Propagate(AsWritten, prm, order, Cfl(0.5, 0.4), 0.0, 2.4, 2, dtMax);
            r.Propagated? && r.effectiveSubcycles == 3 && r.endT == 1.89
  {
    AsWrittenStopsShortOfTarget(dtMax);
  }

  /**
   * On the same inputs, with the bound staying at 0.2 after the second
   * subcycle, the corrected step control does not stop at 1.89: it lifts the
   * stale limit and goes on to the target.
   */
  lemma {:induction false} CorrectedContinuesPastStaleLimit()
    ensures var dtMax := (n: nat) => if n <= 1 then 2.0 else 0.2;
            var f := SubcycleLoop(Corrected, Cfl(0.5, 0.4), 2.4, dtMax, InitialSubcycle(0.0, 2.4, 2)).1;
            f.count > 3 && f.t == 2.4
  {
    var dtMax := (n: nat) => if n <= 1 then 2.0 else 0.2;
    var cfl := Cfl(0.5, 0.4);
    var s0 := InitialSubcycle(0.0, 2.4, 2);
    assert s0 == Subcycle(0.0, 1.2, 0, UintMax);
    assert Reassess(Corrected, cfl, 2.4, 1.2, 1.2, 1, UintMax, 2.0) == Reassessed(0.6, 3);
    var s1 := Subcycle(1.2, 0.6, 1, 3);
    assert SubcycleLoop(Corrected, cfl, 2.4, dtMax, s0).1 == SubcycleLoop(Corrected, cfl, 2.4, dtMax, s1).1;
    assert CflAdjusted(cfl, 0.6, 0.2) == 0.09;
    assert Reassess(Corrected, cfl, 2.4, 1.8, 0.6, 2, 3, 0.2) == Reassessed(0.09, UintMax);
    var s2 := Subcycle(1.8, 0.09, 2, UintMax);
    assert SubcycleLoop(Corrected, cfl, 2.4, dtMax, s1).1 == SubcycleLoop(Corrected, cfl, 2.4, dtMax, s2).1;
    assert OnCourse(s2, 2.4);
    CorrectedLoopEndsOnTarget(cfl, 2.4, dtMax, s2);
    var f := SubcycleLoop(Corrected, cfl, 2.4, dtMax, s2).1;
    assert f.count >= 3 by {
      assert SubcycleLoop(Corrected, cfl, 2.4, dtMax, s2).1.count == s2.count + |SubcycleLoop(Corrected, cfl, 2.4, dtMax, s2).0|;
      assert |SubcycleLoop(Corrected, cfl, 2.4, dtMax, s2).0| > 0;
    }
  }
}
