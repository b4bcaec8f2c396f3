/**
 * What the action bar's closures do: `submit`, `reset` and the two default
 * click handlers, observed as an ordered trace of calls into the form
 * instance and the caller's callbacks, plus the queue of callbacks waiting
 * for the next animation frame. The functions After… specify one call each;
 * class Session performs them on mutable state; Run strings calls together so
 * that properties of whole interactions can be stated.
 */
module SubmitterActions {
  import opened Nodes
  import opened Submitter

  /** One observable call made by the action bar. */
  datatype Effect =
    | FormSubmit                        // form.submit()
    | OnSubmit(f: Callback)             // onSubmit()
    | FormResetFields                   // form.resetFields()
    | ScheduleFrame                     // requestAnimationFrame(…)
    | OnReset(f: Callback)              // onReset(), from inside a frame callback
    | UserClick(f: Callback, e: Event)  // the bag's own onClick(e)

  /** The callback handed to requestAnimationFrame: `() => onReset?.()`, with `onReset` captured. */
  datatype FrameTask = DeferredOnReset(onReset: Option<Callback>)

  /** Everything the action bar has done so far, and the frame callbacks not yet run. */
  datatype World = World(trace: seq<Effect>, frames: seq<FrameTask>)

  /** A click handler either returns, or throws a TypeError when the bag's `onClick` is not callable. */
  datatype ClickOutcome = Returned(world: World) | Threw(world: World)

  /** How many times `x` occurs in the trace `s`. */
  function Count(s: seq<Effect>, x: Effect): nat
  {
    if s == [] then 0 else (if s[0] == x then 1 else 0) + Count(s[1..], x)
  }

  /** How many `onReset` calls, whatever the callback, occur in the trace `s`. */
  function OnResetCalls(s: seq<Effect>): nat
  {
    if s == [] then 0 else (if s[0].OnReset? then 1 else 0) + OnResetCalls(s[1..])
  }

  lemma {:induction false} CountAppend(s: seq<Effect>, t: seq<Effect>, x: Effect)
    ensures Count(s + t, x) == Count(s, x) + Count(t, x)
    ensures OnResetCalls(s + t) == OnResetCalls(s) + OnResetCalls(t)
  {
    if s == [] {
      assert s + t == t;
    } else {
      assert (s + t)[1..] == s[1..] + t;
      CountAppend(s[1..], t, x);
    }
  }

  /** An effect that does not occur in a trace is counted zero times. */
  lemma {:induction false} CountAbsent(s: seq<Effect>, x: Effect)
    requires forall i | 0 <= i < |s| :: s[i] != x
    ensures Count(s, x) == 0
  {
    if s != [] {
      assert forall i | 0 <= i < |s[1..]| :: s[1..][i] == s[i + 1];
      CountAbsent(s[1..], x);
    }
  }

  /**
   * The calls `submit` makes: the form is submitted first, exactly once, and
   * then `onSubmit` is called once, with no arguments, when it is given.
   */
  function SubmitEffects(onSubmit: Option<Callback>): (r: seq<Effect>)
    ensures |r| >= 1 && r[0] == FormSubmit
    ensures |r| == if onSubmit.Some? then 2 else 1
    ensures onSubmit.Some? ==> r[1] == OnSubmit(onSubmit.value)
    ensures Count(r, FormSubmit) == 1
    ensures onSubmit.Some? ==> Count(r, OnSubmit(onSubmit.value)) == 1
    ensures Count(r, FormResetFields) == 0 && OnResetCalls(r) == 0
  {
    match onSubmit
    case None => [FormSubmit]
    case Some(f) =>
      var r := [FormSubmit, OnSubmit(f)];
      assert r[1..] == [OnSubmit(f)] && r[1..][1..] == [];
      assert Count(r[1..], OnSubmit(f)) == 1;
      r
  }

  /**
   * The calls `reset` makes synchronously: the fields are reset once and one
   * frame callback is scheduled; `onReset` is never among them.
   */
  function ResetEffects(): (r: seq<Effect>)
    ensures |r| >= 1 && r[0] == FormResetFields
    ensures Count(r, FormResetFields) == 1 && Count(r, ScheduleFrame) == 1
    ensures OnResetCalls(r) == 0 && Count(r, FormSubmit) == 0
    ensures |r| == 2
  {
    [FormResetFields, ScheduleFrame]
  }

  /** The calls a frame callback makes when it runs: `onReset()` if it was given. */
  function FrameEffects(t: FrameTask): (r: seq<Effect>)
    ensures OnResetCalls(r) == if t.onReset.Some? then 1 else 0
    ensures t.onReset.Some? ==> r == [OnReset(t.onReset.value)]
    ensures t.onReset.None? ==> r == []
    ensures Count(r, FormSubmit) == 0 && Count(r, FormResetFields) == 0
  {
    match t.onReset
    case None => []
    case Some(f) => [OnReset(f)]
  }

  /**
   * `submit` called in world `w`: the earlier trace is kept, the form submit
   * comes next and then `onSubmit` if given; no frame is scheduled and no
   * field is reset.
   */
  function AfterSubmit(p: Props, w: World): (r: World)
    ensures r.frames == w.frames
    ensures w.trace <= r.trace && |r.trace| > |w.trace| && r.trace[|w.trace|] == FormSubmit
    ensures p.onSubmit.None? ==> |r.trace| == |w.trace| + 1
    ensures p.onSubmit.Some? ==> |r.trace| == |w.trace| + 2 && r.trace[|w.trace| + 1] == OnSubmit(p.onSubmit.value)
    ensures Count(r.trace, FormSubmit) == Count(w.trace, FormSubmit) + 1
    ensures Count(r.trace, FormResetFields) == Count(w.trace, FormResetFields)
    ensures OnResetCalls(r.trace) == OnResetCalls(w.trace)
  {
    var eff := SubmitEffects(p.onSubmit);
    CountAppend(w.trace, eff, FormSubmit);
    CountAppend(w.trace, eff, FormResetFields);
    World(w.trace + eff, w.frames)
  }

  /**
   * `reset` called in world `w`: the earlier trace is kept, the fields are
   * reset next, and this reset's deferred `onReset?.()` joins the back of the
   * frame queue; `onReset` itself is not called.
   */
  function AfterReset(p: Props, w: World): (r: World)
    ensures r.frames == w.frames + [DeferredOnReset(p.onReset)]
    ensures w.trace <= r.trace && |r.trace| == |w.trace| + 2 && r.trace[|w.trace|] == FormResetFields
    ensures r.trace[|w.trace| + 1] == ScheduleFrame
    ensures Count(r.trace, FormResetFields) == Count(w.trace, FormResetFields) + 1
    ensures Count(r.trace, FormSubmit) == Count(w.trace, FormSubmit)
    ensures OnResetCalls(r.trace) == OnResetCalls(w.trace)
  {
    CountAppend(w.trace, ResetEffects(), FormSubmit);
    CountAppend(w.trace, ResetEffects(), FormResetFields);
    World(w.trace + ResetEffects(), w.frames + [DeferredOnReset(p.onReset)])
  }

  /**
   * The next animation frame runs the oldest pending callback, which calls
   * `onReset` if it captured one and does nothing else; with no callback
   * pending nothing happens.
   */
  function AfterFrame(w: World): (r: World)
    ensures w.frames == [] ==> r == w
    ensures w.frames != [] ==> r.frames == w.frames[1..]
    ensures w.frames != [] && w.frames[0].onReset.Some? ==> r.trace == w.trace + [OnReset(w.frames[0].onReset.value)]
    ensures w.frames != [] && w.frames[0].onReset.None? ==> r.trace == w.trace
    ensures w.trace <= r.trace
    ensures OnResetCalls(r.trace) == OnResetCalls(w.trace) + (if w.frames != [] && w.frames[0].onReset.Some? then 1 else 0)
    ensures Count(r.trace, FormSubmit) == Count(w.trace, FormSubmit)
    ensures Count(r.trace, FormResetFields) == Count(w.trace, FormResetFields)
  {
    if w.frames == [] then w
    else
      var eff := FrameEffects(w.frames[0]);
      CountAppend(w.trace, eff, FormSubmit);
      CountAppend(w.trace, eff, FormResetFields);
      World(w.trace + eff, w.frames[1..])
  }

  /** The calls the given frame callbacks make when they run, in order. */
  function FlatEffects(ts: seq<FrameTask>): seq<Effect>
  {
    if ts == [] then [] else FlatEffects(ts[..|ts| - 1]) + FrameEffects(ts[|ts| - 1])
  }

  /** The world after `k` animation frames. */
  function AfterFrames(w: World, k: nat): World
  {
    if k == 0 then w else AfterFrame(AfterFrames(w, k - 1))
  }

  /**
   * Frame callbacks run first-in, first-out: after `k` frames the oldest `k`
   * callbacks have run, in the order they were scheduled, and the rest wait.
   */
  lemma {:induction false} FramesRunInOrder(w: World, k: nat)
    requires k <= |w.frames|
    ensures AfterFrames(w, k) == World(w.trace + FlatEffects(w.frames[..k]), w.frames[k..])
  {
    if k > 0 {
      FramesRunInOrder(w, k - 1);
      assert w.frames[..k][..k - 1] == w.frames[..k - 1];
      assert w.frames[k - 1..][1..] == w.frames[k..];
    }
  }

  /** `!bag?.preventDefault` decides whether a click runs the default action. */
  predicate Prevented(p: Props, side: Side)
  {
    Truthy(Get(BagOf(p, side), "preventDefault"))
  }

  /** The bag's own click handler, `undefined` when it has none. */
  function UserOnClick(p: Props, side: Side): Node
  {
    Get(BagOf(p, side), "onClick")
  }

  /** The calls the default action of a click makes: none when prevented. */
  function ActionEffects(p: Props, side: Side): seq<Effect>
  {
    if Prevented(p, side) then [] else if side == ResetButton then ResetEffects() else SubmitEffects(p.onSubmit)
  }

  /**
   * The world after a click's default action: unchanged when prevented,
   * otherwise `reset` for the reset button and `submit` for the submit
   * button. Its calls are exactly ActionEffects.
   */
  function ClickAction(p: Props, side: Side, w: World): (r: World)
    ensures r.trace == w.trace + ActionEffects(p, side)
    ensures r.frames == if side == ResetButton && !Prevented(p, side) then w.frames + [DeferredOnReset(p.onReset)] else w.frames
  {
    if Prevented(p, side) then w
    else if side == ResetButton then AfterReset(p, w)
    else AfterSubmit(p, w)
  }

  /**
   * A click on a default button with event `e`: the default action unless
   * `preventDefault` is truthy, then `onClick?.(e)`.
   */
  function AfterClick(p: Props, side: Side, e: Event, w: World): (r: ClickOutcome)
    ensures w.trace <= r.world.trace
    ensures r.Threw? <==> !Nullish(UserOnClick(p, side)) && !UserOnClick(p, side).Fn?
  {
    var acted := ClickAction(p, side, w);
    var onClick := UserOnClick(p, side);
    if onClick.Fn? then Returned(World(acted.trace + [UserClick(onClick.f, e)], acted.frames))
    else if Nullish(onClick) then Returned(acted)
    else Threw(acted)
  }

  /**
   * One rendered action bar together with the form instance and the frame
   * queue it talks to. `props` is what the closures captured.
   */
  class Session {
    const props: Props
    var trace: seq<Effect>
    var frames: seq<FrameTask>

    constructor (p: Props)
      ensures props == p && trace == [] && frames == []
    {
      props := p;
      trace := [];
      frames := [];
    }

    function State(): World
      reads this
    {
      World(trace, frames)
    }

    /** `submit`: `form.submit()`, then `onSubmit?.()`. */
    method Submit()
      modifies this
      ensures State() == AfterSubmit(props, old(State()))
    {
      trace := trace + [FormSubmit];
      if props.onSubmit.Some? {
        trace := trace + [OnSubmit(props.onSubmit.value)];
      }
    }

    /** `reset`: `form.resetFields()`, then `requestAnimationFrame(() => onReset?.())`. */
    method Reset()
      modifies this
      ensures State() == AfterReset(props, old(State()))
    {
      trace := trace + [FormResetFields];
      trace := trace + [ScheduleFrame];
      frames := frames + [DeferredOnReset(props.onReset)];
    }

    /** The `onClick` of the default button `side`; `threw` when the bag's `onClick` is not callable. */
    method Click(side: Side, e: Event) returns (threw: bool)
      modifies this
      ensures threw == AfterClick(props, side, e, old(State())).Threw?
      ensures State() == AfterClick(props, side, e, old(State())).world
    {
      var bag := BagOf(props, side);
      if !Truthy(Get(bag, "preventDefault")) {
        if side == ResetButton {
          Reset();
        } else {
          Submit();
        }
      }
      var onClick := Get(bag, "onClick");
      threw := false;
      if onClick.Fn? {
        trace := trace + [UserClick(onClick.f, e)];
      } else if !Nullish(onClick) {
        threw := true;
      }
    }

    /** The browser reaches the next frame and runs the oldest pending callback, if any. */
    method RunFrame() returns (ran: bool)
      modifies this
      ensures ran == (old(frames) != [])
      ensures State() == AfterFrame(old(State()))
    {
      ran := frames != [];
      if ran {
        var task := frames[0];
        frames := frames[1..];
        if task.onReset.Some? {
          trace := trace + [OnReset(task.onReset.value)];
        }
      }
    }
  }

  /** Something that can happen to a rendered action bar. */
  datatype Step =
    | CallSubmit                  // an override calls `submit`
    | CallReset                   // an override calls `reset`
    | ClickOn(side: Side, e: Event)
    | NextFrame

  function Apply(p: Props, s: Step, w: World): World
  {
    match s
    case CallSubmit => AfterSubmit(p, w)
    case CallReset => AfterReset(p, w)
    case ClickOn(side, e) => AfterClick(p, side, e, w).world
    case NextFrame => AfterFrame(w)
  }

  /** The world after the steps, in order, with the configuration `p` throughout. */
  function Run(p: Props, steps: seq<Step>, w: World): World
    decreases |steps|
  {
    if steps == [] then w else Run(p, steps[1..], Apply(p, steps[0], w))
  }

  /**
   * A click runs the default action exactly when the bag's `preventDefault`
   * is falsy: one form submit (or one field reset and one scheduled frame)
   * more, and nothing else of the form's; `onReset` is never called by it.
   */
  lemma ClickRunsActionUnlessPrevented(p: Props, side: Side, e: Event, w: World)
    ensures var r := AfterClick(p, side, e, w).world;
      && Count(r.trace, FormSubmit) == Count(w.trace, FormSubmit) + (if side == SubmitButton && !Prevented(p, side) then 1 else 0)
      && Count(r.trace, FormResetFields) == Count(w.trace, FormResetFields) + (if side == ResetButton && !Prevented(p, side) then 1 else 0)
      && r.frames == (if side == ResetButton && !Prevented(p, side) then w.frames + [DeferredOnReset(p.onReset)] else w.frames)
      && OnResetCalls(r.trace) == OnResetCalls(w.trace)
  {
    var acted := ClickAction(p, side, w);
    if !Prevented(p, side) {
      if side == ResetButton {
        CountAppend(w.trace, ResetEffects(), FormSubmit);
        CountAppend(w.trace, ResetEffects(), FormResetFields);
      } else {
        var s := SubmitEffects(p.onSubmit);
        CountAppend(w.trace, s, FormSubmit);
        CountAppend(w.trace, s, FormResetFields);
      }
    }
    var tail := if UserOnClick(p, side).Fn? then [UserClick(UserOnClick(p, side).f, e)] else [];
    CountAppend(acted.trace, tail, FormSubmit);
    CountAppend(acted.trace, tail, FormResetFields);
  }

  /**
   * After the default action (if any), a click calls the bag's own `onClick`
   * exactly once with the same event, as its last effect; with no `onClick`
   * nothing more happens, and a present but non-callable one throws.
   */
  lemma ClickForwardsEventLast(p: Props, side: Side, e: Event, w: World)
    ensures var out := AfterClick(p, side, e, w).world;
      && (UserOnClick(p, side).Fn? ==>
            && |out.trace| > |w.trace|
            && out.trace[|out.trace| - 1] == UserClick(UserOnClick(p, side).f, e)
            && out.trace[..|out.trace| - 1] == w.trace + ActionEffects(p, side)
            && Count(out.trace, UserClick(UserOnClick(p, side).f, e)) == Count(w.trace, UserClick(UserOnClick(p, side).f, e)) + 1)
      && (!UserOnClick(p, side).Fn? ==> out.trace == w.trace + ActionEffects(p, side))
  {
    var acted := ClickAction(p, side, w);
    var added := ActionEffects(p, side);
    var onClick := UserOnClick(p, side);
    if onClick.Fn? {
      var x := UserClick(onClick.f, e);
      var out := AfterClick(p, side, e, w).world;
      assert out.trace == acted.trace + [x];
      assert out.trace[..|out.trace| - 1] == acted.trace;
      CountAppend(w.trace, added, x);
      CountAppend(acted.trace, [x], x);
      CountAbsent(added, x);
    }
  }

  /**
   * `reset` never calls `onReset` itself. Its deferred `onReset?.()` waits
   * behind the callbacks already pending: the frames that run those make only
   * their own calls, and the next frame after them calls this reset's
   * `onReset`, once, if it was given.
   */
  lemma ResetDefersOnReset(p: Props, w: World)
    ensures var now := AfterReset(p, w);
      && OnResetCalls(now.trace) == OnResetCalls(w.trace)
      && Count(now.trace, FormResetFields) == Count(w.trace, FormResetFields) + 1
      && now.frames == w.frames + [DeferredOnReset(p.onReset)]
    ensures var now := AfterReset(p, w);
      var before := AfterFrames(now, |w.frames|);
      && before.trace == now.trace + FlatEffects(w.frames)
      && before.frames == [DeferredOnReset(p.onReset)]
    ensures var now := AfterReset(p, w);
      var before := AfterFrames(now, |w.frames|);
      var later := AfterFrames(now, |w.frames| + 1);
      && later.frames == []
      && later.trace == before.trace + (if p.onReset.Some? then [OnReset(p.onReset.value)] else [])
      && OnResetCalls(later.trace) == OnResetCalls(before.trace) + (if p.onReset.Some? then 1 else 0)
  {
    var now := AfterReset(p, w);
    var n := |w.frames|;
    FramesRunInOrder(now, n);
    assert now.frames[..n] == w.frames;
    assert now.frames[n..] == [DeferredOnReset(p.onReset)];
  }

  /**
   * The balance between resets and `onReset` calls: every pending frame
   * callback belongs to a reset already made, `onReset` has been called at
   * most once per reset, exactly once per reset whose frame has run when it
   * is given, and never when it is not.
   */
  predicate ResetBalanced(p: Props, w: World)
  {
    && (forall i | 0 <= i < |w.frames| :: w.frames[i] == DeferredOnReset(p.onReset))
    && OnResetCalls(w.trace) + |w.frames| <= Count(w.trace, FormResetFields)
    && (p.onReset.Some? ==> OnResetCalls(w.trace) + |w.frames| == Count(w.trace, FormResetFields))
    && (p.onReset.None? ==> OnResetCalls(w.trace) == 0)
  }

  lemma StepKeepsResetBalanced(p: Props, s: Step, w: World)
    requires ResetBalanced(p, w)
    ensures ResetBalanced(p, Apply(p, s, w))
  {
    match s
    case CallSubmit =>
      var eff := SubmitEffects(p.onSubmit);
      CountAppend(w.trace, eff, FormResetFields);
    case CallReset =>
      CountAppend(w.trace, ResetEffects(), FormResetFields);
    case ClickOn(side, e) =>
      ClickRunsActionUnlessPrevented(p, side, e, w);
    case NextFrame =>
      if w.frames != [] {
        CountAppend(w.trace, FrameEffects(w.frames[0]), FormResetFields);
      }
  }

  lemma {:induction false} RunKeepsResetBalanced(p: Props, steps: seq<Step>, w: World)
    requires ResetBalanced(p, w)
    ensures ResetBalanced(p, Run(p, steps, w))
    decreases |steps|
  {
    if steps != [] {
      StepKeepsResetBalanced(p, steps[0], w);
      RunKeepsResetBalanced(p, steps[1..], Apply(p, steps[0], w));
    }
  }

  /**
   * From a freshly rendered action bar, whatever is clicked or called and
   * however many frames pass, `onReset` is called no more often than the
   * fields are reset, and exactly as often once no frame is pending, if given.
   */
  lemma OnResetNeverOutrunsReset(p: Props, steps: seq<Step>)
    ensures var w := Run(p, steps, World([], []));
      && OnResetCalls(w.trace) <= Count(w.trace, FormResetFields)
      && (p.onReset.Some? && w.frames == [] ==> OnResetCalls(w.trace) == Count(w.trace, FormResetFields))
  {
    RunKeepsResetBalanced(p, steps, World([], []));
  }

  /** Every `onSubmit` call in the trace comes right after a form submit. */
  predicate SubmitOrdered(s: seq<Effect>)
  {
    forall i | 0 <= i < |s| :: s[i].OnSubmit? ==> i > 0 && s[i - 1] == FormSubmit
  }

  lemma OrderedAppend(s: seq<Effect>, t: seq<Effect>)
    requires SubmitOrdered(s) && SubmitOrdered(t)
    requires |t| > 0 ==> !t[0].OnSubmit?
    ensures SubmitOrdered(s + t)
  {
    forall i | 0 <= i < |s + t| && (s + t)[i].OnSubmit?
      ensures i > 0 && (s + t)[i - 1] == FormSubmit
    {
      if i >= |s| {
        assert (s + t)[i] == t[i - |s|];
        assert i - |s| > 0;
        assert (s + t)[i - 1] == t[i - 1 - |s|];
      }
    }
  }

  lemma StepKeepsSubmitOrdered(p: Props, s: Step, w: World)
    requires SubmitOrdered(w.trace)
    ensures SubmitOrdered(Apply(p, s, w).trace)
  {
    match s
    case CallSubmit =>
      OrderedAppend(w.trace, SubmitEffects(p.onSubmit));
    case CallReset =>
      OrderedAppend(w.trace, ResetEffects());
    case ClickOn(side, e) =>
      var acted := ClickAction(p, side, w);
      if !Prevented(p, side) {
        if side == ResetButton {
          OrderedAppend(w.trace, ResetEffects());
        } else {
          OrderedAppend(w.trace, SubmitEffects(p.onSubmit));
        }
      }
      if UserOnClick(p, side).Fn? {
        OrderedAppend(acted.trace, [UserClick(UserOnClick(p, side).f, e)]);
      }
    case NextFrame =>
      if w.frames != [] {
        OrderedAppend(w.trace, FrameEffects(w.frames[0]));
      }
  }

  /** However the action bar is used, `onSubmit` is only ever called right after the form was told to submit. */
  lemma {:induction false} OnSubmitAlwaysFollowsFormSubmit(p: Props, steps: seq<Step>, w: World)
    requires SubmitOrdered(w.trace)
    ensures SubmitOrdered(Run(p, steps, w).trace)
    decreases |steps|
  {
    if steps != [] {
      StepKeepsSubmitOrdered(p, steps[0], w);
      OnSubmitAlwaysFollowsFormSubmit(p, steps[1..], Apply(p, steps[0], w));
    }
  }

  /**
   * With `submitButtonProps.preventDefault` truthy, no sequence of clicks on
   * either button and frames ever submits the form; only an override calling
   * `submit` itself can.
   */
  lemma {:induction false} PreventedSubmitNeverSubmits(p: Props, steps: seq<Step>, w: World)
    requires Prevented(p, SubmitButton)
    requires forall i | 0 <= i < |steps| :: !steps[i].CallSubmit?
    ensures Count(Run(p, steps, w).trace, FormSubmit) == Count(w.trace, FormSubmit)
    decreases |steps|
  {
    if steps != [] {
      var s := steps[0];
      assert !s.CallSubmit?;
      if s.CallReset? {
        CountAppend(w.trace, ResetEffects(), FormSubmit);
      } else if s.ClickOn? {
        ClickRunsActionUnlessPrevented(p, s.side, s.e, w);
      } else if w.frames != [] {
        CountAppend(w.trace, FrameEffects(w.frames[0]), FormSubmit);
      }
      PreventedSubmitNeverSubmits(p, steps[1..], Apply(p, s, w));
    }
  }

  /** Nothing the action bar does rewrites an earlier effect: the trace only grows. */
  lemma {:induction false} TraceOnlyGrows(p: Props, steps: seq<Step>, w: World)
    ensures w.trace <= Run(p, steps, w).trace
    decreases |steps|
  {
    if steps != [] {
      TraceOnlyGrows(p, steps[1..], Apply(p, steps[0], w));
    }
  }

  /**
   * A submit button configured with `preventDefault: true`, its own
   * `onClick` and the text "Go": it shows "Go", and clicking it calls the
   * handler with the click event and never submits the form.
   */
  lemma PreventedSubmitScenario(handler: Callback, e: Event, intl: Catalog, w: World)
    ensures var p := Props(0, None, None, Some(SearchConfig(Undefined, Str("Go"))),
                           Some(map["preventDefault" := Bool(true), "onClick" := Fn(handler)]), None, NoRender);
      var out := AfterClick(p, SubmitButton, e, w);
      && DefaultButtons(p, intl)[1].element.text == Str("Go")
      && out == Returned(World(w.trace + [UserClick(handler, e)], w.frames))
      && Count(out.world.trace, FormSubmit) == Count(w.trace, FormSubmit)
      && Count(out.world.trace, UserClick(handler, e)) == Count(w.trace, UserClick(handler, e)) + 1
  {
    var p := Props(0, None, None, Some(SearchConfig(Undefined, Str("Go"))),
                   Some(map["preventDefault" := Bool(true), "onClick" := Fn(handler)]), None, NoRender);
    ClickRunsActionUnlessPrevented(p, SubmitButton, e, w);
    ClickForwardsEventLast(p, SubmitButton, e, w);
  }
}
