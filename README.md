# Submitter: a verified model of the form action bar

The form package's `Submitter` component renders the action bar under a form:
a reset button and a submit button, bound to two actions, `submit`
(`form.submit()` then `onSubmit?.()`) and `reset` (`form.resetFields()` and,
on the next animation frame, `onReset?.()`). The caller can turn the bar off
with `render: false`. The caller can also replace it with a render override.
That override gets the props extended with `submit` and `reset`, plus the
default buttons, and the component normalises what it returns.

The model has three modules:

- `Nodes` (`nodes.dfy`): the JavaScript values and React nodes the component
  reads and produces. It defines `Truthy`, `Nullish` (the test behind `?.`),
  plain-object property access, and the elements (a default `Button`, the
  `Space` layout container, opaque caller elements).
- `Submitter` (`submitter.dfy`): what is decided at render time, as
  functions. This covers the disabled switch, the button labels, the
  `omit(…, ['preventDefault'])` props filtering, the two default buttons in
  the order [reset, submit], and the normalisation of the override's result.
  `type="primary"` is set before the bag is spread, so a `type` in
  `submitButtonProps` overrides it; the reset button has no default `type`.
- `SubmitterActions` (`actions.dfy`): what the closures do. Every call into
  the form instance, the caller's callbacks and `requestAnimationFrame` is
  recorded as an `Effect` in a trace. Frame callbacks wait in a queue until a
  frame runs. The functions `AfterSubmit`, `AfterReset`, `AfterClick` and
  `AfterFrame` specify one call each. The class `Session` performs them on
  mutable state, and each of its methods is proved equal to its
  specification function. `Run` strings steps together (clicks, direct
  `submit`/`reset` calls from an override, frames), and lemmas state what
  holds across any number of them.

Outside code is passed in as parameters. The message catalog's
`getMessage(key, fallback)` is a function parameter (`Catalog`). The caller's
render override is a function parameter (`Renderer`) that gives its result
for the arguments it receives.

## Model

| member | source | states |
|---|---|---|
| `Submitter.Render` | packages/form/src/components/Submitter/index.tsx:45-112 | With `render === false` the result is nothing, whatever else is configured. With no override it is the two default buttons inside the layout container. With an override it is the normalised result of calling the override with the props plus `submit`/`reset` and the default buttons. The result is always nothing, a non-empty layout container, or a truthy value the override returned. |
| `Submitter.Normalise` | packages/form/src/components/Submitter/index.tsx:102-111 | A falsy value gives nothing, and so does an empty array. A non-empty array is wrapped in the layout container with its elements in order. Any other truthy value is returned unchanged. The result is never an array. |
| `Submitter.ButtonText` | packages/form/src/components/Submitter/index.tsx:72-75 | An explicitly given `submitText`/`resetText` is used unchanged. A missing one, or a missing `searchConfig`, resolves to `getMessage('tableForm.submit', '提交')` or `getMessage('tableForm.reset', '重置')`. |
| `Submitter.Omit` | packages/form/src/components/Submitter/index.tsx:79 | `omit(bag, keys)` keeps exactly the bag's other keys, with their values. |
| `Submitter.ForwardedProps` | packages/form/src/components/Submitter/index.tsx:78-91 | The props a button forwards never contain `preventDefault`. Every other key of the bag is forwarded unchanged, except the key, click handler and children that the element sets itself. The submit button's `type` is `"primary"` unless the bag gives a `type`. The reset button gets no key the bag lacks. |
| `Submitter.DefaultButtons` | packages/form/src/components/Submitter/index.tsx:77-99 | There are exactly two buttons: reset first (key `"rest"`, reset handler), then submit (key `"submit"`, submit handler). The key and handler are fixed whatever the bag holds. Each button carries its forwarded props and its resolved text, and neither has `preventDefault` in its props. An absent bag behaves like `{}`. |
| `SubmitterActions.SubmitEffects` | packages/form/src/components/Submitter/index.tsx:60-63 | `submit` calls the form's submit first and exactly once. It then calls `onSubmit` exactly once when given, and nothing else. It never resets fields or calls `onReset`. |
| `SubmitterActions.ResetEffects` | packages/form/src/components/Submitter/index.tsx:65-70 | `reset` synchronously resets the fields once and schedules one frame. It never calls `onReset` or submits the form. |
| `SubmitterActions.FrameEffects` | packages/form/src/components/Submitter/index.tsx:67-69 | A fired frame callback calls `onReset` exactly once if it was given, and makes no call at all if it was not. |
| `Submitter.BagOf` | packages/form/src/components/Submitter/index.tsx:57-90 | The bag a button reads is the given `resetButtonProps`/`submitButtonProps`, and `{}` when it is absent. |
| `SubmitterActions.AfterSubmit` | packages/form/src/components/Submitter/index.tsx:60-63 | `submit` keeps the earlier trace, then adds the form submit and then `onSubmit` if given. Form submits go up by one. Field resets, `onReset` calls and the frame queue stay the same. |
| `SubmitterActions.AfterReset` | packages/form/src/components/Submitter/index.tsx:65-70 | `reset` keeps the earlier trace, then adds exactly a field reset and then the frame request. Field resets go up by one. Form submits and `onReset` calls stay the same. This reset's deferred `onReset?.()` joins the back of the frame queue. |
| `SubmitterActions.AfterFrame` | packages/form/src/components/Submitter/index.tsx:67-69 | With nothing pending, a frame changes nothing. Otherwise the oldest callback leaves the queue. The trace grows by exactly that callback's `onReset` call if it captured one, and not at all if it did not. |
| `SubmitterActions.ClickAction` | packages/form/src/components/Submitter/index.tsx:81-95 | A click's default action adds exactly the calls `ActionEffects` lists: none when `preventDefault` is truthy, else those of `reset` or `submit`. Only an unprevented reset click queues a frame callback. |
| `SubmitterActions.AfterClick` | packages/form/src/components/Submitter/index.tsx:81-95 | A click keeps the earlier trace. It throws exactly when the bag's `onClick` is present but not callable. Its effects are stated by `ClickRunsActionUnlessPrevented` and `ClickForwardsEventLast`. |
| `SubmitterActions.Session.constructor` | packages/form/src/components/Submitter/index.tsx:51-59 | A fresh bar holds the props its closures captured, an empty trace and no pending frame. |
| `SubmitterActions.Session.Submit` | packages/form/src/components/Submitter/index.tsx:60-63 | The new state is the old trace extended by `SubmitEffects`. The frame queue is unchanged. |
| `SubmitterActions.Session.Reset` | packages/form/src/components/Submitter/index.tsx:65-70 | The new state is the old trace extended by `ResetEffects`, with one deferred `onReset?.()` appended to the frame queue. |
| `SubmitterActions.Session.Click` | packages/form/src/components/Submitter/index.tsx:81-95 | The new state and whether the handler throws equal `AfterClick`. |
| `SubmitterActions.Session.RunFrame` | packages/form/src/components/Submitter/index.tsx:67-69 | If a frame callback is pending, the oldest one runs and leaves the queue. Otherwise nothing changes. |
| `SubmitterActions.ClickRunsActionUnlessPrevented` | packages/form/src/components/Submitter/index.tsx:81-95 | A click runs its button's action exactly when that bag's `preventDefault` is falsy. That means one form submit, or one field reset and one scheduled frame, more than before. A click never calls `onReset` synchronously. |
| `SubmitterActions.ClickForwardsEventLast` | packages/form/src/components/Submitter/index.tsx:81-95 | A click makes the default action's calls (none when prevented). If the bag has an `onClick`, it then calls it exactly once with the same event, as the last effect. Without an `onClick` the click makes no further call. |
| `SubmitterActions.ResetDefersOnReset` | packages/form/src/components/Submitter/index.tsx:65-70 | In any world, right after `reset` there is one more field reset and no new `onReset` call, and this reset's callback is queued behind those already pending. The frames that run the earlier callbacks make only their own calls. The next frame calls this reset's `onReset` exactly once if it was given, and nothing otherwise. |
| `SubmitterActions.FramesRunInOrder` | packages/form/src/components/Submitter/index.tsx:67-69 | After `k` frames the oldest `k` pending callbacks have run, in the order they were scheduled, and the rest still wait. |
| `SubmitterActions.StepKeepsResetBalanced` | packages/form/src/components/Submitter/index.tsx:65-70 | Every single step keeps the reset/`onReset` balance invariant `ResetBalanced`. |
| `SubmitterActions.RunKeepsResetBalanced` | packages/form/src/components/Submitter/index.tsx:65-70 | Any sequence of steps keeps `ResetBalanced`. |
| `SubmitterActions.OnResetNeverOutrunsReset` | packages/form/src/components/Submitter/index.tsx:65-70 | From a fresh bar, after any clicks, calls and frames, `onReset` has run no more often than the fields were reset. When `onReset` is given and no frame is pending, the two counts are equal. |
| `SubmitterActions.OnSubmitAlwaysFollowsFormSubmit` | packages/form/src/components/Submitter/index.tsx:60-63 | However the bar is used, every `onSubmit` call comes immediately after a form submit. |
| `SubmitterActions.PreventedSubmitNeverSubmits` | packages/form/src/components/Submitter/index.tsx:92-95 | With `submitButtonProps.preventDefault` truthy, no sequence of button clicks and frames submits the form. |
| `SubmitterActions.TraceOnlyGrows` | packages/form/src/components/Submitter/index.tsx:60-95 | No step rewrites an earlier effect: the old trace is always a prefix of the new one. |
| `SubmitterActions.PreventedSubmitScenario` | packages/form/src/components/Submitter/index.tsx:88-98 | Take a submit button with `preventDefault: true`, its own `onClick` and text `"Go"`. It shows "Go". Clicking it calls the handler with the event and does not submit the form. |

## Left out

- TypeScript generics (`T`, the `value?: T` callback parameter) are not modelled. The callbacks are always called with no arguments.
- Rendering internals of the button and layout primitives are not modelled. Elements are values, and how React mounts them is not part of this model.
- The message catalog behind `getMessage` is not modelled. It is a function parameter, so the model does not say what a given key translates to. It only says which key and fallback are asked for.
- `Truthy` does not model `NaN`, floating-point numbers or `document.all`. Numbers are integers.
- A `null` `searchConfig` or `null` button bag is not modelled. The prop types allow only `undefined`, which is modelled as `None` and behaves like `{}`. A `null` `searchConfig` would throw while it is destructured.
- The `ref` attribute, which React would also take out of a spread bag, is not modelled. Only `key`, `onClick` and the children are treated as set by the element.
- Exceptions thrown by `form.submit()`, `form.resetFields()`, `onSubmit`, `onReset` or a user `onClick` are not modelled. These collaborators are assumed to return. Only the TypeError from calling a non-callable `onClick` is modelled, as `Threw`.
- Side effects of the render override itself are not modelled. The override is a pure function parameter. Calls it makes to `submit`/`reset` are the `CallSubmit`/`CallReset` steps.
- Real frame timing is not modelled. Each `NextFrame` step runs the oldest pending callback. A browser frame that runs several callbacks is several steps.
- `Run` and the lemmas about it use one fixed configuration throughout. A re-render creates fresh closures over new props, and that is not modelled.
- The `useIntl()` hook call before the disabled check has no observable effect and is not modelled.
