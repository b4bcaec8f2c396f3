/**
 * The render-time decisions of the form action bar (`Submitter`): the
 * disabled switch, the button labels, the props each default button forwards,
 * the two default buttons, and the normalisation of a render override's
 * result. Everything here is a value computed from the configuration; what
 * the buttons do when clicked is in module SubmitterActions.
 */
module Submitter {
  import opened Nodes

  /** A button property bag (`ButtonProps & { preventDefault?: boolean }`). */
  type Bag = map<string, Node>

  /** `searchConfig`; an entry that is `Undefined` was not given. */
  datatype SearchConfig = SearchConfig(resetText: Node, submitText: Node)

  /** `render`: absent (or any other falsy value), the literal `false`, or an override function. */
  datatype RenderOption = NoRender | Disabled | Override(fn: Callback)

  /** The action bar's props; `None` is a prop left `undefined`. */
  datatype Props = Props(
    form: nat,
    onSubmit: Option<Callback>,
    onReset: Option<Callback>,
    searchConfig: Option<SearchConfig>,
    submitButtonProps: Option<Bag>,
    resetButtonProps: Option<Bag>,
    render: RenderOption)

  /** The two action closures handed to a render override; their behaviour is SubmitterActions.Session.Submit and .Reset. */
  datatype Action = SubmitAction | ResetAction

  /** What a render override receives as its first argument: all props, plus `submit` and `reset`. */
  datatype RenderArgs = RenderArgs(props: Props, submit: Action, reset: Action)

  /** The message catalog's `getMessage(key, fallback)`. */
  type Catalog = (string, string) -> string

  /** What the caller's override function returns for given arguments and default buttons. */
  type Renderer = (Callback, RenderArgs, seq<Node>) -> Node

  const SubmitKey := "tableForm.submit"
  const ResetKey := "tableForm.reset"
  // 提交 ("submit") and 重置 ("reset")
  const SubmitFallback := "\U{63D0}\U{4EA4}"
  const ResetFallback := "\U{91CD}\U{7F6E}"

  /** The attributes the JSX sets after the spread: the React key, the click handler and the children. */
  const ElementOwned: set<string> := {"key", "onClick", "children"}

  /** The text `searchConfig` gives for one button; `undefined` when the config or the entry is missing. */
  function GivenText(sc: Option<SearchConfig>, side: Side): Node
  {
    match sc
    case None => Undefined
    case Some(c) => if side == ResetButton then c.resetText else c.submitText
  }

  /**
   * A button's label: the destructuring default `submitText = getMessage(…)`
   * applies exactly when the given entry is `undefined`, and an absent
   * `searchConfig` behaves like `{}`.
   */
  function ButtonText(sc: Option<SearchConfig>, side: Side, intl: Catalog): (r: Node)
    ensures sc.Some? && side == SubmitButton && sc.value.submitText != Undefined ==> r == sc.value.submitText
    ensures sc.Some? && side == ResetButton && sc.value.resetText != Undefined ==> r == sc.value.resetText
    ensures side == SubmitButton && (sc.None? || sc.value.submitText == Undefined) ==> r == Str(intl(SubmitKey, SubmitFallback))
    ensures side == ResetButton && (sc.None? || sc.value.resetText == Undefined) ==> r == Str(intl(ResetKey, ResetFallback))
  {
    var given := GivenText(sc, side);
    if given != Undefined then given
    else if side == SubmitButton then Str(intl(SubmitKey, SubmitFallback))
    else Str(intl(ResetKey, ResetFallback))
  }

  /** `omit(bag, keys)`: a copy of the bag without the given keys. */
  function Omit(bag: Bag, keys: set<string>): (r: Bag)
    ensures r.Keys == bag.Keys - keys
    ensures forall k :: k in r ==> r[k] == bag[k]
  {
    bag - keys
  }

  /** The bag a button's handler reads: `resetButtonProps = {}` and `submitButtonProps || {}`. */
  function BagOf(p: Props, side: Side): (bag: Bag)
    ensures side == ResetButton ==> bag == if p.resetButtonProps.Some? then p.resetButtonProps.value else map[]
    ensures side == SubmitButton ==> bag == if p.submitButtonProps.Some? then p.submitButtonProps.value else map[]
  {
    var given := if side == ResetButton then p.resetButtonProps else p.submitButtonProps;
    match given
    case None => map[]
    case Some(b) => b
  }

  /**
   * The props a default button passes to the button primitive: for the submit
   * button `type="primary"` first, then the bag without `preventDefault`
   * spread over it; the key, the click handler and the children are set by
   * the element itself and do not come from the bag.
   */
  function ForwardedProps(bag: Bag, side: Side): (r: Bag)
    ensures "preventDefault" !in r
    ensures forall k :: k in ElementOwned ==> k !in r
    ensures forall k :: k in bag && k != "preventDefault" && k !in ElementOwned ==> k in r && r[k] == bag[k]
    ensures side == ResetButton ==> r.Keys == bag.Keys - ElementOwned - {"preventDefault"}
    ensures side == SubmitButton ==> r.Keys == (bag.Keys + {"type"}) - ElementOwned - {"preventDefault"}
    ensures side == SubmitButton ==> r["type"] == if "type" in bag then bag["type"] else Str("primary")
  {
    var defaults: Bag := if side == SubmitButton then map["type" := Str("primary")] else map[];
    Omit(defaults + Omit(bag, {"preventDefault"}), ElementOwned)
  }

  function ButtonKey(side: Side): string
  {
    if side == ResetButton then "rest" else "submit"
  }

  /** One default button: `<Button {...forwarded} key=… onClick=…>{text}</Button>`. */
  function DefaultButton(p: Props, side: Side, intl: Catalog): Element
  {
    Button(ButtonKey(side), ForwardedProps(BagOf(p, side), side), side, ButtonText(p.searchConfig, side, intl))
  }

  /**
   * The default button list: the reset button (key "rest") and then the
   * submit button (key "submit"), each bound to its own click handler and
   * labelled by ButtonText.
   */
  function DefaultButtons(p: Props, intl: Catalog): (dom: seq<Node>)
    ensures |dom| == 2
    ensures forall i | 0 <= i < 2 :: dom[i].Elem? && dom[i].element.Button?
    ensures dom[0].element.key == "rest" && dom[0].element.onClick == ResetButton
    ensures dom[1].element.key == "submit" && dom[1].element.onClick == SubmitButton
    ensures forall i | 0 <= i < 2 :: "preventDefault" !in dom[i].element.props
    ensures dom[0].element.props == ForwardedProps(BagOf(p, ResetButton), ResetButton)
    ensures dom[1].element.props == ForwardedProps(BagOf(p, SubmitButton), SubmitButton)
    ensures dom[0].element.text == ButtonText(p.searchConfig, ResetButton, intl)
    ensures dom[1].element.text == ButtonText(p.searchConfig, SubmitButton, intl)
  {
    [Elem(DefaultButton(p, ResetButton, intl)), Elem(DefaultButton(p, SubmitButton, intl))]
  }

  /**
   * The normalisation of what `render` produced: a falsy value gives nothing,
   * an array gives nothing when empty and otherwise its elements, in order,
   * inside the layout container, and any other value is returned as it is.
   */
  function Normalise(v: Node): (r: Node)
    ensures !Truthy(v) ==> r == Null
    ensures v.Array? && |v.items| == 0 ==> r == Null
    ensures v.Array? && |v.items| >= 1 ==> r == Elem(Space(v.items))
    ensures Truthy(v) && !v.Array? ==> r == v
    ensures !r.Array?
  {
    if !Truthy(v) then Null
    else if v.Array? then (if |v.items| < 1 then Null else Elem(Space(v.items)))
    else v
  }

  /**
   * The action bar: nothing when `render` is `false`, whatever else is
   * configured; otherwise the default buttons, or the override's result for
   * the props extended with `submit` and `reset` and the default buttons,
   * normalised.
   */
  function Render(p: Props, intl: Catalog, callRender: Renderer): (r: Node)
    ensures p.render.Disabled? ==> r == Null
    ensures p.render.NoRender? ==> r == Elem(Space(DefaultButtons(p, intl)))
    ensures p.render.Override? ==>
      r == Normalise(callRender(p.render.fn, RenderArgs(p, SubmitAction, ResetAction), DefaultButtons(p, intl)))
    ensures r == Null || (r.Elem? && r.element.Space? && |r.element.children| >= 1) || (p.render.Override? && Truthy(r))
  {
    if p.render.Disabled? then Null
    else
      var dom := DefaultButtons(p, intl);
      var renderDom := if p.render.Override? then callRender(p.render.fn, RenderArgs(p, SubmitAction, ResetAction), dom) else Array(dom);
      Normalise(renderDom)
  }
}
