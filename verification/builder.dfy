/** The canvas of the component builder (src/app/app/builder/page.tsx): a
    zoom percentage stepped by 25 between 25 and 200, starting at 100, and
    the selected one of three sample elements, "button-1" when the page
    opens. */
module Builder {
  import opened Seqs

  const MinZoom := 25
  const MaxZoom := 200
  const ZoomStep := 25
  const InitialZoom := 100
  const InitialSelection := "button-1"

  /** `Math.min(200, zoom + 25)`. */
  function ZoomIn(zoom: int): (r: int)
    ensures r <= MaxZoom
    ensures zoom + ZoomStep <= MaxZoom ==> r == zoom + ZoomStep
    ensures zoom + ZoomStep > MaxZoom ==> r == MaxZoom
  {
    if zoom + ZoomStep < MaxZoom then zoom + ZoomStep else MaxZoom
  }

  /** `Math.max(25, zoom - 25)`. */
  function ZoomOut(zoom: int): (r: int)
    ensures r >= MinZoom
    ensures zoom - ZoomStep >= MinZoom ==> r == zoom - ZoomStep
    ensures zoom - ZoomStep < MinZoom ==> r == MinZoom
  {
    if zoom - ZoomStep > MinZoom then zoom - ZoomStep else MinZoom
  }

  /** A zoom level the buttons can show. */
  ghost predicate ValidZoom(zoom: int)
  {
    MinZoom <= zoom <= MaxZoom && zoom % ZoomStep == 0
  }

  datatype ZoomClick = In | Out

  function Click(zoom: int, c: ZoomClick): int
  {
    match c
    case In => ZoomIn(zoom)
    case Out => ZoomOut(zoom)
  }

  /** The zoom after a sequence of clicks. */
  function Clicks(zoom: int, cs: seq<ZoomClick>): int
    decreases |cs|
  {
    if |cs| == 0 then zoom else Clicks(Click(zoom, cs[0]), cs[1..])
  }

  /** One click keeps a valid zoom valid. */
  lemma ClickKeepsValid(zoom: int, c: ZoomClick)
    requires ValidZoom(zoom)
    ensures ValidZoom(Click(zoom, c))
  {
  }

  /** From the initial zoom, whatever the clicks, the zoom stays a multiple of
      25 within 25..200. */
  lemma {:induction false} ClicksKeepValid(zoom: int, cs: seq<ZoomClick>)
    requires ValidZoom(zoom)
    ensures ValidZoom(Clicks(zoom, cs))
    decreases |cs|
  {
    if |cs| > 0 {
      ClickKeepsValid(zoom, cs[0]);
      ClicksKeepValid(Click(zoom, cs[0]), cs[1..]);
    }
  }

  lemma SessionZoomIsValid(cs: seq<ZoomClick>)
    ensures ValidZoom(Clicks(InitialZoom, cs))
  {
    ClicksKeepValid(InitialZoom, cs);
  }

  /** The clamps: zooming out at the minimum and in at the maximum changes
      nothing. */
  lemma ClampsAreNoOps()
    ensures ZoomOut(MinZoom) == MinZoom && ZoomIn(MaxZoom) == MaxZoom
  {
  }

  /** Away from the bounds the two buttons undo each other. */
  lemma ZoomInOutInverse(zoom: int)
    requires ValidZoom(zoom)
    ensures zoom < MaxZoom ==> ZoomOut(ZoomIn(zoom)) == zoom
    ensures zoom > MinZoom ==> ZoomIn(ZoomOut(zoom)) == zoom
  {
  }

  /** The clicks that reach a valid zoom from the initial one. */
  function PathTo(zoom: int): (cs: seq<ZoomClick>)
    requires ValidZoom(zoom)
  {
    if zoom >= InitialZoom then seq((zoom - InitialZoom) / ZoomStep, _ => In)
    else seq((InitialZoom - zoom) / ZoomStep, _ => Out)
  }

  lemma {:induction false} RepeatIn(zoom: int, n: nat)
    requires ValidZoom(zoom) && zoom + n * ZoomStep <= MaxZoom
    ensures Clicks(zoom, seq(n, _ => In)) == zoom + n * ZoomStep
    decreases n
  {
    if n > 0 {
      var cs := seq(n, _ => In);
      assert cs[0] == In && cs[1..] == seq(n - 1, _ => In);
      RepeatIn(zoom + ZoomStep, n - 1);
    }
  }

  lemma {:induction false} RepeatOut(zoom: int, n: nat)
    requires ValidZoom(zoom) && zoom - n * ZoomStep >= MinZoom
    ensures Clicks(zoom, seq(n, _ => Out)) == zoom - n * ZoomStep
    decreases n
  {
    if n > 0 {
      var cs := seq(n, _ => Out);
      assert cs[0] == Out && cs[1..] == seq(n - 1, _ => Out);
      RepeatOut(zoom - ZoomStep, n - 1);
    }
  }

  /** Every valid zoom level can be reached from the initial one: together
      with `SessionZoomIsValid` the reachable levels are exactly the eight
      multiples of 25 from 25 to 200. */
  lemma EveryValidZoomReachable(zoom: int)
    requires ValidZoom(zoom)
    ensures Clicks(InitialZoom, PathTo(zoom)) == zoom
  {
    if zoom >= InitialZoom {
      RepeatIn(InitialZoom, (zoom - InitialZoom) / ZoomStep);
    } else {
      RepeatOut(InitialZoom, (InitialZoom - zoom) / ZoomStep);
    }
  }

  // ---------------------------------------------------------------------
  // Selection

  /** The three sample elements on the canvas. */
  datatype Element = ButtonOne | InputOne | CardOne

  /** The id a click on the element selects. */
  function ElementId(e: Element): string
  {
    match e
    case ButtonOne => "button-1"
    case InputOne => "input-1"
    case CardOne => "card-1"
  }

  /** `selectedElement` and `zoom`. */
  datatype Canvas = Canvas(selected: Option<string>, zoom: int)

  const InitialCanvas := Canvas(Some(InitialSelection), InitialZoom)

  /** What the user can do on the canvas: click a zoom button, or click an
      element. */
  datatype Action = ZoomBy(click: ZoomClick) | Pick(element: Element)

  function Apply(c: Canvas, a: Action): Canvas
  {
    match a
    case ZoomBy(z) => c.(zoom := Click(c.zoom, z))
    case Pick(e) => c.(selected := Some(ElementId(e)))
  }

  function Run(c: Canvas, actions: seq<Action>): Canvas
    decreases |actions|
  {
    if |actions| == 0 then c else Run(Apply(c, actions[0]), actions[1..])
  }

  /** An element is drawn with the primary border iff it is the selected
      one. */
  predicate Highlighted(c: Canvas, e: Element)
  {
    c.selected == Some(ElementId(e))
  }

  /** The zoom clicks of a sequence of actions, in order. */
  function ZoomClicksOf(actions: seq<Action>): (r: seq<ZoomClick>)
    ensures |r| <= |actions|
    decreases |actions|
  {
    if |actions| == 0 then []
    else if actions[0].ZoomBy? then [actions[0].click] + ZoomClicksOf(actions[1..])
    else ZoomClicksOf(actions[1..])
  }

  /** The element picked last, if any. */
  function LastPick(actions: seq<Action>): (r: Option<Element>)
    ensures r.Some? ==> exists k :: 0 <= k < |actions| && actions[k] == Pick(r.value)
    ensures r.None? ==> forall k :: 0 <= k < |actions| ==> actions[k].ZoomBy?
    decreases |actions|
  {
    if |actions| == 0 then None
    else
      var later := LastPick(actions[1..]);
      if later.Some? then later
      else if actions[0].Pick? then Some(actions[0].element)
      else None
  }

  /** Selection and zoom do not interfere: the zoom is what the zoom clicks
      alone give, the selection is the last element picked, or the one
      before the session when nothing was picked. */
  lemma {:induction false} RunSeparates(c: Canvas, actions: seq<Action>)
    ensures Run(c, actions).zoom == Clicks(c.zoom, ZoomClicksOf(actions))
    ensures Run(c, actions).selected ==
      (match LastPick(actions) case Some(e) => Some(ElementId(e)) case None => c.selected)
    decreases |actions|
  {
    if |actions| > 0 {
      RunSeparates(Apply(c, actions[0]), actions[1..]);
      if actions[0].ZoomBy? {
        assert ([actions[0].click] + ZoomClicksOf(actions[1..]))[1..] == ZoomClicksOf(actions[1..]);
      }
    }
  }

  /** After any session on the opened canvas, exactly one element is
      highlighted and the zoom is valid. */
  lemma CanvasSessionWellFormed(actions: seq<Action>)
    ensures var c := Run(InitialCanvas, actions);
      && ValidZoom(c.zoom)
      && (exists e :: Highlighted(c, e))
      && (forall e1, e2 :: Highlighted(c, e1) && Highlighted(c, e2) ==> e1 == e2)
  {
    RunSeparates(InitialCanvas, actions);
    SessionZoomIsValid(ZoomClicksOf(actions));
    var c := Run(InitialCanvas, actions);
    match LastPick(actions)
    case Some(e) => assert Highlighted(c, e);
    case None => assert Highlighted(c, ButtonOne);
  }
}
