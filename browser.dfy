/**
 * Browser from browser.py: the scroll offset and the zoom level the key
 * bindings change, the culling test `draw` applies to the display list, and
 * `layout_tree`, which collects what each layout object paints in pre-order.
 *
 * The window and canvas are not modelled: `draw` gives the list of texts it
 * would put on the canvas.
 */
module Browser {
  import opened Wrappers
  import opened Dom
  import opened LayoutFlow
  import opened Layout

  /** The window height the canvas is created with. */
  const HEIGHT: int := 600

  /** How far one arrow key scrolls. */
  const SCROLL_STEP: int := 18

  /** How much one zoom key changes the font size. */
  const ZOOM_STEP: int := 4

  // ---------------------------------------------------------------------------
  // Scroll and zoom

  /** `scroll_down`: always moves one step. */
  function ScrolledDown(scroll: int): (r: int)
    ensures r > scroll
  {
    scroll + SCROLL_STEP
  }

  /** `scroll_up`: moves one step back only while the page is scrolled. */
  function ScrolledUp(scroll: int): (r: int)
    ensures scroll > 0 ==> r < scroll
    ensures scroll <= 0 ==> r == scroll
  {
    if scroll > 0 then scroll - SCROLL_STEP else scroll
  }

  /** `magnify`: four points larger while below the maximum. */
  function Magnified(size: int, maximum: int): (r: int)
    ensures size < maximum ==> r > size
    ensures size >= maximum ==> r == size
  {
    if size < maximum then size + ZOOM_STEP else size
  }

  /** `reduce`: four points smaller while above the minimum. */
  function Reduced(size: int, minimum: int): (r: int)
    ensures size > minimum ==> r < size
    ensures size <= minimum ==> r == size
  {
    if size > minimum then size - ZOOM_STEP else size
  }

  /** A scroll offset `scroll_down` and `scroll_up` can reach from 0. */
  predicate ScrollOnGrid(scroll: int) {
    scroll >= 0 && scroll % SCROLL_STEP == 0
  }

  /** A font size within the bounds and a whole number of zoom steps from each. */
  predicate ZoomOnGrid(size: int, minimum: int, maximum: int) {
    minimum <= size <= maximum && (size - minimum) % ZOOM_STEP == 0 && (maximum - size) % ZOOM_STEP == 0
  }

  /** The four key bindings. */
  datatype Key = Down | Up | Plus | Minus

  /** What the window shows: the scroll offset and the font size. */
  datatype View = View(scroll: int, size: int)

  /** The state after one key press, with the document's bounds. */
  function Press(v: View, key: Key, minimum: int, maximum: int): View {
    match key
    case Down => v.(scroll := ScrolledDown(v.scroll))
    case Up => v.(scroll := ScrolledUp(v.scroll))
    case Plus => v.(size := Magnified(v.size, maximum))
    case Minus => v.(size := Reduced(v.size, minimum))
  }

  /** The state after a sequence of key presses. */
  function Run(v: View, keys: seq<Key>, minimum: int, maximum: int): View
    decreases |keys|
  {
    if keys == [] then v else Run(Press(v, keys[0], minimum, maximum), keys[1..], minimum, maximum)
  }

  /** One key press keeps the scroll on its grid and the size on its grid within the bounds. */
  lemma PressKeepsGrid(v: View, key: Key, minimum: int, maximum: int)
    requires ScrollOnGrid(v.scroll) && ZoomOnGrid(v.size, minimum, maximum)
    ensures var w := Press(v, key, minimum, maximum);
      ScrollOnGrid(w.scroll) && ZoomOnGrid(w.size, minimum, maximum)
  {
    match key
    case Up =>
      if v.scroll > 0 {
        assert v.scroll >= SCROLL_STEP;
      }
    case Plus =>
      if v.size < maximum {
        assert maximum - v.size >= ZOOM_STEP;
      }
    case Minus =>
      if v.size > minimum {
        assert v.size - minimum >= ZOOM_STEP;
      }
    case Down =>
  }

  /**
   * Any sequence of key presses from a state on the grids stays on them: the
   * scroll offset is a non-negative multiple of 18 and the size stays within
   * [minimum, maximum].
   */
  lemma {:induction false} RunKeepsGrid(v: View, keys: seq<Key>, minimum: int, maximum: int)
    requires ScrollOnGrid(v.scroll) && ZoomOnGrid(v.size, minimum, maximum)
    ensures var w := Run(v, keys, minimum, maximum);
      ScrollOnGrid(w.scroll) && ZoomOnGrid(w.size, minimum, maximum)
    decreases |keys|
  {
    if keys != [] {
      PressKeepsGrid(v, keys[0], minimum, maximum);
      RunKeepsGrid(Press(v, keys[0], minimum, maximum), keys[1..], minimum, maximum);
    }
  }

  /**
   * With the document's default sizes (16 points, bounded by 4 and 32) and
   * the window at the top, every sequence of key presses keeps the size
   * between 4 and 32 on the 4-point grid and the scroll a multiple of 18.
   */
  lemma DefaultsStayOnGrid(keys: seq<Key>)
    ensures var w := Run(View(0, 16), keys, 4, 32);
      ScrollOnGrid(w.scroll) && ZoomOnGrid(w.size, 4, 32) && 4 <= w.size <= 32
  {
    assert ZoomOnGrid(16, 4, 32);
    RunKeepsGrid(View(0, 16), keys, 4, 32);
  }

  /** Scroll keys leave the size alone, and zoom keys leave the scroll alone. */
  lemma {:induction false} ScrollAndZoomIndependent(v: View, keys: seq<Key>, minimum: int, maximum: int)
    requires forall k :: 0 <= k < |keys| ==> keys[k] == Down || keys[k] == Up
    ensures Run(v, keys, minimum, maximum).size == v.size
    decreases |keys|
  {
    if keys != [] {
      ScrollAndZoomIndependent(Press(v, keys[0], minimum, maximum), keys[1..], minimum, maximum);
    }
  }

  // ---------------------------------------------------------------------------
  // draw

  /** What `canvas.create_text` is given for one entry: the word moved up by the scroll offset. */
  datatype CanvasText = CanvasText(x: int, y: real, word: string, font: Font)

  /** The culling test of `draw`: the entry is neither below the window nor wholly above it. */
  predicate Visible(e: DisplayEntry, scroll: int, m: Metrics) {
    !(e.y > (scroll + HEIGHT) as real) && !(e.y + m.linespace(e.font.key) as real < scroll as real)
  }

  function Shift(e: DisplayEntry, scroll: int): CanvasText {
    CanvasText(e.x, e.y - scroll as real, e.word, e.font)
  }

  /** The texts `draw` puts on the canvas, in display-list order. */
  function Drawn(list: seq<DisplayEntry>, scroll: int, m: Metrics): seq<CanvasText> {
    if list == [] then []
    else
      var last := list[|list| - 1];
      Drawn(list[..|list| - 1], scroll, m) + (if Visible(last, scroll, m) then [Shift(last, scroll)] else [])
  }

  /** `draw`: one pass over the display list that skips the entries outside the window. */
  method Draw(list: seq<DisplayEntry>, scroll: int, m: Metrics) returns (texts: seq<CanvasText>)
    ensures texts == Drawn(list, scroll, m)
  {
    texts := [];
    for k := 0 to |list|
      invariant texts == Drawn(list[..k], scroll, m)
    {
      var e := list[k];
      assert list[..k + 1][..k] == list[..k];
      if e.y > (scroll + HEIGHT) as real {
        continue;
      }
      if e.y + m.linespace(e.font.key) as real < scroll as real {
        continue;
      }
      texts := texts + [CanvasText(e.x, e.y - scroll as real, e.word, e.font)];
    }
    assert list[..|list|] == list;
  }

  /** Every text drawn lies at least partly inside the window: its top at most HEIGHT, its bottom at least 0. */
  lemma {:induction false} DrawnOnScreen(list: seq<DisplayEntry>, scroll: int, m: Metrics)
    ensures forall t :: t in Drawn(list, scroll, m) ==> t.y <= HEIGHT as real && t.y + m.linespace(t.font.key) as real >= 0.0
    decreases |list|
  {
    if list != [] {
      DrawnOnScreen(list[..|list| - 1], scroll, m);
    }
  }

  /** An entry is drawn, moved up by the scroll offset, exactly when it passes the culling test. */
  lemma {:induction false} DrawnExactlyVisible(list: seq<DisplayEntry>, scroll: int, m: Metrics)
    ensures forall k :: 0 <= k < |list| && Visible(list[k], scroll, m) ==> Shift(list[k], scroll) in Drawn(list, scroll, m)
    ensures forall t :: t in Drawn(list, scroll, m) ==>
      exists k :: 0 <= k < |list| && Visible(list[k], scroll, m) && t == Shift(list[k], scroll)
    decreases |list|
  {
    if list != [] {
      var init := list[..|list| - 1];
      DrawnExactlyVisible(init, scroll, m);
      assert forall k :: 0 <= k < |init| ==> init[k] == list[k];
      forall t | t in Drawn(list, scroll, m)
        ensures exists k :: 0 <= k < |list| && Visible(list[k], scroll, m) && t == Shift(list[k], scroll)
      {
        if t !in Drawn(init, scroll, m) {
          assert Visible(list[|list| - 1], scroll, m) && t == Shift(list[|list| - 1], scroll);
        }
      }
    }
  }

  // ---------------------------------------------------------------------------
  // layout_tree

  /** A layout object as `layout_tree` sees it: what its `paint` returns, and its children. */
  datatype PaintNode = PaintNode(paint: seq<DisplayEntry>, children: seq<PaintNode>)

  /** Everything under a node in pre-order: its own paint output, then each child's subtree in order. */
  function Preorder(t: PaintNode): seq<DisplayEntry>
    decreases t, 1
  {
    t.paint + PreorderChildren(t, |t.children|)
  }

  /** The subtrees of the first k children of t, in order. */
  function PreorderChildren(t: PaintNode, k: nat): seq<DisplayEntry>
    requires k <= |t.children|
    decreases t, 0, k
  {
    if k == 0 then [] else PreorderChildren(t, k - 1) + Preorder(t.children[k - 1])
  }

  /** `layout_tree`: extend the list with the node's paint output, then recurse into each child in order. */
  method LayoutTree(t: PaintNode, list: seq<DisplayEntry>) returns (r: seq<DisplayEntry>)
    ensures r == list + Preorder(t)
    decreases t
  {
    r := list + t.paint;
    for k := 0 to |t.children|
      invariant r == list + t.paint + PreorderChildren(t, k)
    {
      r := LayoutTree(t.children[k], r);
    }
  }

  /** The subtrees of the children of t from the k-th on, in order. */
  function SubtreesFrom(t: PaintNode, k: nat): seq<DisplayEntry>
    requires k <= |t.children|
    decreases |t.children| - k
  {
    if k == |t.children| then [] else Preorder(t.children[k]) + SubtreesFrom(t, k + 1)
  }

  /** The children's subtrees split at any child k: those before it, then those from it on. */
  lemma {:induction false} SubtreesSplit(t: PaintNode, k: nat)
    requires k <= |t.children|
    ensures PreorderChildren(t, |t.children|) == PreorderChildren(t, k) + SubtreesFrom(t, k)
    decreases |t.children| - k
  {
    if k < |t.children| {
      SubtreesSplit(t, k + 1);
      assert PreorderChildren(t, k + 1) == PreorderChildren(t, k) + Preorder(t.children[k]);
    }
  }

  /**
   * Pre-order: a node's paint output comes first, then the subtrees of the
   * children before child k, then child k's own subtree as one block, then
   * the subtrees of the children after it.
   */
  lemma ChildSubtreeAt(t: PaintNode, k: nat)
    requires k < |t.children|
    ensures Preorder(t) == t.paint + PreorderChildren(t, k) + Preorder(t.children[k]) + SubtreesFrom(t, k + 1)
  {
    SubtreesSplit(t, k);
  }

  // ---------------------------------------------------------------------------
  // The browser

  /**
   * The state the key bindings change: the scroll offset and the document,
   * whose font size `magnify` and `reduce` move and which they lay out again.
   */
  class Browser {
    var scroll: int
    const document: DocumentLayout

    /** A browser showing a loaded document, scrolled to the top. */
    constructor (document: DocumentLayout)
      ensures this.document == document && scroll == 0
    {
      this.document := document;
      scroll := 0;
    }

    method ScrollDown()
      modifies this
      ensures scroll == ScrolledDown(old(scroll))
    {
      scroll := scroll + SCROLL_STEP;
    }

    method ScrollUp()
      modifies this
      ensures scroll == ScrolledUp(old(scroll))
    {
      if scroll > 0 {
        scroll := scroll - SCROLL_STEP;
      }
    }

    /** `magnify`: below the maximum, four points larger and laid out again; otherwise nothing changes. */
    method Magnify()
      modifies document
      ensures document.fontSize == Magnified(old(document.fontSize), document.maximumFontSize)
      ensures old(document.fontSize) < document.maximumFontSize ==>
        Placements(document.displayList) == LayoutFlow.LayoutFlow(LayoutFlow.Env(document.width, None, document.metrics), document.fontSize, document.dom).display
      ensures old(document.fontSize) >= document.maximumFontSize ==> unchanged(document)
    {
      if document.fontSize < document.maximumFontSize {
        document.fontSize := document.fontSize + ZOOM_STEP;
        var _ := document.Layout();
      }
    }

    /** `reduce`: above the minimum, four points smaller and laid out again; otherwise nothing changes. */
    method Reduce()
      modifies document
      ensures document.fontSize == Reduced(old(document.fontSize), document.minimumFontSize)
      ensures old(document.fontSize) > document.minimumFontSize ==>
        Placements(document.displayList) == LayoutFlow.LayoutFlow(LayoutFlow.Env(document.width, None, document.metrics), document.fontSize, document.dom).display
      ensures old(document.fontSize) <= document.minimumFontSize ==> unchanged(document)
    {
      if document.fontSize > document.minimumFontSize {
        document.fontSize := document.fontSize - ZOOM_STEP;
        var _ := document.Layout();
      }
    }
  }
}
