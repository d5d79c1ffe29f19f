/**
 * The inline text flow of BlockLayout in layout.py, as functions of its
 * state: the cursor, the font state, the line buffer and the display list.
 * The classes in layout.dfy are proved to move their fields exactly as these
 * functions say.
 *
 * Fonts are identified by their key (family, size, weight, slant). Text
 * measurement comes from the windowing toolkit and is given here as a
 * `Metrics` value: total functions of the key with natural results.
 */
module LayoutFlow {
  import opened Wrappers
  import opened Strings
  import opened Dom

  datatype Weight = Normal | Bold
  datatype Slant = Roman | Italic

  /** What `get_font` looks fonts up by. */
  datatype FontKey = FontKey(family: Option<string>, size: int, weight: Weight, slant: Slant)

  /** Width of a word, and ascent, descent and line spacing of a font, in pixels. */
  datatype Metrics = Metrics(
    measure: (FontKey, string) -> nat,
    ascent: FontKey -> nat,
    descent: FontKey -> nat,
    linespace: FontKey -> nat)

  /** Left margin and first line. */
  const HSTEP: int := 13
  const VSTEP: int := 16

  /** An entry of the line buffer: x, word, font. */
  datatype Item = Item(x: int, word: string, font: FontKey)

  /** An entry of the display list: x, y, word, font. */
  datatype Placed = Placed(x: int, y: real, word: string, font: FontKey)

  /** Everything BlockLayout changes while it lays out a tree. */
  datatype Flow = Flow(
    cursorX: int,
    cursorY: real,
    size: int,
    weight: Weight,
    slant: Slant,
    tmpSize: int,
    line: seq<Item>,
    display: seq<Placed>)

  /** What stays fixed during one layout: the width, the font family and the metrics. */
  datatype Env = Env(width: int, family: Option<string>, m: Metrics)

  /** The state a fresh BlockLayout starts in, at a given font size. */
  function Start(size: int): (f: Flow)
    ensures f.line == [] && f.display == []
  {
    Flow(HSTEP, VSTEP as real, size, Normal, Roman, size, [], [])
  }

  /** The font the current state asks `get_font` for. */
  function CurrentFont(f: Flow, e: Env): FontKey {
    FontKey(e.family, f.size, f.weight, f.slant)
  }

  /** Python's int() of size * num / den: the quotient truncated toward zero. */
  function Scale(size: int, num: nat, den: nat): int
    requires den > 0
  {
    var p := size * num;
    if p >= 0 then p / den else -((-p) / den)
  }

  // ---------------------------------------------------------------------------
  // set_position

  /** The largest ascent in the line (0 for an empty line). */
  function MaxAscent(line: seq<Item>, m: Metrics): nat {
    if line == [] then 0
    else
      var a := m.ascent(line[|line| - 1].font);
      var rest := MaxAscent(line[..|line| - 1], m);
      if a >= rest then a else rest
  }

  /** The largest descent in the line (0 for an empty line). */
  function MaxDescent(line: seq<Item>, m: Metrics): nat {
    if line == [] then 0
    else
      var d := m.descent(line[|line| - 1].font);
      var rest := MaxDescent(line[..|line| - 1], m);
      if d >= rest then d else rest
  }

  /** MaxAscent is the largest ascent of the line, and some word of a non-empty line has it. */
  lemma {:induction false} MaxAscentIsMax(line: seq<Item>, m: Metrics)
    ensures forall k :: 0 <= k < |line| ==> m.ascent(line[k].font) <= MaxAscent(line, m)
    ensures line != [] ==> exists k :: 0 <= k < |line| && m.ascent(line[k].font) == MaxAscent(line, m)
    decreases |line|
  {
    if line != [] {
      var init := line[..|line| - 1];
      MaxAscentIsMax(init, m);
      assert forall k :: 0 <= k < |init| ==> init[k] == line[k];
      var last := |line| - 1;
      if m.ascent(line[last].font) >= MaxAscent(init, m) {
        assert m.ascent(line[last].font) == MaxAscent(line, m);
      } else {
        var t :| 0 <= t < |init| && m.ascent(init[t].font) == MaxAscent(init, m);
        assert line[t] == init[t];
        assert m.ascent(line[t].font) == MaxAscent(line, m);
      }
    }
  }

  /** MaxDescent is the largest descent of the line. */
  lemma {:induction false} MaxDescentIsMax(line: seq<Item>, m: Metrics)
    ensures forall k :: 0 <= k < |line| ==> m.descent(line[k].font) <= MaxDescent(line, m)
    decreases |line|
  {
    if line != [] {
      var init := line[..|line| - 1];
      MaxDescentIsMax(init, m);
      assert forall k :: 0 <= k < |init| ==> init[k] == line[k];
    }
  }

  /** The baseline of the line when its top is at y. */
  function Baseline(y: real, line: seq<Item>, m: Metrics): real {
    y + 1.25 * MaxAscent(line, m) as real
  }

  /** Where one buffered word goes: its own x, and a y that puts it on the baseline. */
  function PlaceItem(it: Item, baseline: real, m: Metrics): Placed {
    Placed(it.x, baseline - 1.25 * m.ascent(it.font) as real, it.word, it.font)
  }

  /** The buffered words placed on a baseline, in order. */
  function PlaceLine(line: seq<Item>, baseline: real, m: Metrics): (r: seq<Placed>)
    ensures |r| == |line|
  {
    seq(|line|, k requires 0 <= k < |line| => PlaceItem(line[k], baseline, m))
  }

  /**
   * `set_position`: an empty line changes nothing. Otherwise every buffered
   * word goes to the display list on a common baseline, the cursor goes to
   * the left margin of the next line, and the buffer is emptied.
   */
  function SetPosition(f: Flow, m: Metrics): (r: Flow)
    ensures r.line == []
    ensures r.size == f.size && r.weight == f.weight && r.slant == f.slant && r.tmpSize == f.tmpSize
    ensures f.line == [] ==> r == f
  {
    if f.line == [] then f
    else
      var baseline := Baseline(f.cursorY, f.line, m);
      f.(display := f.display + PlaceLine(f.line, baseline, m),
         cursorX := HSTEP,
         cursorY := baseline + 1.25 * MaxDescent(f.line, m) as real,
         line := [])
  }

  /**
   * `set_position` on a non-empty line moves the cursor to the left margin,
   * and down by 1.25 times the tallest ascent plus the deepest descent, so
   * it never goes up.
   */
  lemma SetPositionMovesCursor(f: Flow, m: Metrics)
    requires f.line != []
    ensures var r := SetPosition(f, m);
      && r.cursorX == HSTEP
      && r.cursorY == f.cursorY + 1.25 * (MaxAscent(f.line, m) + MaxDescent(f.line, m)) as real
      && r.cursorY >= f.cursorY
  {
  }

  /**
   * Baseline alignment of one line whose top is at y: every word keeps its
   * x, text and font, sits with its own ascent (times 1.25) above one common
   * baseline, and lies at or below y; a word of the tallest ascent lies
   * exactly at y.
   */
  lemma PlaceLineAligns(line: seq<Item>, y: real, m: Metrics)
    requires line != []
    ensures var placed := PlaceLine(line, Baseline(y, line, m), m);
      && (forall k :: 0 <= k < |line| ==>
            && placed[k].x == line[k].x && placed[k].word == line[k].word && placed[k].font == line[k].font
            && placed[k].y + 1.25 * m.ascent(line[k].font) as real == Baseline(y, line, m)
            && placed[k].y >= y)
      && (exists k :: 0 <= k < |line| && placed[k].y == y)
  {
    var b := Baseline(y, line, m);
    var placed := PlaceLine(line, b, m);
    MaxAscentIsMax(line, m);
    var t :| 0 <= t < |line| && m.ascent(line[t].font) == MaxAscent(line, m);
    assert placed[t] == PlaceItem(line[t], b, m);
  }

  /**
   * Flushing a non-empty line: the display list only grows, by the line's
   * words in order at their own x, all on the common baseline of the line,
   * every one at or below the old cursor, and a word of the tallest ascent
   * exactly at it.
   */
  lemma SetPositionAligns(f: Flow, m: Metrics)
    requires f.line != []
    ensures var r := SetPosition(f, m);
      && |r.display| == |f.display| + |f.line|
      && r.display[..|f.display|] == f.display
      && (forall k :: 0 <= k < |f.line| ==>
            var p := r.display[|f.display| + k];
            && p.x == f.line[k].x && p.word == f.line[k].word && p.font == f.line[k].font
            && p.y + 1.25 * m.ascent(f.line[k].font) as real == Baseline(f.cursorY, f.line, m)
            && p.y >= f.cursorY)
      && (exists j :: |f.display| <= j < |r.display| && r.display[j].y == f.cursorY)
  {
    var placed := PlaceLine(f.line, Baseline(f.cursorY, f.line, m), m);
    var r := SetPosition(f, m);
    assert r.display == f.display + placed;
    PlaceLineAligns(f.line, f.cursorY, m);
    var t :| 0 <= t < |f.line| && placed[t].y == f.cursorY;
    assert r.display[|f.display| + t] == placed[t];
  }

  // ---------------------------------------------------------------------------
  // set_text

  /** The wrap test of `set_text`: the word would reach the right edge, and it is narrower than the page. */
  predicate Wraps(cursorX: int, w: int, width: int) {
    cursorX + w >= width && width > w
  }

  /**
   * One word of `set_text`: flush the line first when the word wraps, then
   * buffer the word at the cursor and move the cursor past it and a space.
   */
  function PlaceWord(f: Flow, e: Env, font: FontKey, word: string): Flow {
    var w := e.m.measure(font, word);
    var g := if Wraps(f.cursorX, w, e.width) then SetPosition(f, e.m) else f;
    g.(line := g.line + [Item(g.cursorX, word, font)],
       cursorX := g.cursorX + w + e.m.measure(font, " "))
  }

  /** The words of `set_text` placed one after another, first to last. */
  function PlaceWords(f: Flow, e: Env, font: FontKey, words: seq<string>): Flow
    decreases |words|
  {
    if words == [] then f
    else PlaceWord(PlaceWords(f, e, font, words[..|words| - 1]), e, font, words[|words| - 1])
  }

  /** `set_text`: the text's whitespace-separated words, in the font of the current state. */
  function SetText(f: Flow, e: Env, text: string): Flow {
    PlaceWords(f, e, CurrentFont(f, e), SplitWords(text))
  }

  /**
   * The wrap rule. A word that wraps after a non-empty line starts a new line
   * at the left margin; a word that does not wrap joins the current line at
   * the cursor without touching the display list. Either way the cursor ends
   * up past the word and one space, and the font state does not change.
   */
  lemma PlaceWordWraps(f: Flow, e: Env, font: FontKey, word: string)
    ensures var r := PlaceWord(f, e, font, word);
      var w := e.m.measure(font, word);
      && r.size == f.size && r.weight == f.weight && r.slant == f.slant && r.tmpSize == f.tmpSize
      && (Wraps(f.cursorX, w, e.width) && f.line != [] ==>
            r.line == [Item(HSTEP, word, font)] && r.display == SetPosition(f, e.m).display
            && r.cursorX == HSTEP + w + e.m.measure(font, " "))
      && (!Wraps(f.cursorX, w, e.width) || f.line == [] ==>
            r.line == f.line + [Item(f.cursorX, word, font)] && r.display == f.display
            && r.cursorX == f.cursorX + w + e.m.measure(font, " "))
  {
  }

  /** A word at least as wide as the page never causes a flush before it. */
  lemma WideWordStays(f: Flow, e: Env, font: FontKey, word: string)
    requires e.m.measure(font, word) >= e.width
    ensures PlaceWord(f, e, font, word).display == f.display
    ensures PlaceWord(f, e, font, word).line == f.line + [Item(f.cursorX, word, font)]
  {
  }

  // ---------------------------------------------------------------------------
  // open_tag and close_tag

  /** The tags `open_tag` and `close_tag` tell apart; every other tag is `Other`. */
  datatype TagKind = BoldTag | ItalicTag | SmallTag | BigTag | BreakTag | ParaTag | Heading(level: nat) | Other

  /** How a tag name is classified: exact, case-sensitive comparison, `br/` and `br /` counting as `br`. */
  function Kind(tag: string): (k: TagKind)
    ensures k.Heading? ==> 1 <= k.level <= 6
  {
    if tag == "b" then BoldTag
    else if tag == "i" then ItalicTag
    else if tag == "small" then SmallTag
    else if tag == "big" then BigTag
    else if tag == "br" || tag == "br/" || tag == "br /" then BreakTag
    else if tag == "p" then ParaTag
    else if tag == "h1" then Heading(1)
    else if tag == "h2" then Heading(2)
    else if tag == "h3" then Heading(3)
    else if tag == "h4" then Heading(4)
    else if tag == "h5" then Heading(5)
    else if tag == "h6" then Heading(6)
    else Other
  }

  /** The factor a heading level scales the size by, as numerator and denominator: 3, 2, 1.5, 1.1, 0.8, 0.5. */
  function HeadingFactor(level: nat): (nat, nat) {
    if level == 1 then (3, 1)
    else if level == 2 then (2, 1)
    else if level == 3 then (3, 2)
    else if level == 4 then (11, 10)
    else if level == 5 then (4, 5)
    else (1, 2)
  }

  /** `open_tag`: the font and cursor changes an opening tag makes; any other tag changes nothing. */
  function OpenTag(f: Flow, m: Metrics, k: TagKind): Flow {
    match k
    case BoldTag => f.(weight := Bold)
    case ItalicTag => f.(slant := Italic)
    case SmallTag => f.(size := f.size - 2)
    case BigTag => f.(size := f.size + 4)
    case BreakTag => SetPosition(f, m)
    case ParaTag =>
      var g := SetPosition(f, m);
      g.(cursorY := g.cursorY + g.size as real)
    case Heading(level) =>
      var g := SetPosition(f, m);
      var (num, den) := HeadingFactor(level);
      if level == 4 then
        // h4 scales the saved size and saves nothing
        var size := Scale(g.tmpSize, num, den);
        g.(size := size, weight := Bold, cursorY := g.cursorY + size as real / 4.0)
      else
        var size := Scale(g.size, num, den);
        g.(tmpSize := g.size, size := size, weight := Bold, cursorY := g.cursorY + size as real / 4.0)
    case Other => f
  }

  /** `close_tag`: undo what the opening tag did to the font, and add the closing spacing. */
  function CloseTag(f: Flow, m: Metrics, k: TagKind): Flow {
    match k
    case BoldTag => f.(weight := Normal)
    case ItalicTag => f.(slant := Roman)
    case SmallTag => f.(size := f.size + 2)
    case BigTag => f.(size := f.size - 4)
    case ParaTag =>
      var g := SetPosition(f, m);
      g.(cursorY := g.cursorY + g.size as real)
    case Heading(_) =>
      var g := SetPosition(f, m);
      g.(cursorY := g.cursorY + g.size as real / 2.0, size := g.tmpSize, weight := Normal)
    case BreakTag => f
    case Other => f
  }

  /** Tags outside the tables change nothing; `br` does nothing when it closes. */
  lemma UnknownTagsChangeNothing(f: Flow, m: Metrics, tag: string)
    ensures Kind(tag) == Other <==> !(tag in {"b", "i", "small", "big", "br", "br/", "br /", "p", "h1", "h2", "h3", "h4", "h5", "h6"})
    ensures Kind(tag) == Other ==> OpenTag(f, m, Kind(tag)) == f && CloseTag(f, m, Kind(tag)) == f
    ensures CloseTag(f, m, Kind("br")) == f
  {
  }

  /**
   * `b`, `i`, `small` and `big`: closing undoes opening exactly, given that
   * bold and italic were off; the opening tag sets what its name says.
   */
  lemma FontTagsRoundTrip(f: Flow, m: Metrics)
    ensures OpenTag(f, m, Kind("b")).weight == Bold && OpenTag(f, m, Kind("i")).slant == Italic
    ensures OpenTag(f, m, Kind("small")).size == f.size - 2 && OpenTag(f, m, Kind("big")).size == f.size + 4
    ensures CloseTag(OpenTag(f, m, Kind("small")), m, Kind("small")) == f
    ensures CloseTag(OpenTag(f, m, Kind("big")), m, Kind("big")) == f
    ensures f.weight == Normal ==> CloseTag(OpenTag(f, m, Kind("b")), m, Kind("b")) == f
    ensures f.slant == Roman ==> CloseTag(OpenTag(f, m, Kind("i")), m, Kind("i")) == f
  {
    assert OpenTag(f, m, Kind("small")) == f.(size := f.size - 2);
    assert OpenTag(f, m, Kind("big")) == f.(size := f.size + 4);
  }

  /** `br` (also written `br/` or `br /`) only flushes; `p` flushes and moves down by the font size. */
  lemma BreakAndParagraph(f: Flow, m: Metrics)
    ensures OpenTag(f, m, Kind("br")) == SetPosition(f, m)
    ensures OpenTag(f, m, Kind("br/")) == SetPosition(f, m)
    ensures OpenTag(f, m, Kind("br /")) == SetPosition(f, m)
    ensures OpenTag(f, m, Kind("p")) == SetPosition(f, m).(cursorY := SetPosition(f, m).cursorY + f.size as real)
    ensures CloseTag(f, m, Kind("p")) == SetPosition(f, m).(cursorY := SetPosition(f, m).cursorY + f.size as real)
  {
  }

  /**
   * Heading sizes from the default state at size 16, with the size also
   * saved as 16: `h1`, `h2` and `h3` give 48, 32 and 24 ...
   */
  lemma HeadingSizesAt16(m: Metrics)
    ensures var f := Start(16);
      && OpenTag(f, m, Kind("h1")).size == 48
      && OpenTag(f, m, Kind("h2")).size == 32
      && OpenTag(f, m, Kind("h3")).size == 24
  {
    var f := Start(16);
    assert SetPosition(f, m) == f;
    assert Kind("h1") == Heading(1) && Kind("h2") == Heading(2) && Kind("h3") == Heading(3);
  }

  /** ... and `h4`, `h5` and `h6` give 17, 12 and 8. */
  lemma MinorHeadingSizesAt16(m: Metrics)
    ensures var f := Start(16);
      && OpenTag(f, m, Kind("h4")).size == 17
      && OpenTag(f, m, Kind("h5")).size == 12
      && OpenTag(f, m, Kind("h6")).size == 8
  {
    var f := Start(16);
    assert SetPosition(f, m) == f;
    assert Kind("h4") == Heading(4) && Kind("h5") == Heading(5) && Kind("h6") == Heading(6);
  }

  /** Every heading level makes the text bold, whatever the state. */
  lemma HeadingsAreBold(f: Flow, m: Metrics, l: nat)
    ensures OpenTag(f, m, Heading(l)).weight == Bold
  {
  }

  /**
   * The h4 quirk: it scales the saved size, not the current one, and does
   * not save the current size, so closing it restores the size saved by an
   * earlier heading (or the starting size).
   */
  lemma H4ReadsSavedSize(f: Flow, m: Metrics)
    ensures OpenTag(f, m, Kind("h4")).size == Scale(f.tmpSize, 11, 10)
    ensures OpenTag(f, m, Kind("h4")).tmpSize == f.tmpSize
    ensures CloseTag(OpenTag(f, m, Kind("h4")), m, Kind("h4")).size == f.tmpSize
  {
  }

  /**
   * Every other heading saves the size when it opens and restores it when it
   * closes, and the weight is normal afterwards. Opening moves the cursor
   * down a quarter of the heading size past the flushed line; closing moves
   * it down half the heading size.
   */
  lemma HeadingRestoresSize(f: Flow, m: Metrics, h: string)
    requires h == "h1" || h == "h2" || h == "h3" || h == "h5" || h == "h6"
    ensures var o := OpenTag(f, m, Kind(h));
      && o.tmpSize == f.size && o.weight == Bold
      && o.cursorY == SetPosition(f, m).cursorY + o.size as real / 4.0
      && CloseTag(o, m, Kind(h)).size == f.size
      && CloseTag(o, m, Kind(h)).weight == Normal
      && CloseTag(o, m, Kind(h)).cursorY == SetPosition(o, m).cursorY + o.size as real / 2.0
  {
  }

  // ---------------------------------------------------------------------------
  // recurse and layout

  /**
   * `recurse`: a text node is laid out with `set_text`; an element opens its
   * tag, lays out its children in order and closes its tag.
   */
  function Recurse(f: Flow, e: Env, n: Node): Flow
    decreases n, 2
  {
    match n
    case Text(t, _) => SetText(f, e, t)
    case Element(_, _, _, _) => ElementFlow(f, e, n)
  }

  /** An element: its opening tag, its children in order, its closing tag. */
  function ElementFlow(f: Flow, e: Env, n: Node): Flow
    requires n.Element?
    decreases n, 1
  {
    var k := Kind(n.tag);
    CloseTag(Children(OpenTag(f, e.m, k), e, n, |n.children|), e.m, k)
  }

  /** The first k children of n laid out in order. */
  function Children(f: Flow, e: Env, n: Node, k: nat): Flow
    requires n.Element? && k <= |n.children|
    decreases n, 0, k
  {
    if k == 0 then f else Recurse(Children(f, e, n, k - 1), e, n.children[k - 1])
  }

  /** `layout`: the tree laid out from a fresh state, then the last line flushed. */
  function LayoutFlow(e: Env, size: int, dom: Node): Flow {
    SetPosition(Recurse(Start(size), e, dom), e.m)
  }

  // ---------------------------------------------------------------------------
  // Words: nothing is lost, nothing is reordered

  /** The words of a tree's text nodes, in document order. */
  function TextWords(n: Node): seq<string>
    decreases n, 1
  {
    match n
    case Text(t, _) => SplitWords(t)
    case Element(_, _, ch, _) => ChildWords(n, |ch|)
  }

  /** The words of the first k children of n, in order. */
  function ChildWords(n: Node, k: nat): seq<string>
    requires n.Element? && k <= |n.children|
    decreases n, 0, k
  {
    if k == 0 then [] else ChildWords(n, k - 1) + TextWords(n.children[k - 1])
  }

  /** The words of the display list, in order. */
  function DisplayWords(d: seq<Placed>): (r: seq<string>)
    ensures |r| == |d|
    ensures forall i :: 0 <= i < |d| ==> r[i] == d[i].word
  {
    if d == [] then [] else DisplayWords(d[..|d| - 1]) + [d[|d| - 1].word]
  }

  /** The words of the line buffer, in order. */
  function LineWords(l: seq<Item>): (r: seq<string>)
    ensures |r| == |l|
    ensures forall i :: 0 <= i < |l| ==> r[i] == l[i].word
  {
    if l == [] then [] else LineWords(l[..|l| - 1]) + [l[|l| - 1].word]
  }

  lemma {:induction false} DisplayWordsAppend(a: seq<Placed>, b: seq<Placed>)
    ensures DisplayWords(a + b) == DisplayWords(a) + DisplayWords(b)
    decreases |b|
  {
    if b != [] {
      var c := b[..|b| - 1];
      assert (a + b)[..|a + b| - 1] == a + c;
      DisplayWordsAppend(a, c);
    } else {
      assert a + b == a;
    }
  }

  lemma {:induction false} PlaceLineWords(line: seq<Item>, baseline: real, m: Metrics)
    ensures DisplayWords(PlaceLine(line, baseline, m)) == LineWords(line)
    decreases |line|
  {
    if line != [] {
      var init := line[..|line| - 1];
      assert PlaceLine(line, baseline, m)[..|line| - 1] == PlaceLine(init, baseline, m);
      PlaceLineWords(init, baseline, m);
    }
  }

  /** The words already placed followed by the words still buffered. */
  function Words(f: Flow): seq<string> {
    DisplayWords(f.display) + LineWords(f.line)
  }

  lemma SetPositionKeepsWords(f: Flow, m: Metrics)
    ensures Words(SetPosition(f, m)) == Words(f)
  {
    if f.line != [] {
      var b := Baseline(f.cursorY, f.line, m);
      DisplayWordsAppend(f.display, PlaceLine(f.line, b, m));
      PlaceLineWords(f.line, b, m);
    }
  }

  lemma PlaceWordAddsWord(f: Flow, e: Env, font: FontKey, word: string)
    ensures Words(PlaceWord(f, e, font, word)) == Words(f) + [word]
  {
    var w := e.m.measure(font, word);
    var g := if Wraps(f.cursorX, w, e.width) then SetPosition(f, e.m) else f;
    SetPositionKeepsWords(f, e.m);
    var l := g.line + [Item(g.cursorX, word, font)];
    assert l[..|l| - 1] == g.line;
  }

  lemma {:induction false} PlaceWordsAddsWords(f: Flow, e: Env, font: FontKey, words: seq<string>)
    ensures Words(PlaceWords(f, e, font, words)) == Words(f) + words
    decreases |words|
  {
    if words != [] {
      var init := words[..|words| - 1];
      var last := words[|words| - 1];
      var p := PlaceWords(f, e, font, init);
      assert PlaceWords(f, e, font, words) == PlaceWord(p, e, font, last);
      PlaceWordsAddsWords(f, e, font, init);
      PlaceWordAddsWord(p, e, font, last);
      SeqAssoc(Words(f), init, [last]);
      assert init + [last] == words;
    }
  }

  /** A tag either leaves the placed and buffered words alone or flushes the line. */
  lemma TagsKeepWords(f: Flow, m: Metrics, tag: TagKind)
    ensures Words(OpenTag(f, m, tag)) == Words(f)
    ensures Words(CloseTag(f, m, tag)) == Words(f)
  {
    var g := SetPosition(f, m);
    SetPositionKeepsWords(f, m);
    var o := OpenTag(f, m, tag);
    assert (o.display, o.line) == (f.display, f.line) || (o.display, o.line) == (g.display, g.line);
    var c := CloseTag(f, m, tag);
    assert (c.display, c.line) == (f.display, f.line) || (c.display, c.line) == (g.display, g.line);
  }

  /** Laying out a node adds exactly that node's words, in document order. */
  lemma {:induction false} RecurseAddsWords(f: Flow, e: Env, n: Node)
    ensures Words(Recurse(f, e, n)) == Words(f) + TextWords(n)
    decreases n, 2, 0, 0
  {
    match n
    case Text(t, _) =>
      PlaceWordsAddsWords(f, e, CurrentFont(f, e), SplitWords(t));
    case Element(tag, _, ch, _) =>
      var o := OpenTag(f, e.m, Kind(tag));
      TagsKeepWords(f, e.m, Kind(tag));
      ChildrenAddWords(o, e, n, |ch|);
      TagsKeepWords(Children(o, e, n, |ch|), e.m, Kind(tag));
      assert Recurse(f, e, n) == ElementFlow(f, e, n);
  }

  lemma {:induction false} ChildrenAddWords(f: Flow, e: Env, n: Node, k: nat)
    requires n.Element? && k <= |n.children|
    ensures Words(Children(f, e, n, k)) == Words(f) + ChildWords(n, k)
    decreases n, 0, k, 1
  {
    var j := 0;
    assert Words(f) + [] == Words(f);
    while j < k
      invariant j <= k && Words(Children(f, e, n, j)) == Words(f) + ChildWords(n, j)
    {
      ChildAddsWords(f, e, n, j + 1);
      j := j + 1;
    }
  }

  /** One more child adds its own words after those of the children before it. */
  lemma {:induction false} ChildAddsWords(f: Flow, e: Env, n: Node, k: nat)
    requires n.Element? && 0 < k <= |n.children|
    requires Words(Children(f, e, n, k - 1)) == Words(f) + ChildWords(n, k - 1)
    ensures Words(Children(f, e, n, k)) == Words(f) + ChildWords(n, k)
    decreases n, 0, k, 0
  {
    ChildStep(f, e, n, k);
    RecurseAddsWords(Children(f, e, n, k - 1), e, n.children[k - 1]);
    SeqAssoc(Words(f), ChildWords(n, k - 1), TextWords(n.children[k - 1]));
  }

  /** The k-th child is laid out after the first k - 1, and its words follow theirs. */
  lemma ChildStep(f: Flow, e: Env, n: Node, k: nat)
    requires n.Element? && 0 < k <= |n.children|
    ensures Children(f, e, n, k) == Recurse(Children(f, e, n, k - 1), e, n.children[k - 1])
    ensures ChildWords(n, k) == ChildWords(n, k - 1) + TextWords(n.children[k - 1])
  {
  }

  /**
   * `layout` places every word of every text node in document order, and
   * leaves the line buffer empty.
   */
  lemma LayoutPlacesAllWords(e: Env, size: int, dom: Node)
    ensures LayoutFlow(e, size, dom).line == []
    ensures DisplayWords(LayoutFlow(e, size, dom).display) == TextWords(dom)
  {
    var r := Recurse(Start(size), e, dom);
    FlushedWords(r, e.m);
    RecurseAddsWords(Start(size), e, dom);
    assert Words(Start(size)) == [];
    assert [] + TextWords(dom) == TextWords(dom);
  }

  /** After a flush every word is in the display list. */
  lemma FlushedWords(f: Flow, m: Metrics)
    ensures DisplayWords(SetPosition(f, m).display) == Words(f)
  {
    var out := SetPosition(f, m);
    SetPositionKeepsWords(f, m);
    assert LineWords(out.line) == [];
    assert DisplayWords(out.display) + [] == DisplayWords(out.display);
  }
}
