/**
 * DocumentLayout and BlockLayout from layout.py as classes whose methods
 * update their fields in place. Each method is proved to leave the fields
 * exactly where the matching function of LayoutFlow says, so the properties
 * proved there (baseline alignment, the wrap rule, the tag table, no word
 * lost or reordered) hold of the objects.
 */
module Layout {
  import opened Wrappers
  import opened Strings
  import opened Dom
  import opened LayoutFlow

  /** A font object: `get_font` makes one per key and hands the same one out again. */
  class Font {
    const key: FontKey

    constructor (key: FontKey)
      ensures this.key == key
    {
      this.key := key;
    }
  }

  /** Every font in the cache is the font of the key it is stored under. */
  ghost predicate CacheValid(cache: map<FontKey, Font>) {
    forall k :: k in cache ==> cache[k].key == k
  }

  /** A line buffer entry as BlockLayout stores it: x, word and the font object. */
  datatype LineEntry = LineEntry(x: int, word: string, font: Font)

  /** A display list entry: x, y, word and the font object. */
  datatype DisplayEntry = DisplayEntry(x: int, y: real, word: string, font: Font)

  /** The line buffer with each font replaced by its key. */
  function LineItems(l: seq<LineEntry>): seq<Item> {
    seq(|l|, k requires 0 <= k < |l| => Item(l[k].x, l[k].word, l[k].font.key))
  }

  /** The display list with each font replaced by its key. */
  function Placements(d: seq<DisplayEntry>): seq<Placed> {
    seq(|d|, k requires 0 <= k < |d| => Placed(d[k].x, d[k].y, d[k].word, d[k].font.key))
  }

  class BlockLayout {
    const dom: Node
    const width: int
    const height: int
    const fontFamily: Option<string>
    const metrics: Metrics

    var fontSize: int
    var fontWeight: Weight
    var fontStyle: Slant
    var tmpFontSize: int
    var cursorX: int
    var cursorY: real
    var line: seq<LineEntry>
    var displayList: seq<DisplayEntry>
    var fontCache: map<FontKey, Font>

    /** The width, family and metrics this block lays out with. */
    function Env(): Env {
      LayoutFlow.Env(width, fontFamily, metrics)
    }

    /** The fields the layout functions describe. */
    ghost function State(): Flow
      reads this
    {
      Flow(cursorX, cursorY, fontSize, fontWeight, fontStyle, tmpFontSize, LineItems(line), Placements(displayList))
    }

    /** Every cached font is the font of the key it is stored under. */
    ghost predicate Valid()
      reads this
    {
      CacheValid(fontCache)
    }

    constructor (dom: Node, width: int, height: int, fontFamily: Option<string>, fontSize: int, metrics: Metrics)
      ensures this.dom == dom && this.width == width && this.height == height
      ensures this.fontFamily == fontFamily && this.metrics == metrics
      ensures State() == Start(fontSize) && fontCache == map[] && Valid()
    {
      this.dom := dom;
      this.width := width;
      this.height := height;
      this.fontFamily := fontFamily;
      this.metrics := metrics;
      this.fontSize := fontSize;
      fontWeight := Normal;
      fontStyle := Roman;
      tmpFontSize := fontSize;
      cursorX := HSTEP;
      cursorY := VSTEP as real;
      line := [];
      displayList := [];
      fontCache := map[];
    }

    /**
     * `get_font`: a cached key gives back the same object and leaves the
     * cache alone; a missing key gets a new font, added under exactly that
     * key. Nothing else changes.
     */
    method GetFont(key: FontKey) returns (font: Font)
      requires Valid()
      modifies this
      ensures Valid() && font.key == key && State() == old(State())
      ensures key in old(fontCache) ==> font == old(fontCache[key]) && fontCache == old(fontCache)
      ensures key !in old(fontCache) ==> fresh(font) && fontCache == old(fontCache)[key := font]
    {
      if key !in fontCache {
        font := new Font(key);
        fontCache := fontCache[key := font];
      }
      font := fontCache[key];
    }

    /** `set_position`: flush the line buffer onto the display list on a common baseline. */
    method SetPosition()
      requires Valid()
      modifies this
      ensures Valid() && fontCache == old(fontCache)
      ensures State() == LayoutFlow.SetPosition(old(State()), metrics)
    {
      if line == [] {
        return;
      }
      ghost var s0 := State();
      var maxAscent := MaxAscent(LineItems(line), metrics);
      var baseline := cursorY + 1.25 * maxAscent as real;
      var maxDescent := MaxDescent(LineItems(line), metrics);
      var placed := AppendLine(displayList, line, baseline, metrics);
      displayList := placed;
      cursorX := HSTEP;
      cursorY := baseline + 1.25 * maxDescent as real;
      line := [];
      assert LineItems(line) == [];
    }

    /**
     * `set_text`: the text's words, one after another, in the font of the
     * current state; the line is flushed before a word that wraps.
     */
    method SetText(text: string)
      requires Valid()
      modifies this
      ensures Valid()
      ensures State() == LayoutFlow.SetText(old(State()), Env(), text)
    {
      var font := GetFont(FontKey(fontFamily, fontSize, fontWeight, fontStyle));
      var words := SplitWords(text);
      PlaceWords(font, words);
    }

    /** The loop of `set_text`: every word in order, in the one font looked up before it. */
    method PlaceWords(font: Font, words: seq<string>)
      requires Valid()
      modifies this
      ensures Valid()
      ensures State() == LayoutFlow.PlaceWords(old(State()), Env(), font.key, words)
    {
      ghost var s0 := State();
      for k := 0 to |words|
        invariant Valid()
        invariant State() == LayoutFlow.PlaceWords(s0, Env(), font.key, words[..k])
      {
        PlaceWord(font, words[k]);
        assert words[..k + 1][..k] == words[..k];
      }
      assert words[..|words|] == words;
    }

    /**
     * One pass of the loop in `set_text`: flush the line if the word wraps,
     * buffer the word at the cursor, and move the cursor past it and a space.
     */
    method PlaceWord(font: Font, word: string)
      requires Valid()
      modifies this
      ensures Valid()
      ensures State() == LayoutFlow.PlaceWord(old(State()), Env(), font.key, word)
    {
      var w := metrics.measure(font.key, word);
      if cursorX + w >= width && width > w {
        SetPosition();
      }
      LineItemsAppend(line, LineEntry(cursorX, word, font));
      line := line + [LineEntry(cursorX, word, font)];
      cursorX := cursorX + w + metrics.measure(font.key, " ");
    }

    /** `open_tag`: the changes the table makes for an opening tag. */
    method OpenTag(tag: string)
      requires Valid()
      modifies this
      ensures Valid()
      ensures State() == LayoutFlow.OpenTag(old(State()), metrics, Kind(tag))
    {
      if tag == "b" {
        fontWeight := Bold;
      } else if tag == "i" {
        fontStyle := Italic;
      } else if tag == "small" {
        fontSize := fontSize - 2;
      } else if tag == "big" {
        fontSize := fontSize + 4;
      } else if tag == "br" || tag == "br/" || tag == "br /" {
        SetPosition();
      } else if tag == "p" {
        SetPosition();
        cursorY := cursorY + fontSize as real;
      } else {
        OpenHeadingTag(tag);
      }
    }

    /** The heading branches of `open_tag`, reached once the font, break and paragraph tags are ruled out. */
    method OpenHeadingTag(tag: string)
      requires Valid()
      requires Kind(tag).Heading? || Kind(tag) == Other
      modifies this
      ensures Valid()
      ensures State() == LayoutFlow.OpenTag(old(State()), metrics, Kind(tag))
    {
      if tag == "h1" {
        assert Kind(tag) == Heading(1);
        OpenHeading(1, 3, 1);
      } else if tag == "h2" {
        assert Kind(tag) == Heading(2);
        OpenHeading(2, 2, 1);
      } else if tag == "h3" {
        assert Kind(tag) == Heading(3);
        OpenHeading(3, 3, 2);
      } else if tag == "h4" {
        assert Kind(tag) == Heading(4);
        OpenH4();
      } else if tag == "h5" {
        assert Kind(tag) == Heading(5);
        OpenHeading(5, 4, 5);
      } else if tag == "h6" {
        assert Kind(tag) == Heading(6);
        OpenHeading(6, 1, 2);
      }
    }

    /** The h4 branch of `open_tag`: it scales the saved size and saves nothing. */
    method OpenH4()
      requires Valid()
      modifies this
      ensures Valid()
      ensures State() == LayoutFlow.OpenTag(old(State()), metrics, Heading(4))
    {
      SetPosition();
      fontSize := tmpFontSize;
      fontSize := Scale(fontSize, 11, 10);
      fontWeight := Bold;
      cursorY := cursorY + fontSize as real / 4.0;
    }

    /** The shared body of the h1, h2, h3, h5 and h6 branches of `open_tag`, scaling by the level's factor. */
    method OpenHeading(level: nat, num: nat, den: nat)
      requires Valid() && level != 4 && (num, den) == HeadingFactor(level)
      modifies this
      ensures Valid()
      ensures State() == LayoutFlow.OpenTag(old(State()), metrics, Heading(level))
    {
      SetPosition();
      tmpFontSize := fontSize;
      fontSize := Scale(fontSize, num, den);
      fontWeight := Bold;
      cursorY := cursorY + fontSize as real / 4.0;
    }

    /** `close_tag`: the changes the table makes for a closing tag. */
    method CloseTag(tag: string)
      requires Valid()
      modifies this
      ensures Valid()
      ensures State() == LayoutFlow.CloseTag(old(State()), metrics, Kind(tag))
    {
      if tag == "b" {
        fontWeight := Normal;
      } else if tag == "i" {
        fontStyle := Roman;
      } else if tag == "small" {
        fontSize := fontSize + 2;
      } else if tag == "big" {
        fontSize := fontSize - 4;
      } else {
        CloseBlockTag(tag);
      }
    }

    /** The paragraph and heading branches of `close_tag`, reached once the font tags are ruled out. */
    method CloseBlockTag(tag: string)
      requires Valid()
      requires Kind(tag) !in {BoldTag, ItalicTag, SmallTag, BigTag}
      modifies this
      ensures Valid()
      ensures State() == LayoutFlow.CloseTag(old(State()), metrics, Kind(tag))
    {
      if tag == "p" {
        assert Kind(tag) == ParaTag;
        SetPosition();
        cursorY := cursorY + fontSize as real;
      } else if tag == "h1" || tag == "h2" || tag == "h3" || tag == "h4" || tag == "h5" || tag == "h6" {
        assert Kind(tag).Heading?;
        SetPosition();
        cursorY := cursorY + fontSize as real / 2.0;
        fontSize := tmpFontSize;
        fontWeight := Normal;
      } else {
        assert Kind(tag) == BreakTag || Kind(tag) == Other;
      }
    }

    /** `recurse`: text through `set_text`; an element opens, lays out its children in order, and closes. */
    method Recurse(node: Node)
      requires Valid()
      modifies this
      ensures Valid()
      ensures State() == LayoutFlow.Recurse(old(State()), Env(), node)
      decreases node
    {
      match node {
        case Text(t, _) =>
          SetText(t);
        case Element(tag, _, ch, _) =>
          OpenTag(tag);
          ghost var afterOpen := State();
          for k := 0 to |ch|
            invariant Valid()
            invariant State() == Children(afterOpen, Env(), node, k)
          {
            Recurse(ch[k]);
          }
          CloseTag(tag);
          assert State() == ElementFlow(old(State()), Env(), node);
      }
    }

    /**
     * `layout`: empty the line buffer, lay out the tree, flush the last line
     * and return the display list.
     */
    method Layout() returns (list: seq<DisplayEntry>)
      requires Valid()
      modifies this
      ensures Valid() && list == displayList
      ensures State() == LayoutFlow.SetPosition(LayoutFlow.Recurse(old(State()).(line := []), Env(), dom), metrics)
    {
      line := [];
      assert LineItems([]) == [];
      Recurse(dom);
      SetPosition();
      list := displayList;
    }
  }

  /**
   * The loop of `set_position`: each buffered entry, in order, appended to
   * the display list at its own x and at the y that puts it on the baseline.
   */
  method AppendLine(display: seq<DisplayEntry>, line: seq<LineEntry>, baseline: real, m: Metrics)
    returns (placed: seq<DisplayEntry>)
    ensures Placements(placed) == Placements(display) + PlaceLine(LineItems(line), baseline, m)
  {
    placed := display;
    for k := 0 to |line|
      invariant |placed| == |display| + k && placed[..|display|] == display
      invariant forall j :: 0 <= j < k ==> placed[|display| + j] == Flushed(line[j], baseline, m)
    {
      var e := line[k];
      var y := baseline - 1.25 * m.ascent(e.font.key) as real;
      placed := placed + [DisplayEntry(e.x, y, e.word, e.font)];
    }
    FlushedPlacements(display, placed, line, baseline, m);
  }

  /** Where `set_position` puts one buffered entry. */
  function Flushed(e: LineEntry, baseline: real, m: Metrics): DisplayEntry {
    DisplayEntry(e.x, baseline - 1.25 * m.ascent(e.font.key) as real, e.word, e.font)
  }

  lemma FlushedPlacements(d0: seq<DisplayEntry>, d: seq<DisplayEntry>, line: seq<LineEntry>, baseline: real, m: Metrics)
    requires |d| == |d0| + |line| && d[..|d0|] == d0
    requires forall j :: 0 <= j < |line| ==> d[|d0| + j] == Flushed(line[j], baseline, m)
    ensures Placements(d) == Placements(d0) + PlaceLine(LineItems(line), baseline, m)
  {
    var r := Placements(d0) + PlaceLine(LineItems(line), baseline, m);
    forall k | 0 <= k < |d|
      ensures Placements(d)[k] == r[k]
    {
      if k < |d0| {
        assert d[k] == d[..|d0|][k];
      } else {
        assert d[k] == Flushed(line[k - |d0|], baseline, m);
      }
    }
  }

  lemma LineItemsAppend(l: seq<LineEntry>, e: LineEntry)
    ensures LineItems(l + [e]) == LineItems(l) + [Item(e.x, e.word, e.font.key)]
  {
  }

  lemma PlacementsAppend(d: seq<DisplayEntry>, e: DisplayEntry)
    ensures Placements(d + [e]) == Placements(d) + [Placed(e.x, e.y, e.word, e.font.key)]
  {
  }

  /**
   * DocumentLayout: the window size, the tree and the font size the browser
   * zooms; each `layout` adds a new BlockLayout to `children`.
   */
  class DocumentLayout {
    const width: int
    const height: int
    const dom: Node
    const fontFamily: Option<string>
    const maximumFontSize: int
    const minimumFontSize: int
    const metrics: Metrics
    var fontSize: int
    var children: seq<BlockLayout>
    var displayList: seq<DisplayEntry>

    constructor (metrics: Metrics, dom: Node, width: int := 800, height: int := 600, fontFamily: Option<string> := None,
                 fontSize: int := 16, maximumFontSize: int := 32, minimumFontSize: int := 4)
      ensures this.metrics == metrics && this.dom == dom && this.width == width && this.height == height
      ensures this.fontFamily == fontFamily && this.fontSize == fontSize
      ensures this.maximumFontSize == maximumFontSize && this.minimumFontSize == minimumFontSize
      ensures children == [] && displayList == []
    {
      this.metrics := metrics;
      this.dom := dom;
      this.width := width;
      this.height := height;
      this.fontFamily := fontFamily;
      this.fontSize := fontSize;
      this.maximumFontSize := maximumFontSize;
      this.minimumFontSize := minimumFontSize;
      children := [];
      displayList := [];
    }

    /**
     * `layout`: a fresh BlockLayout at the current width and font size is
     * appended to `children` (which is never cleared) and laid out. The
     * block is given no font family, whatever this layout's family is. The
     * display list holds every word of the tree's text in document order.
     */
    method Layout() returns (list: seq<DisplayEntry>)
      modifies this
      ensures list == displayList
      ensures |children| == |old(children)| + 1 && children[..|old(children)|] == old(children)
      ensures fresh(children[|children| - 1])
      ensures Placements(list) == LayoutFlow.LayoutFlow(LayoutFlow.Env(width, None, metrics), fontSize, dom).display
      ensures DisplayWords(Placements(list)) == TextWords(dom)
      ensures fontSize == old(fontSize)
    {
      var child := new BlockLayout(dom, width, height, None, fontSize, metrics);
      children := children + [child];
      assert Start(fontSize).(line := []) == Start(fontSize);
      list := child.Layout();
      displayList := list;
      LayoutPlacesAllWords(LayoutFlow.Env(width, None, metrics), fontSize, dom);
    }
  }
}
