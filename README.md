# pybrowser core in Dafny

This project models the core of pybrowser, a small web browser written in Python on top of tkinter. It covers five pieces:

- **HTML tree builder** (`html_parser.py`, module `HtmlParser`). `HTMLParser.parse` scans the body one character at a time. `<` and `>` switch `in_tag`. The parser keeps an explicit stack of open elements, `unfinished`. It is modelled as a class whose methods change that stack in place, with every method proved equal to a pure step function (`AddTextStep`, `AddTagStep`, `ScanChar`, `Parsed`). The stack keeps one invariant: every entry's parent is the entry beneath it.
- **CSS declaration parser and inline-style pass** (`css_parser.py`, module `CssParser`). `CSSParser` is a class over a cursor `i` into the text `s`. Each scanner is proved to leave the cursor exactly where a pure function says. A raised "Parsing error" becomes a `None` result. For `body` there are proofs that a declaration `prop : value ;` (spaces allowed around `:` and before `;`) is stored under the casefolded property, that a declaration `pair` cannot read is skipped up to and past the next `;`, and that a declaration read whole but not followed by `;` is still stored. `style` is proved shape-preserving and idempotent.
- **Inline text-flow layout** (`layout.py`, modules `LayoutFlow` and `Layout`).
  - `LayoutFlow` states the flow as functions of the layout state: cursor, font state, line buffer and display list. Its lemmas cover baseline alignment, the wrap rule, the open/close tag table with its h4 quirk, and the fact that layout places every word of the tree in document order.
  - `Layout` holds `BlockLayout` and `DocumentLayout` as classes. Their methods update the fields in place and are proved to match those functions.
- **URL splitting and resolution** (`url.py`, module `Url`). `parse_url` and `resolve` are pure string operations. `parse_url` has a round-trip proof, and `resolve` has proofs about its absolute results and its handling of `../`.
- **Browser state** (`browser.py`, module `Browser`):
  - the scroll offset and zoom level, with the bounded-counter invariant;
  - the culling test of `draw`, both directions;
  - `layout_tree`'s pre-order concatenation.

Text measurement (tkinter's `Font.measure` and `Font.metrics`) is a `Metrics` value passed in. It holds total functions from a font key (family, size, weight, slant) to natural numbers. Vertical positions are exact `real`s. Heading sizes are Python's `int(size * k)`, written as an exact rational scaling truncated toward zero. Strings are ASCII.

Where the code and the repository's design notes disagree, the model follows the code:
- there is no attribute parsing and no lower-casing of tag names;
- there is no self-closing tag set; only a tag text ending in `/` is not pushed, so a plain `br` is pushed;
- a closing tag pops the innermost element whatever its name;
- there are no CSS selectors or rule cascade, only inline `style` declarations;
- `h4` does not save the current size; it scales the size saved by an earlier heading.

`DocumentLayout.layout` passes no font family to its `BlockLayout`. The model keeps this: the block lays out with family `None`.

## Model

| member | source | states |
|---|---|---|
| HtmlParser.Attach | html_parser.py:27-30 | appending a node to the innermost open element keeps the depth and every entry beneath it, makes the node the top's last child, and keeps the parent links and bracket-freedom |
| HtmlParser.Push | html_parser.py:46-50 | opening a tag adds exactly one entry on top, whose parent is the previous top and which has no children; the entries beneath are unchanged; parent links are kept |
| HtmlParser.PopAttach | html_parser.py:43-45 | closing pops the top entry; every entry below the new top is unchanged; the new top keeps its tag and parent and gains the finished element as its last child (on a linked stack, the entry its parent index names); parent links and bracket-freedom are kept |
| HtmlParser.AddTextStep | html_parser.py:27-30 | add_text fails exactly when nothing is open; otherwise the depth is unchanged and the text node is the top's last child |
| HtmlParser.AddTagStep | html_parser.py:32-50 | fails exactly when nothing is open and the tag ends or starts with `/`; a `/`-ending tag is appended to the innermost element as an empty element without a push; a closing tag leaves a one-element stack as it is and otherwise is exactly `PopAttach`; any other tag is exactly `Push`; links and bracket-freedom are kept |
| HtmlParser.CloseAll | html_parser.py:52-63 | the result is an element; with nothing open it is an empty `html` element; one open element is returned finished as it is; otherwise the root has the bottom entry's tag; a bracket-free stack gives a bracket-free tree |
| HtmlParser.PopAttachNested | html_parser.py:59-62 | one pass of the closing loop does not change the tree the open elements stand for (`Nested`: each entry finished with the tree above it as its last child) |
| HtmlParser.CloseAllNested | html_parser.py:57-63 | close_unfinished_node on a non-empty linked stack returns exactly `Nested`: each open element ends as the last child of the one beneath it, below its earlier children, and the bottom one is the root |
| HtmlParser.Flushed | html_parser.py:12-13 | the text flushed at `<` holds no newline, is empty exactly when the text without newlines is all whitespace, and gains no bracket |
| HtmlParser.ScanChar | html_parser.py:9-22 | after `<` or `>` the buffer is empty and `in_tag` says which bracket came last; at `<` a blank flushed text leaves the stack alone and any other is added by `AddTextStep`; at `>` the stack is what `AddTagStep` gives for the buffer; any other character is appended to the buffer with the flag and stack unchanged; it fails exactly when nothing is open and `<` flushes a non-blank text or `>` ends a `/`-ending or closing tag; links and bracket-freedom are kept |
| HtmlParser.ScanAll | html_parser.py:9-22 | scanning every character keeps the parent links and keeps brackets out of the stack and the buffer |
| HtmlParser.ParsedAngleFree | html_parser.py:6-25 | from a clean stack, a successful parse is an element with no `<` or `>` in any text or tag |
| HtmlParser.ScanAllAppend | html_parser.py:9-22 | scanning a + b is scanning a and then b from where a left off, stopping at the first error |
| HtmlParser.ScanPlain | html_parser.py:21-22 | text without brackets is only buffered: the flag and the stack are unchanged |
| HtmlParser.TrailingTextKept | html_parser.py:23-25 | text after the last tag is added as it is, neither newline-stripped nor trimmed, as the last child of the innermost open element, and the stack is then folded |
| HtmlParser.UnterminatedTagDropped | html_parser.py:10-25 | a tag still open when the body ends is dropped together with the text buffered after the last tag, and the stack is folded as it was |
| HtmlParser.HTMLParser.constructor | html_parser.py:2-4 | a new parser holds the body and an empty stack |
| HtmlParser.HTMLParser.Parse | html_parser.py:6-25 | the loop returns exactly `Parsed(body, stack)` (every character scanned as `ScanChar` says, trailing text outside a tag added as it is, the stack folded) and leaves the stack empty on success |
| HtmlParser.HTMLParser.ParseChar | html_parser.py:10-22 | one pass of the loop gives the buffer, the flag and the stack `ScanChar` gives, or the error it reports |
| HtmlParser.HTMLParser.AddText | html_parser.py:27-30 | the stack becomes what `AddTextStep` gives; with nothing open it reports the missing parent and changes nothing |
| HtmlParser.HTMLParser.AddTag | html_parser.py:32-50 | the stack becomes what `AddTagStep` gives; the error is a missing parent for a `/`-ending tag and a pop from an empty list for a closing tag |
| HtmlParser.HTMLParser.CloseUnfinishedNode | html_parser.py:52-63 | returns the fold of the stack (an `html` element when nothing is open) and leaves the stack empty |
| Strings.RemoveChar | html_parser.py:12 | `replace("\n", "")` leaves no newline, keeps every other character, and never lengthens the text |
| Strings.RemoveCharAppend | html_parser.py:12 | removing a character from a + b removes it from a and from b, in order |
| Strings.RemoveCharAbsent | html_parser.py:12 | a text without the character is returned unchanged; with `RemoveCharAppend` this fixes the result as the text with exactly the occurrences dropped |
| Strings.Strip | html_parser.py:13 | `strip()` is the slice of the text that starts after its leading whitespace, with only whitespace after it; it has no whitespace at either end and is empty exactly for whitespace-only text |
| Strings.Lower | css_parser.py:69 | casefold keeps the length, lowers each letter in place and leaves no upper-case letter |
| Strings.LowerIdempotent | css_parser.py:25 | casefolding an already casefolded property changes nothing |
| Strings.SplitWords | layout.py:127 | `split()` gives non-empty whitespace-free words that together hold exactly the non-space characters, in order |
| Strings.SplitWordsOfWord | layout.py:127 | a single whitespace-free word splits to itself |
| Strings.SplitWordsOfAllSpace | layout.py:127 | a whitespace-only text splits to no word |
| Strings.SplitWordsAppend | layout.py:127 | when whitespace separates a and b (or one is empty), the words of a + b are those of a followed by those of b; with the two lemmas above this fixes `split()` on every text |
| Strings.ParseNat | url.py:21 | `int(port)` succeeds exactly on a non-empty run of decimal digits |
| Strings.NatToString | url.py:101 | `str(port)` is a non-empty run of decimal digits |
| Strings.ParseNatToString | url.py:21 | reading back the decimal text of a number gives that number |
| CssParser.WhitespaceEnd | css_parser.py:43-45 | whitespace stops at the first non-space character or the end, having skipped only whitespace |
| CssParser.WordEnd | css_parser.py:49-53 | the word loop stops at the end of the run of alphanumerics and `#-.%` |
| CssParser.WordAt | css_parser.py:47-56 | word succeeds exactly when the current character is a word character; it returns the maximal run and moves past it; on failure the cursor is unchanged |
| CssParser.IgnoreUntilEnd | css_parser.py:71-77 | ignore_until stops at the first character in the set without consuming it, or at the end, skipping only other characters |
| CssParser.PairAt | css_parser.py:63-69 | the cursor never moves back and stays within the text; on success pair has moved it forward and gives a casefolded property with a word value |
| CssParser.PairAtSucceeds | css_parser.py:63-69 | pair succeeds exactly when a word is followed, past optional whitespace, by `:` and, past optional whitespace again, by a word |
| CssParser.PairAtReads | css_parser.py:63-69 | a successful pair gives the first word casefolded and the second as written, and leaves the cursor right after the second word |
| CssParser.PairStopsAtSemicolon | css_parser.py:63-69 | pair never reads past a `;`, whether it succeeds or fails |
| CssParser.StoreWellFormed | css_parser.py:25 | storing a casefolded property with a word value keeps every stored pair well-formed |
| CssParser.BodyStep | css_parser.py:22-39 | one loop pass keeps the cursor within the text, and a pass that goes on moves it strictly forward (termination) |
| CssParser.Recovered | css_parser.py:34-39 | recovery keeps the pairs stored so far; it goes on exactly when a `;` is left, and then resumes after the first `;` and the whitespace behind it; otherwise it stops at the end of the text |
| CssParser.BodyFrom | css_parser.py:20-41 | `body` keeps the cursor between its start and the end of the text |
| CssParser.BodyKeeps | css_parser.py:20-41 | body never removes a stored property, and every pair it stores is a casefolded property with a word value |
| CssParser.Declarations | css_parser.py:20-41 | the pairs body returns for a whole text are well-formed |
| CssParser.WordEndAt | css_parser.py:47-56 | the word loop stops exactly at the first non-word character after a run of word characters |
| CssParser.WordAtWord | css_parser.py:47-56 | word reads a word written at the cursor exactly, when a non-word character or the end follows it |
| CssParser.WhitespaceEndAt | css_parser.py:43-45 | whitespace stops exactly at the first non-space character after a run of spaces |
| CssParser.IgnoreUntilSkips | css_parser.py:71-77 | skipping characters other than `;` does not move where ignore_until finds the next `;` |
| CssParser.PairAtDeclaration | css_parser.py:63-69 | pair reads `prop : value`, with any whitespace around the `:`, as the casefolded property and the value as written, ending right after the value |
| CssParser.GoodDeclaration | css_parser.py:22-28 | a declaration `prop : value ;`, with any whitespace around the `:` and before the `;`, is stored under the casefolded property, replacing an earlier value for it, and body goes on after the `;` and the whitespace after it |
| CssParser.GoodDeclarationStep | css_parser.py:22-28 | one pass over `prop : value ;` stores the pair and goes on after the `;` and the whitespace after it |
| CssParser.SkipsBadDeclaration | css_parser.py:29-39 | any declaration pair cannot read is skipped up to and including the next `;` from where it starts; with no `;` left body stops with the pairs unchanged |
| CssParser.BadDeclarationStep | css_parser.py:29-39 | a pass over a declaration pair cannot read is exactly the recovery from the declaration's start |
| CssParser.UnterminatedDeclaration | css_parser.py:23-39 | a declaration read whole but not followed by `;` (the `a:b` of `a:b c:d;`) is stored; the text up to the next `;` is then skipped, so `c:d` is lost, and with no `;` left body stops |
| CssParser.UnterminatedStep | css_parser.py:23-39 | one pass over such a declaration stores it and then is exactly the recovery from the declaration's start |
| CssParser.LastDeclarationKept | css_parser.py:24-27 | a final declaration without `;`, at any position, is still stored and body ends at the end of the text, because the store comes before the `;` check |
| CssParser.NoColonNoDeclarations | css_parser.py:20-41 | text without `:` yields no declaration |
| CssParser.CSSParser.constructor | css_parser.py:16-18 | a new parser holds the text with the cursor at 0 |
| CssParser.CSSParser.Whitespace | css_parser.py:43-45 | the cursor moves to `WhitespaceEnd` |
| CssParser.CSSParser.Word | css_parser.py:47-56 | result and cursor are those of `WordAt`: the maximal word, or a failure with the cursor unchanged |
| CssParser.CSSParser.Literal | css_parser.py:58-61 | succeeds exactly when the current character is the literal, advancing by one; otherwise (also at the end) the cursor is unchanged |
| CssParser.CSSParser.Pair | css_parser.py:63-69 | result and cursor are those of `PairAt` |
| CssParser.CSSParser.IgnoreUntil | css_parser.py:71-77 | the cursor moves to `IgnoreUntilEnd`; it returns the character found there, or None at the end |
| CssParser.CSSParser.BodyIteration | css_parser.py:23-39 | one pass of the loop changes the pairs, the cursor and the going-on flag as `BodyStep` says |
| CssParser.CSSParser.Recover | css_parser.py:34-39 | the except branch changes the cursor and the flag as `Recovered` says |
| CssParser.CSSParser.Body | css_parser.py:20-41 | returns the pairs and leaves the cursor as `BodyFrom` says from the starting cursor |
| CssParser.StyledShape | css_parser.py:4-12 | style changes no text, tag, attribute or child, only the style maps |
| CssParser.StyledWellFormed | css_parser.py:4-12 | after style, every node's map holds casefolded properties with word values |
| CssParser.StyledIdempotent | css_parser.py:4-12 | running style twice gives the same tree as once, because maps are reset and not merged |
| CssParser.Style | css_parser.py:4-12 | the method walk gives exactly `Styled`: each node's map is reset and then filled from its own `style` attribute, with every child visited |
| LayoutFlow.MaxAscentIsMax | layout.py:256-259 | the line's max ascent bounds every word's ascent, and some word of a non-empty line has it |
| LayoutFlow.MaxDescentIsMax | layout.py:263 | the line's max descent bounds every word's descent |
| LayoutFlow.SetPosition | layout.py:244-275 | set_position empties the line and leaves the font state alone; on an empty line it changes nothing at all |
| LayoutFlow.SetPositionMovesCursor | layout.py:270-272 | after flushing a non-empty line, x is the left margin and y has moved down by 1.25 times (max ascent + max descent), so it never decreases |
| LayoutFlow.PlaceLineAligns | layout.py:259-268 | each flushed word keeps its x, text and font and sits 1.25 times its own ascent above one common baseline (1.25 times the tallest ascent below the line's top), so it lies at or below the top, and a word of the tallest ascent lies exactly on it |
| LayoutFlow.SetPositionAligns | layout.py:254-275 | flushing appends the line's words to the display list in order at their own x, all on the line's common baseline, at or below the old cursor, with a tallest word exactly at it; earlier entries are unchanged |
| LayoutFlow.PlaceWordWraps | layout.py:127-133 | a word that wraps after a non-empty line flushes it and starts a new line at the margin; otherwise it joins the line at the cursor; the cursor then advances by the word's width plus a space's; the font state is unchanged |
| LayoutFlow.WideWordStays | layout.py:130 | a word at least as wide as the page never causes a flush |
| LayoutFlow.UnknownTagsChangeNothing | layout.py:148-242 | exactly the tags outside the table are unknown, and opening or closing them changes nothing; closing `br` does nothing |
| LayoutFlow.FontTagsRoundTrip | layout.py:150-209 | `b`/`i` set bold/italic; `small`/`big` change the size by -2/+4; closing reverses each exactly (bold and italic given they were off) |
| LayoutFlow.BreakAndParagraph | layout.py:158-212 | `br`, `br/` and `br /` only flush; `p` flushes and moves down by the font size when it opens and when it closes |
| LayoutFlow.HeadingSizesAt16 | layout.py:163-180 | from size 16 with 16 saved, h1, h2 and h3 give 48, 32 and 24 |
| LayoutFlow.MinorHeadingSizesAt16 | layout.py:181-198 | from size 16 with 16 saved, h4, h5 and h6 give 17, 12 and 8 |
| LayoutFlow.HeadingsAreBold | layout.py:163-198 | every heading level sets the weight to bold |
| LayoutFlow.H4ReadsSavedSize | layout.py:181-186 | h4 scales the saved size by 1.1 and saves nothing, so closing it restores the earlier saved size |
| LayoutFlow.HeadingRestoresSize | layout.py:163-242 | h1, h2, h3, h5 and h6 save the size, set bold and move down a quarter of the new size; closing moves down half of it and restores the size and normal weight |
| LayoutFlow.SetPositionKeepsWords | layout.py:265-275 | flushing neither loses nor reorders a word: the placed words followed by the buffered words are unchanged |
| LayoutFlow.PlaceWordAddsWord | layout.py:128-133 | placing one word adds exactly that word after all earlier ones |
| LayoutFlow.PlaceWordsAddsWords | layout.py:127-133 | set_text's loop adds exactly its words, in order |
| LayoutFlow.TagsKeepWords | layout.py:148-242 | opening or closing any tag neither adds, drops nor reorders a word |
| LayoutFlow.RecurseAddsWords | layout.py:107-118 | laying out a node adds exactly that node's text words, in document order |
| LayoutFlow.ChildrenAddWords | layout.py:114-115 | laying out the first k children adds exactly their words, in order |
| LayoutFlow.ChildAddsWords | layout.py:114-115 | one more child adds its words after those of the children before it |
| LayoutFlow.ChildStep | layout.py:114-115 | the k-th child is laid out after the first k-1 |
| LayoutFlow.FlushedWords | layout.py:103 | after the final flush, every word is in the display list |
| LayoutFlow.LayoutPlacesAllWords | layout.py:96-118 | layout leaves the line empty, and its display list holds exactly the words of every text node, in pre-order |
| LayoutFlow.DisplayWords | layout.py:268 | the words of the display list, one per entry, in order |
| LayoutFlow.LineWords | layout.py:132 | the words of the line buffer, one per entry, in order |
| Layout.BlockLayout.constructor | layout.py:62-94 | a new block starts at (HSTEP, VSTEP) with the given size, both as size and as saved size, normal roman weight and slant, an empty line, display list and font cache |
| Layout.BlockLayout.GetFont | layout.py:135-146 | a cached key gives back the same font object and leaves the cache unchanged; a missing key adds a new font under exactly that key; nothing else changes |
| Layout.BlockLayout.SetPosition | layout.py:244-275 | the fields change as `LayoutFlow.SetPosition` says; the font cache is untouched |
| Layout.BlockLayout.SetText | layout.py:120-133 | the fields change as `LayoutFlow.SetText` says: each word of the text, in the one font looked up first |
| Layout.BlockLayout.PlaceWords | layout.py:127-133 | the loop moves the fields as `LayoutFlow.PlaceWords` says |
| Layout.BlockLayout.PlaceWord | layout.py:128-133 | one pass moves the fields as `LayoutFlow.PlaceWord` says |
| Layout.BlockLayout.OpenTag | layout.py:148-198 | the fields change as the table `LayoutFlow.OpenTag` says for the tag's kind |
| Layout.BlockLayout.OpenHeadingTag | layout.py:163-198 | the heading branches change the fields as `LayoutFlow.OpenTag` says, and any other tag changes nothing |
| Layout.BlockLayout.OpenH4 | layout.py:181-186 | the h4 branch changes the fields as `LayoutFlow.OpenTag` says for level 4 |
| Layout.BlockLayout.OpenHeading | layout.py:163-198 | the h1, h2, h3, h5 and h6 branches change the fields as `LayoutFlow.OpenTag` says for their level |
| Layout.BlockLayout.CloseTag | layout.py:200-242 | the fields change as the table `LayoutFlow.CloseTag` says for the tag's kind |
| Layout.BlockLayout.CloseBlockTag | layout.py:210-242 | the p and heading branches change the fields as `LayoutFlow.CloseTag` says, and `br` and unknown tags change nothing |
| Layout.BlockLayout.Recurse | layout.py:107-118 | the fields change as `LayoutFlow.Recurse` says: a text through set_text, an element by open tag, children in order, close tag |
| Layout.BlockLayout.Layout | layout.py:96-105 | with the line emptied, the tree is laid out and the last line flushed; the display list is returned |
| Layout.AppendLine | layout.py:265-268 | the flush loop appends each buffered entry in order at its x and at the baseline minus 1.25 times its ascent |
| Layout.FlushedPlacements | layout.py:265-268 | entries appended one by one in order make the display list grow by the placed line |
| Layout.LineItemsAppend | layout.py:132 | appending to the line appends its keyed entry |
| Layout.PlacementsAppend | layout.py:268 | appending to the display list appends its keyed entry |
| Layout.DocumentLayout.constructor | layout.py:11-43 | the defaults are width 800, height 600, no family, size 16, maximum 32 and minimum 4, with no children and an empty display list |
| Layout.DocumentLayout.Layout | layout.py:45-57 | appends one fresh block to children (earlier ones kept); the returned display list is the flow of the tree at the current size and width with no family, and it holds every text word of the tree in document order; the size is unchanged |
| Url.FindFrom | url.py:11 | finds the first occurrence of the pattern at or after the start, or reports that there is none |
| Url.Find | url.py:11 | `split("://", 1)` cuts at the first occurrence, and finds none exactly when the pattern does not occur |
| Url.FirstIndex | url.py:16-20 | `split(c, 1)` cuts at the first occurrence of c |
| Url.LastIndex | url.py:92-96 | `rsplit(c, 1)` cuts at the last occurrence of c |
| Url.FirstIndexAt | url.py:16-20 | an occurrence with none before it is the first |
| Url.LastIndexAt | url.py:92-96 | an occurrence with none after it is the last |
| Url.SplitPath | url.py:14-16 | the host has no `/` and the returned path starts with `/`, even when the URL had no `/` after the host |
| Url.SplitPort | url.py:19-23 | the port is split off at the first `:` and read as a number; the host keeps no `:` and no `/`; with no `:` there is no port |
| Url.ParseUrl | url.py:10-25 | fails without `://`; on success the scheme is http or https and the URL starts with it and `://`; the path starts with `/`; the host has neither `/` nor `:` |
| Url.SchemeSeparator | url.py:11 | the first `://` of `scheme://rest` is the one right after a colon-free scheme |
| Url.ParseAfterScheme | url.py:11-25 | the parse of an http(s) URL is the split of what follows `://` |
| Url.SplitPathOf | url.py:14-16 | a slash-free host followed by a `/` path splits back into the two |
| Url.SplitPortOf | url.py:19-23 | a colon-free host with `:port` splits back into the host and that port |
| Url.ParseUnparse | url.py:10-25 | round trip: every result parse_url can give is what it returns for its own text |
| Url.BareHostGetsRoot | url.py:14-16 | `scheme://host` parses with path `/` and no port |
| Url.UnknownSchemeFails | url.py:12 | a scheme other than http and https is refused |
| Url.Parent | url.py:95-96 | `rsplit("/", 1)` on the directory gives a prefix of it, strictly shorter when it holds a `/` |
| Url.Resolve | url.py:77-101 | the loop of resolve gives exactly `Resolved`: absolute URLs unchanged; path-relative links joined to the base directory after climbing their `../` (failing when the base path has no `/`); `//` links take the base scheme; others take scheme, host and explicit port |
| Url.ResolvedIsAbsolute | url.py:89-101 | every URL resolve returns contains `://` |
| Url.AbsoluteHasSeparator | url.py:98-101 | both ways of completing a joined path contain `://` |
| Url.ClimbFacts | url.py:93-96 | climbing leaves a prefix of the directory and a suffix of the link with no leading `../` |
| Url.ClimbStaysRooted | url.py:93-96 | climbing never goes above the root: a rooted directory stays rooted |
| Url.NoColonNoScheme | url.py:89 | a link without `:` is never taken as absolute |
| Url.DirOf | url.py:92 | the base directory of `dir/file` is dir |
| Url.PathRelative | url.py:91-101 | a path-relative link whose climb ends in a rooted directory and a plain name becomes `scheme://host:port` + dir + `/` + name |
| Url.SiblingFile | url.py:91-101 | a plain file name resolves into the directory of the base path |
| Url.ParentFile | url.py:91-101 | `../name` resolves into the parent of the base directory |
| Url.UpsStopAtRoot | url.py:93-96 | at the root, any number of leading `../` are dropped |
| Url.UpsFromRootPage | url.py:91-101 | from a page at the root, `../../name` and the like resolve to `/name` on the same host |
| Url.SchemeRelative | url.py:98-99 | a `//` link resolves to the base scheme, `:` and the link |
| Url.HostRelativeLink | url.py:89-101 | a link starting with a single `/` resolves to the base scheme, `://`, the base host, `:`, the port and the link |
| Browser.ScrolledDown | browser.py:45-46 | scroll_down always moves down |
| Browser.ScrolledUp | browser.py:49-52 | scroll_up moves up only while the offset is positive, and otherwise changes nothing |
| Browser.Magnified | browser.py:54-58 | magnify grows the size only below the maximum, and otherwise changes nothing |
| Browser.Reduced | browser.py:65-69 | reduce shrinks the size only above the minimum, and otherwise changes nothing |
| Browser.PressKeepsGrid | browser.py:45-74 | one key press keeps the offset a non-negative multiple of 18 and the size within [minimum, maximum], on the grid of 4 from both bounds |
| Browser.RunKeepsGrid | browser.py:45-74 | any sequence of key presses keeps both invariants |
| Browser.DefaultsStayOnGrid | browser.py:45-74 | from the top of the page at the document's default size 16 with bounds 4 and 32, every key sequence keeps the size between 4 and 32 on the 4-point grid and the offset a non-negative multiple of 18 |
| Browser.ScrollAndZoomIndependent | browser.py:45-74 | scroll keys never change the size |
| Browser.Draw | browser.py:30-42 | draw's loop yields exactly `Drawn`: the entries passing the culling test, in order, moved up by the offset |
| Browser.DrawnOnScreen | browser.py:32-41 | every drawn text has its top at most HEIGHT and its bottom at least 0 on the canvas |
| Browser.DrawnExactlyVisible | browser.py:32-41 | an entry is drawn at y minus the offset if and only if y is at most offset + HEIGHT and y + linespace is at least the offset |
| Browser.LayoutTree | browser.py:88-92 | layout_tree extends the list by the node's paint output followed by each child's subtree, in order: a pre-order concatenation |
| Browser.SubtreesSplit | browser.py:91-92 | the children's subtrees split at any child into those before it and those from it on |
| Browser.ChildSubtreeAt | browser.py:88-92 | in pre-order, a child's whole subtree is one contiguous block after the node's own paint output and the subtrees of the children before it |
| Browser.Browser.constructor | browser.py:19-21 | the browser starts scrolled to 0 |
| Browser.Browser.ScrollDown | browser.py:45-47 | the offset becomes `ScrolledDown` of the old one |
| Browser.Browser.ScrollUp | browser.py:49-52 | the offset becomes `ScrolledUp` of the old one |
| Browser.Browser.Magnify | browser.py:54-63 | the size becomes `Magnified`; when it grew, the document's display list is the layout of the tree at the new size; at the maximum the document is unchanged |
| Browser.Browser.Reduce | browser.py:65-74 | the size becomes `Reduced`; when it shrank, the document's display list is the layout of the tree at the new size; at the minimum the document is unchanged |

## Left out

- `URL.request` (url.py:27-75) is not modelled: sockets, TLS and reading the HTTP/1.0 response are network I/O. `resolve` reads the scheme, host, path and port that `request` stores; here they are the `Base` argument, with a numeric port, as `request` always leaves it.
- The tkinter window, canvas and key bindings are not modelled: `Browser.__init__`'s window setup, `canvas.delete`/`create_text`, `mainloop`. `draw` is modelled as the list of texts it would create.
- `Browser.load` is not modelled. It is the network plus a `DocumentLayout(node=...)` call with a keyword the constructor does not accept.
- `paint()` is called by `layout_tree` but no layout class defines it. A layout object is a `PaintNode` whose paint output is given data.
- Browser.Browser.Magnify: does not model the browser's own `display_list` being rebuilt by `layout_tree` or the redraw. `paint` is undefined, and `draw` is modelled separately by `Browser.Draw`.
- Browser.Browser.Reduce: the same as `Magnify`.
- tkinter font objects are not modelled. `Font.measure` and `Font.metrics` are the given `Metrics` functions of the font key, and a `Font` object holds only its key.
- Python float arithmetic is not modelled. y positions are exact reals.
- LayoutFlow.Scale: heading sizes are `size * k` truncated toward zero with k an exact fraction (3, 2, 3/2, 11/10, 4/5, 1/2). For sizes where the float product `size * 1.1` or `size * 0.8` rounds across an integer, this can differ from Python's `int()`.
- Strings.IsSpace: whitespace, `isalnum` and `casefold` are their ASCII parts. Unicode whitespace, letters and case folding are not modelled.
- Strings.ParseNat: `int()` on the port is read as a non-empty run of ASCII digits. Python also accepts surrounding whitespace, a sign, underscores and non-ASCII digits.
- HtmlParser.Finish: a node's `parent` pointer is kept only while the element is open, as the index of the entry beneath it. Text nodes get none. Finished nodes are immutable values without back-references.
- Layout.BlockLayout.constructor: the `parent` and `previous` pointers and the unused `children` list of a block are not modelled. Neither are the `HSTEP`/`VSTEP` fields (they are module constants), `maximum_font_size` and `minimum_font_size` inherited from `DocumentLayout`.
- The `style` pass returns the styled tree as a new value instead of writing `style` into each node in place.
- The stale tests of `parse_url` and `request` in `browser` (test/test_browser.py) are not modelled, because the functions they test are not in `browser.py`. Neither are the tests of behaviour this source lacks: attributes, selectors, `DrawRect`, bullets.
