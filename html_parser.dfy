/**
 * HTMLParser from html_parser.py: a character scanner that builds the tree with
 * an explicit stack of open elements (`unfinished`).
 *
 * An element stays mutable only while it is on the stack (only the innermost
 * open element receives children), so each stack entry holds the children
 * appended to it so far, and an element becomes an immutable Node when it is
 * popped. The `parent` pointer of an entry is kept as the stack index of the
 * element it was created under (-1 for Python's None).
 */
module HtmlParser {
  import opened Wrappers
  import opened Strings
  import opened Dom

  datatype OpenElement = OpenElement(tag: string, parent: int, children: seq<Node>)

  /** The two ways the source fails: `None.child` (AttributeError) and `pop from empty list` (IndexError). */
  datatype ParseError = NoOpenElement | PopFromEmpty

  /** The finished node for an entry taken off the stack. */
  function Finish(e: OpenElement): Node {
    Element(e.tag, map[], e.children, map[])
  }

  function Top(stack: seq<OpenElement>): OpenElement
    requires stack != []
  {
    stack[|stack| - 1]
  }

  /** Every entry's parent is the entry beneath it. */
  predicate Linked(stack: seq<OpenElement>) {
    forall k :: 0 <= k < |stack| ==> stack[k].parent == k - 1
  }

  predicate EntryClean(e: OpenElement) {
    AngleFree(e.tag) && forall j :: 0 <= j < |e.children| ==> TreeAngleFree(e.children[j])
  }

  /** No angle bracket in any open tag or in any child attached so far. */
  predicate Clean(stack: seq<OpenElement>) {
    forall k :: 0 <= k < |stack| ==> EntryClean(stack[k])
  }

  /** `parent.child.append(node)` where parent is the innermost open element. */
  function Attach(stack: seq<OpenElement>, n: Node): (r: seq<OpenElement>)
    requires stack != []
    ensures |r| == |stack| && r[..|r| - 1] == stack[..|stack| - 1]
    ensures Top(r).children == Top(stack).children + [n]
    ensures forall k :: 0 <= k < |r| ==> r[k].tag == stack[k].tag && r[k].parent == stack[k].parent
    ensures Linked(stack) ==> Linked(r)
    ensures Clean(stack) && TreeAngleFree(n) ==> Clean(r)
  {
    var top := Top(stack);
    stack[..|stack| - 1] + [top.(children := top.children + [n])]
  }

  /** `self.unfinished.append(Element(tag, parent))` with the previous top as parent. */
  function Push(stack: seq<OpenElement>, tag: string): (r: seq<OpenElement>)
    ensures |r| == |stack| + 1 && r[..|stack|] == stack
    ensures Top(r) == OpenElement(tag, |stack| - 1, [])
    ensures Linked(stack) ==> Linked(r)
    ensures Clean(stack) && AngleFree(tag) ==> Clean(r)
  {
    stack + [OpenElement(tag, |stack| - 1, [])]
  }

  /**
   * `node = unfinished.pop(); unfinished[-1].child.append(node)`: on a linked
   * stack the popped element lands as the last child of the entry its
   * `parent` names.
   */
  function PopAttach(stack: seq<OpenElement>): (r: seq<OpenElement>)
    requires |stack| >= 2
    ensures |r| == |stack| - 1 && r[..|r| - 1] == stack[..|stack| - 2]
    ensures Top(r).tag == stack[|stack| - 2].tag && Top(r).parent == stack[|stack| - 2].parent
    ensures Top(r).children == stack[|stack| - 2].children + [Finish(Top(stack))]
    ensures Linked(stack) ==> Top(r).children == stack[Top(stack).parent].children + [Finish(Top(stack))]
    ensures Linked(stack) ==> Linked(r)
    ensures Clean(stack) ==> Clean(r)
  {
    var node := Finish(Top(stack));
    var rest := stack[..|stack| - 1];
    assert Clean(stack) ==> EntryClean(Top(stack)) && TreeAngleFree(node);
    Attach(rest, node)
  }

  /** add_text: the text becomes the last child of the innermost open element; with nothing open it fails. */
  function AddTextStep(stack: seq<OpenElement>, text: string): (r: Option<seq<OpenElement>>)
    ensures r.Some? <==> stack != []
    ensures r.Some? ==> |r.value| == |stack| && Top(r.value).children == Top(stack).children + [Text(text, map[])]
  {
    if stack == [] then None else Some(Attach(stack, Text(text, map[])))
  }

  /**
   * add_tag: a tag ending in `/` is appended to the innermost open element
   * without being pushed; one starting with `/` pops the innermost element
   * whatever its name, and is ignored when exactly one element is open; any
   * other tag is pushed.
   */
  function AddTagStep(stack: seq<OpenElement>, tag: string): (r: Option<seq<OpenElement>>)
    ensures r.None? <==> stack == [] && (EndsWith(tag, "/") || StartsWith(tag, "/"))
    ensures r.Some? && EndsWith(tag, "/") ==>
      r.value == Attach(stack, Element(tag, map[], [], map[]))
    ensures r.Some? && !EndsWith(tag, "/") && StartsWith(tag, "/") ==>
      r.value == (if |stack| == 1 then stack else PopAttach(stack))
    ensures !EndsWith(tag, "/") && !StartsWith(tag, "/") ==>
      r == Some(Push(stack, tag))
    ensures r.Some? && Linked(stack) ==> Linked(r.value)
    ensures r.Some? && Clean(stack) && AngleFree(tag) ==> Clean(r.value)
  {
    if EndsWith(tag, "/") then
      if stack == [] then None else Some(Attach(stack, Element(tag, map[], [], map[])))
    else if StartsWith(tag, "/") then
      if |stack| == 1 then Some(stack)
      else if stack == [] then None
      else Some(PopAttach(stack))
    else
      Some(Push(stack, tag))
  }

  /**
   * close_unfinished_node: with nothing open an `html` element is opened
   * first; the stack is then folded innermost-first and the bottom element is
   * the root.
   */
  function CloseAll(stack: seq<OpenElement>): (r: Node)
    requires Linked(stack)
    ensures r.Element?
    ensures stack == [] ==> r == Element("html", map[], [], map[])
    ensures stack != [] ==> r.tag == stack[0].tag
    ensures |stack| == 1 ==> r == Finish(stack[0])
    ensures Clean(stack) ==> TreeAngleFree(r)
    decreases if stack == [] then 1 else 0, |stack|
  {
    if stack == [] then CloseAll(Push(stack, "html"))
    else if |stack| == 1 then
      assert Clean(stack) ==> EntryClean(stack[0]);
      Finish(stack[0])
    else CloseAll(PopAttach(stack))
  }

  /**
   * The tree the open elements form, defined outside-in: the bottom entry,
   * finished, with the tree of the entries above it as its last child.
   */
  function Nested(stack: seq<OpenElement>): Node
    requires stack != []
    decreases |stack|
  {
    if |stack| == 1 then Finish(stack[0])
    else Element(stack[0].tag, map[], stack[0].children + [Nested(stack[1..])], map[])
  }

  /** Closing the innermost element does not change the tree the stack stands for. */
  lemma {:induction false} PopAttachNested(stack: seq<OpenElement>)
    requires |stack| >= 2
    ensures Nested(PopAttach(stack)) == Nested(stack)
    decreases |stack|
  {
    var n := |stack|;
    var r := PopAttach(stack);
    assert stack[1..][0] == stack[1];
    if n == 2 {
      assert r[0] == Top(r);
    } else {
      var q := PopAttach(stack[1..]);
      assert Top(q) == Top(r);
      assert q[..|q| - 1] == r[1..|r| - 1];
      assert r[1..] == q by {
        assert r[1..] == r[1..|r| - 1] + [Top(r)];
        assert q == q[..|q| - 1] + [Top(q)];
      }
      assert r[0] == stack[0];
      PopAttachNested(stack[1..]);
    }
  }

  /**
   * close_unfinished_node folds the open elements innermost-first: each one
   * ends as the last child of the one beneath it, and the bottom one is the
   * root.
   */
  lemma {:induction false} CloseAllNested(stack: seq<OpenElement>)
    requires Linked(stack) && stack != []
    ensures CloseAll(stack) == Nested(stack)
    decreases |stack|
  {
    if |stack| > 1 {
      PopAttachNested(stack);
      CloseAllNested(PopAttach(stack));
    }
  }

  /** The locals of `parse` between two characters: the buffered text, `in_tag`, and the stack. */
  datatype Scanner = Scanner(text: string, inTag: bool, stack: seq<OpenElement>)

  /** Text flushed at `<`: every newline removed, then stripped. */
  function Flushed(text: string): (r: string)
    ensures '\n' !in r
    ensures r == [] <==> AllSpace(RemoveChar(text, '\n'))
    ensures AngleFree(text) ==> AngleFree(r)
  {
    Strip(RemoveChar(text, '\n'))
  }

  /**
   * One character of `parse`: `<` flushes the buffered text (a blank run adds
   * nothing) and enters a tag, `>` hands the buffer to add_tag and leaves the
   * tag, and anything else is buffered.
   */
  function ScanChar(s: Scanner, c: char): (r: Result<Scanner, ParseError>)
    ensures r.Success? ==> r.value.text == (if c == '<' || c == '>' then "" else s.text + [c])
    ensures r.Success? && (c == '<' || c == '>') ==> r.value.inTag == (c == '<')
    ensures r.Success? && Linked(s.stack) ==> Linked(r.value.stack)
    ensures r.Success? && Clean(s.stack) && AngleFree(s.text) ==> Clean(r.value.stack) && AngleFree(r.value.text)
    ensures r.Failure? ==> s.stack == []
    ensures r.Success? && c == '<' && Flushed(s.text) == [] ==> r.value.stack == s.stack
    ensures r.Success? && c == '<' && Flushed(s.text) != [] ==> AddTextStep(s.stack, Flushed(s.text)) == Some(r.value.stack)
    ensures r.Success? && c == '>' ==> AddTagStep(s.stack, s.text) == Some(r.value.stack)
    ensures c != '<' && c != '>' ==> r == Success(Scanner(s.text + [c], s.inTag, s.stack))
    ensures r.Failure? <==> (s.stack == [] &&
      ((c == '<' && Flushed(s.text) != []) || (c == '>' && (EndsWith(s.text, "/") || StartsWith(s.text, "/")))))
  {
    if c == '<' then
      var t := Flushed(s.text);
      if t == [] then Success(Scanner("", true, s.stack))
      else match AddTextStep(s.stack, t)
        case None => Failure(NoOpenElement)
        case Some(st) => Success(Scanner("", true, st))
    else if c == '>' then
      match AddTagStep(s.stack, s.text)
      case None => Failure(if EndsWith(s.text, "/") then NoOpenElement else PopFromEmpty)
      case Some(st) => Success(Scanner("", false, st))
    else
      Success(s.(text := s.text + [c]))
  }

  /** The characters of `rest` scanned in order, stopping at the first error. */
  function ScanAll(s: Scanner, rest: string): (r: Result<Scanner, ParseError>)
    ensures r.Success? && Linked(s.stack) ==> Linked(r.value.stack)
    ensures r.Success? && Clean(s.stack) && AngleFree(s.text) ==> Clean(r.value.stack) && AngleFree(r.value.text)
    decreases |rest|
  {
    if rest == [] then Success(s)
    else match ScanChar(s, rest[0])
      case Failure(e) => Failure(e)
      case Success(s') => ScanAll(s', rest[1..])
  }

  /**
   * `parse` on a body, from a stack of open elements: scan every character,
   * add trailing text that is not inside a tag as it is, then close what is
   * still open.
   */
  function Parsed(body: string, stack: seq<OpenElement>): (r: Result<Node, ParseError>)
    requires Linked(stack)
  {
    match ScanAll(Scanner("", false, stack), body)
    case Failure(e) => Failure(e)
    case Success(s) =>
      if !s.inTag && s.text != [] then
        match AddTextStep(s.stack, s.text)
        case None => Failure(NoOpenElement)
        case Some(st) => Success(CloseAll(st))
      else Success(CloseAll(s.stack))
  }

  /**
   * Neither bracket ever reaches a text or a tag: starting from a clean
   * stack, a parsed tree is an element free of them.
   */
  lemma ParsedAngleFree(body: string, stack: seq<OpenElement>)
    requires Linked(stack) && Clean(stack)
    ensures Parsed(body, stack).Success? ==> Parsed(body, stack).value.Element? && TreeAngleFree(Parsed(body, stack).value)
  {
  }

  /** Scanning a + b is scanning a, then b from where a left off. */
  lemma {:induction false} ScanAllAppend(s: Scanner, a: string, b: string)
    ensures ScanAll(s, a + b) ==
      match ScanAll(s, a)
      case Failure(e) => Failure(e)
      case Success(s') => ScanAll(s', b)
    decreases |a|
  {
    if a == [] {
      assert a + b == b;
    } else {
      assert (a + b)[0] == a[0] && (a + b)[1..] == a[1..] + b;
      match ScanChar(s, a[0])
      case Failure(e) =>
      case Success(s') => ScanAllAppend(s', a[1..], b);
    }
  }

  /** Text without brackets is only buffered: the stack and `in_tag` stay as they are. */
  lemma {:induction false} ScanPlain(s: Scanner, t: string)
    requires AngleFree(t)
    ensures ScanAll(s, t) == Success(s.(text := s.text + t))
    decreases |t|
  {
    if t == [] {
      assert s.text + t == s.text;
    } else {
      assert t[0] in t;
      assert forall x :: x in t[1..] ==> x in t;
      ScanPlain(s.(text := s.text + [t[0]]), t[1..]);
      assert s.text + [t[0]] + t[1..] == s.text + t;
    }
  }

  /**
   * Text after the last tag is added as it is (neither its newlines removed
   * nor stripped) as the last child of the innermost open element.
   */
  lemma TrailingTextKept(body: string, stack: seq<OpenElement>, st: seq<OpenElement>, t: string)
    requires Linked(stack)
    requires ScanAll(Scanner("", false, stack), body) == Success(Scanner("", false, st))
    requires st != [] && t != [] && AngleFree(t)
    ensures Linked(st)
    ensures Parsed(body + t, stack) == Success(CloseAll(Attach(st, Text(t, map[]))))
  {
    var s1 := Scanner("", false, st);
    ScanAllAppend(Scanner("", false, stack), body, t);
    ScanPlain(s1, t);
    assert ScanAll(Scanner("", false, stack), body + t) == Success(Scanner(t, false, st)) by {
      assert s1.(text := s1.text + t) == Scanner(t, false, st);
    }
    assert AddTextStep(st, t) == Some(Attach(st, Text(t, map[])));
  }

  /** A tag still open when the body ends is dropped, and so is the text buffered after a tag. */
  lemma UnterminatedTagDropped(body: string, stack: seq<OpenElement>, st: seq<OpenElement>, t: string)
    requires Linked(stack)
    requires ScanAll(Scanner("", false, stack), body) == Success(Scanner("", false, st))
    requires AngleFree(t)
    ensures Linked(st)
    ensures Parsed(body + "<" + t, stack) == Success(CloseAll(st))
  {
    var s0 := Scanner("", false, stack);
    var s1 := Scanner("", false, st);
    ScanAllAppend(s0, body + "<", t);
    ScanAllAppend(s0, body, "<");
    assert Flushed("") == [];
    assert ScanAll(s1, "<") == Success(Scanner("", true, st));
    ScanPlain(Scanner("", true, st), t);
  }

  class HTMLParser {
    const body: string
    var unfinished: seq<OpenElement>

    ghost predicate Valid()
      reads this
    {
      Linked(unfinished)
    }

    constructor (body: string)
      ensures this.body == body && unfinished == [] && Valid()
    {
      this.body := body;
      unfinished := [];
    }

    /** `parse`: the characters one by one, then the trailing text, then close_unfinished_node. */
    method Parse() returns (r: Result<Node, ParseError>)
      requires Valid()
      modifies this
      ensures Valid()
      ensures r == Parsed(body, old(unfinished))
      ensures r.Success? ==> unfinished == []
    {
      var text := "";
      var inTag := false;
      var k := 0;
      while k < |body|
        invariant 0 <= k <= |body|
        invariant Valid()
        invariant ScanAll(Scanner(text, inTag, unfinished), body[k..]) == ScanAll(Scanner("", false, old(unfinished)), body)
      {
        assert body[k..][0] == body[k] && body[k..][1..] == body[k + 1..];
        var err;
        text, inTag, err := ParseChar(text, inTag, body[k]);
        if err.Some? {
          return Failure(err.value);
        }
        k := k + 1;
      }
      assert body[k..] == [];
      if !inTag && text != [] {
        var err := AddText(text);
        if err.Some? {
          return Failure(err.value);
        }
      }
      var root := CloseUnfinishedNode();
      return Success(root);
    }

    /** The body of the loop in `parse` for one character. */
    method ParseChar(text: string, inTag: bool, c: char) returns (text': string, inTag': bool, err: Option<ParseError>)
      requires Valid()
      modifies this
      ensures Valid()
      ensures var r := ScanChar(Scanner(text, inTag, old(unfinished)), c);
        if r.Success? then err.None? && r.value == Scanner(text', inTag', unfinished) else err == Some(r.error)
    {
      text', inTag' := text, inTag;
      if c == '<' {
        inTag' := true;
        text' := RemoveChar(text', '\n');
        text' := Strip(text');
        if text' != [] {
          err := AddText(text');
          if err.Some? {
            return;
          }
        }
        text' := "";
      } else if c == '>' {
        inTag' := false;
        err := AddTag(text');
        if err.Some? {
          return;
        }
        text' := "";
      } else {
        text' := text' + [c];
      }
      err := None;
    }

    method AddText(text: string) returns (err: Option<ParseError>)
      requires Valid()
      modifies this
      ensures Valid()
      ensures var r := AddTextStep(old(unfinished), text);
        err.None? == r.Some? && unfinished == if r.Some? then r.value else old(unfinished)
      ensures err.Some? ==> err.value == NoOpenElement
    {
      if unfinished == [] {
        return Some(NoOpenElement);
      }
      var parent := unfinished[|unfinished| - 1];
      var node := Text(text, map[]);
      unfinished := unfinished[..|unfinished| - 1] + [parent.(children := parent.children + [node])];
      err := None;
    }

    method AddTag(tag: string) returns (err: Option<ParseError>)
      requires Valid()
      modifies this
      ensures Valid()
      ensures var r := AddTagStep(old(unfinished), tag);
        err.None? == r.Some? && unfinished == if r.Some? then r.value else old(unfinished)
      ensures err.Some? ==> err.value == (if EndsWith(tag, "/") then NoOpenElement else PopFromEmpty)
    {
      if EndsWith(tag, "/") {
        if unfinished == [] {
          return Some(NoOpenElement);
        }
        var parent := unfinished[|unfinished| - 1];
        var node := Element(tag, map[], [], map[]);
        unfinished := unfinished[..|unfinished| - 1] + [parent.(children := parent.children + [node])];
      } else if StartsWith(tag, "/") {
        if |unfinished| == 1 {
          return None;
        }
        if unfinished == [] {
          return Some(PopFromEmpty);
        }
        var node := unfinished[|unfinished| - 1];
        unfinished := unfinished[..|unfinished| - 1];
        var parent := unfinished[|unfinished| - 1];
        unfinished := unfinished[..|unfinished| - 1] + [parent.(children := parent.children + [Finish(node)])];
      } else {
        var node := OpenElement(tag, |unfinished| - 1, []);
        unfinished := unfinished + [node];
      }
      err := None;
    }

    method CloseUnfinishedNode() returns (root: Node)
      requires Valid()
      modifies this
      ensures root == CloseAll(old(unfinished))
      ensures unfinished == [] && Valid()
    {
      if |unfinished| == 0 {
        var _ := AddTag("html");
      }
      while |unfinished| > 1
        invariant Valid() && unfinished != []
        invariant CloseAll(unfinished) == CloseAll(old(unfinished))
      {
        var node := unfinished[|unfinished| - 1];
        unfinished := unfinished[..|unfinished| - 1];
        var parent := unfinished[|unfinished| - 1];
        unfinished := unfinished[..|unfinished| - 1] + [parent.(children := parent.children + [Finish(node)])];
      }
      root := Finish(unfinished[0]);
      unfinished := [];
    }
  }
}
