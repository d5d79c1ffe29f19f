/**
 * The document tree shared by the parser, the style pass and the layout engine.
 * html_parser.py names the child list `child` and has no attributes, while
 * css_parser.py and layout.py read `children` and `attribute`; one node type
 * serves all three here. `style` is the map the style pass writes.
 */
module Dom {
  import opened Strings

  datatype Node =
    | Text(text: string, style: map<string, string>)
    | Element(tag: string, attributes: map<string, string>, children: seq<Node>, style: map<string, string>)

  /** Neither angle bracket occurs in s. */
  predicate AngleFree(s: string) { '<' !in s && '>' !in s }

  /** No text and no tag anywhere in the tree holds an angle bracket. */
  predicate TreeAngleFree(n: Node) {
    match n
    case Text(t, _) => AngleFree(t)
    case Element(tag, _, ch, _) => AngleFree(tag) && forall k :: 0 <= k < |ch| ==> TreeAngleFree(ch[k])
  }
}
