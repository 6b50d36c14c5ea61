/**
 * The parsed page as an explicit tree, with the three queries the scraper
 * uses: find-all by (tag, class), find-first, and stripped text.
 */
module Html {
  import opened Wrappers
  import opened Strings
  import opened Seqs

  /** An element (tag, class list, optional `href`, ordered children) or a text leaf. */
  datatype Node =
    | Element(tag: string, classes: set<string>, href: Option<string>, children: seq<Node>)
    | TextNode(data: string)

  /** A descendant together with its parent (the node whose `children` hold it). */
  datatype Edge = Edge(parent: Node, child: Node)

  /** `card.get('href', '')`: the `href` attribute, or the empty string when absent. */
  function HrefOr(n: Node): string {
    if n.Element? then n.href.GetOr("") else ""
  }

  /** A selector step `(tag, class_=cls)`: an element with that tag whose class list holds `cls`. */
  predicate Matches(x: Node, tag: string, cls: string) {
    x.Element? && x.tag == tag && cls in x.classes
  }

  /** All descendants of `n`, not `n` itself, in document (pre-)order. */
  function Descendants(n: Node): seq<Node>
    decreases n, 1
  {
    match n
    case TextNode(_) => []
    case Element(_, _, _, ch) => DescendantsOf(ch)
  }

  /** Each node of `ch` followed by its descendants, for the nodes of `ch` in order. */
  function DescendantsOf(ch: seq<Node>): seq<Node>
    decreases ch, 0
  {
    if ch == [] then [] else [ch[0]] + Descendants(ch[0]) + DescendantsOf(ch[1..])
  }

  /**
   * `n.find_all(tag, class_=cls)`: a recursive descent that lists the matching
   * descendants of `n` in document order.
   */
  function FindAll(n: Node, tag: string, cls: string): seq<Node>
    decreases n, 1
  {
    match n
    case TextNode(_) => []
    case Element(_, _, _, ch) => FindAllIn(ch, tag, cls)
  }

  function FindAllIn(ch: seq<Node>, tag: string, cls: string): seq<Node>
    decreases ch, 0
  {
    if ch == [] then []
    else (if Matches(ch[0], tag, cls) then [ch[0]] else []) + FindAll(ch[0], tag, cls) + FindAllIn(ch[1..], tag, cls)
  }

  /** The recursive descent selects exactly: the descendants of `n` that match, in document order. */
  lemma {:induction false} FindAllIsFilter(n: Node, tag: string, cls: string)
    ensures FindAll(n, tag, cls) == Filter(x => Matches(x, tag, cls), Descendants(n))
    decreases n, 1
  {
    match n
    case TextNode(_) =>
    case Element(_, _, _, ch) => FindAllInIsFilter(ch, tag, cls);
  }

  lemma {:induction false} FindAllInIsFilter(ch: seq<Node>, tag: string, cls: string)
    ensures FindAllIn(ch, tag, cls) == Filter(x => Matches(x, tag, cls), DescendantsOf(ch))
    decreases ch, 0
  {
    if ch != [] {
      var m := x => Matches(x, tag, cls);
      FilterConcat(m, [ch[0]] + Descendants(ch[0]), DescendantsOf(ch[1..]));
      FilterConcat(m, [ch[0]], Descendants(ch[0]));
      FilterSingleton(m, ch[0]);
      FindAllIsFilter(ch[0], tag, cls);
      FindAllInIsFilter(ch[1..], tag, cls);
    }
  }

  /** `find_all` returns exactly the matching descendants, each as often as it occurs. */
  lemma FindAllSpec(n: Node, tag: string, cls: string)
    ensures forall x :: x in FindAll(n, tag, cls) <==> x in Descendants(n) && Matches(x, tag, cls)
    ensures forall x :: Matches(x, tag, cls) ==> multiset(FindAll(n, tag, cls))[x] == multiset(Descendants(n))[x]
  {
    FindAllIsFilter(n, tag, cls);
    FilterSpec(x => Matches(x, tag, cls), Descendants(n));
  }

  /** Depth-first search for the first matching descendant of `n`, reported with its parent. */
  function FindEdge(n: Node, tag: string, cls: string): Option<Edge>
    decreases n, 1
  {
    match n
    case TextNode(_) => None
    case Element(_, _, _, ch) => FindEdgeIn(n, ch, tag, cls)
  }

  /** The search of `FindEdge` over the children `ch` of `p`, left to right. */
  function FindEdgeIn(p: Node, ch: seq<Node>, tag: string, cls: string): Option<Edge>
    decreases ch, 0
  {
    if ch == [] then None
    else if Matches(ch[0], tag, cls) then Some(Edge(p, ch[0]))
    else
      match FindEdge(ch[0], tag, cls)
      case Some(e) => Some(e)
      case None => FindEdgeIn(p, ch[1..], tag, cls)
  }

  /**
   * `n.find(tag, class_=cls)`: like bs4, the first result of the same search
   * as `find_all`, or nothing when that search finds nothing.
   */
  function Find(n: Node, tag: string, cls: string): Option<Node> {
    var all := FindAll(n, tag, cls);
    if all == [] then None else Some(all[0])
  }

  /** The search finds the head of the find-all list, and only when that list is non-empty. */
  lemma {:induction false} FindEdgeFirst(n: Node, tag: string, cls: string)
    ensures FindEdge(n, tag, cls).None? <==> FindAll(n, tag, cls) == []
    ensures FindEdge(n, tag, cls).Some? ==> FindEdge(n, tag, cls).value.child == FindAll(n, tag, cls)[0]
    decreases n, 1
  {
    match n
    case TextNode(_) =>
    case Element(_, _, _, ch) => FindEdgeInFirst(n, ch, tag, cls);
  }

  lemma {:induction false} FindEdgeInFirst(p: Node, ch: seq<Node>, tag: string, cls: string)
    ensures var all := FindAllIn(ch, tag, cls);
      && (FindEdgeIn(p, ch, tag, cls).None? <==> all == [])
      && (FindEdgeIn(p, ch, tag, cls).Some? ==> FindEdgeIn(p, ch, tag, cls).value.child == all[0])
    decreases ch, 0
  {
    if ch != [] {
      FindEdgeFirst(ch[0], tag, cls);
      FindEdgeInFirst(p, ch[1..], tag, cls);
    }
  }

  /**
   * The parent reported with a found node really is its parent, and lies inside
   * the searched subtree: it is `n` itself or one of its descendants.
   */
  lemma {:induction false} FindEdgeParent(n: Node, tag: string, cls: string)
    requires FindEdge(n, tag, cls).Some?
    ensures var e := FindEdge(n, tag, cls).value;
      && Matches(e.child, tag, cls)
      && e.parent.Element? && e.child in e.parent.children
      && (e.parent == n || e.parent in Descendants(n))
    decreases n, 1
  {
    match n
    case Element(_, _, _, ch) => FindEdgeInParent(n, ch, tag, cls);
  }

  lemma {:induction false} FindEdgeInParent(p: Node, ch: seq<Node>, tag: string, cls: string)
    requires FindEdgeIn(p, ch, tag, cls).Some?
    ensures var e := FindEdgeIn(p, ch, tag, cls).value;
      && Matches(e.child, tag, cls)
      && ((e.parent == p && e.child in ch)
          || (e.parent.Element? && e.child in e.parent.children && e.parent in DescendantsOf(ch)))
    decreases ch, 0
  {
    if !Matches(ch[0], tag, cls) {
      if FindEdge(ch[0], tag, cls).Some? {
        FindEdgeParent(ch[0], tag, cls);
      } else {
        FindEdgeInParent(p, ch[1..], tag, cls);
      }
    }
  }

  /**
   * `n.get_text(strip=True)`: every text leaf under `n`, stripped, concatenated
   * in document order (leaves that strip to nothing contribute nothing).
   */
  function Text(n: Node): string
    decreases n, 1
  {
    match n
    case TextNode(s) => Strip(s)
    case Element(_, _, _, ch) => TextOf(ch)
  }

  function TextOf(ch: seq<Node>): string
    decreases ch, 0
  {
    if ch == [] then "" else Text(ch[0]) + TextOf(ch[1..])
  }

  /** Extracted text never starts or ends with whitespace, so stripping it again changes nothing. */
  lemma {:induction false} TextTrimmed(n: Node)
    ensures IsTrimmed(Text(n))
    ensures Strip(Text(n)) == Text(n)
    decreases n, 1
  {
    match n
    case TextNode(_) => StripTrimmed(Text(n));
    case Element(_, _, _, ch) =>
      TextOfTrimmed(ch);
      StripTrimmed(Text(n));
  }

  lemma {:induction false} TextOfTrimmed(ch: seq<Node>)
    ensures IsTrimmed(TextOf(ch))
    decreases ch, 0
  {
    if ch != [] {
      TextTrimmed(ch[0]);
      TextOfTrimmed(ch[1..]);
      TrimmedConcat(Text(ch[0]), TextOf(ch[1..]));
    }
  }
}
