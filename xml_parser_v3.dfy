/** The accessibility-tree reader: bounds parsing, box geometry, the
    interactive-node collection and the three filtering passes that turn a
    UI dump into the numbered element list the model is shown. */
module XmlParserV3 {
  import opened Util

  /** A screen rectangle `[x1,y1][x2,y2]`. */
  datatype Box = Box(x1: int, y1: int, x2: int, y2: int) {
    /** A non-empty box: the only kind bounds parsing yields. */
    predicate Proper() {
      x1 < x2 && y1 < y2
    }

    /** The centre, rounding down as `//` does; it lies inside a proper box. */
    function Center(): (c: (int, int))
      ensures Proper() ==> x1 <= c.0 < x2 && y1 <= c.1 < y2
      ensures c.0 + c.0 <= x1 + x2 < c.0 + c.0 + 2 && c.1 + c.1 <= y1 + y2 < c.1 + c.1 + 2
    {
      ((x1 + x2) / 2, (y1 + y2) / 2)
    }

    function Area(): (a: int)
      ensures Proper() ==> a >= (x2 - x1) && a >= (y2 - y1) && a > 0
    {
      ProductAtLeastSides(x2 - x1, y2 - y1);
      (x2 - x1) * (y2 - y1)
    }

    function ToList(): (r: seq<int>)
      ensures |r| == 4 && Box(r[0], r[1], r[2], r[3]) == this
    {
      [x1, y1, x2, y2]
    }
  }

  lemma MulLe(p: int, q: int, bigP: int, bigQ: int)
    requires 0 <= p <= bigP && 0 <= q <= bigQ
    ensures p * q <= bigP * bigQ
  {
    assert p * q <= bigP * q;
    assert bigP * q <= bigP * bigQ;
  }

  lemma ProductAtLeastSides(w: int, h: int)
    ensures w > 0 && h > 0 ==> w * h >= w && w * h >= h && w * h > 0
  {
    if w > 0 && h > 0 {
      MulLe(1, h, w, h);
      MulLe(w, 1, w, h);
    }
  }

  /** Area of the overlap of two boxes; 0 when they are apart (the early
      return of `calculate_iou`). */
  function Intersection(a: Box, b: Box): (r: int)
    ensures r >= 0
    ensures a.x2 <= b.x1 || b.x2 <= a.x1 || a.y2 <= b.y1 || b.y2 <= a.y1 ==> r == 0
    ensures a.Proper() && b.Proper() ==> r <= a.Area() && r <= b.Area()
  {
    var x1, y1 := Max(a.x1, b.x1), Max(a.y1, b.y1);
    var x2, y2 := Min(a.x2, b.x2), Min(a.y2, b.y2);
    if x2 < x1 || y2 < y1 then 0
    else
      assert 0 <= (x2 - x1) * (y2 - y1) by { MulLe(0, 0, x2 - x1, y2 - y1); }
      MulLe(x2 - x1, y2 - y1, a.x2 - a.x1, a.y2 - a.y1);
      MulLe(x2 - x1, y2 - y1, b.x2 - b.x1, b.y2 - b.y1);
      (x2 - x1) * (y2 - y1)
  }

  /** `iou2 > 0.9 and iou1 < 0.5` of `calculate_iou(container, inner)`, the
      ratios compared by cross-multiplication: `inner` lies almost wholly
      inside `container` while covering less than half of it. */
  predicate Encloses(container: Box, inner: Box) {
    var i := Intersection(container, inner);
    (inner.Area() > 0 && 10 * i > 9 * inner.Area())
    && (container.Area() <= 0 || 2 * i < container.Area())
  }

  /** `iou > 0.7`: intersection over union above the duplicate threshold. */
  predicate Duplicates(a: Box, b: Box) {
    var i := Intersection(a, b);
    var union := a.Area() + b.Area() - i;
    union > 0 && 10 * i > 7 * union
  }

  /** The overlap, and so the duplicate test, does not depend on argument order. */
  lemma DuplicatesSymmetric(a: Box, b: Box)
    ensures Intersection(a, b) == Intersection(b, a)
    ensures Duplicates(a, b) == Duplicates(b, a)
  {
  }

  /** Enclosure is one-way: two proper boxes never enclose each other, and
      no proper box encloses itself. */
  lemma EnclosesAsymmetric(a: Box, b: Box)
    requires a.Proper() && b.Proper()
    ensures Encloses(a, b) ==> !Encloses(b, a)
    ensures !Encloses(a, a)
  {
    DuplicatesSymmetric(a, b);
    SelfIntersection(a);
  }

  /** A proper box overlaps itself completely, so it is its own duplicate. */
  lemma SelfIntersection(a: Box)
    requires a.Proper()
    ensures Intersection(a, a) == a.Area()
    ensures Duplicates(a, a)
  {
  }

  /** Boxes that are apart are never duplicates and never enclose each other. */
  lemma ApartNeverRelated(a: Box, b: Box)
    requires a.Proper() && b.Proper()
    requires a.x2 <= b.x1 || b.x2 <= a.x1 || a.y2 <= b.y1 || b.y2 <= a.y1
    ensures !Duplicates(a, b) && !Encloses(a, b) && !Encloses(b, a)
  {
    DuplicatesSymmetric(a, b);
  }

  // ----- bounds text -----

  function DropLeadingBrackets(s: string): (r: string)
    ensures |r| <= |s| && r == s[|s| - |r|..]
    ensures r != [] ==> r[0] != '[' && r[0] != ']'
  {
    if s != [] && (s[0] == '[' || s[0] == ']') then DropLeadingBrackets(s[1..]) else s
  }

  function DropTrailingBrackets(s: string): (r: string)
    ensures |r| <= |s| && r == s[..|r|]
    ensures r != [] ==> r[|r| - 1] != '[' && r[|r| - 1] != ']'
  {
    if s != [] && (s[|s| - 1] == '[' || s[|s| - 1] == ']') then DropTrailingBrackets(s[..|s| - 1]) else s
  }

  /** `s.strip("[]")`. */
  function StripBrackets(s: string): string {
    DropTrailingBrackets(DropLeadingBrackets(s))
  }

  /** `parse_bounds`: the four integers of `"[x1,y1][x2,y2]"`, or None when the
      text does not split into four integers or the box is empty. */
  function ParseBounds(s: string): (r: Option<Box>)
    ensures r.Some? ==> r.value.Proper()
    ensures r.Some? ==> |Split(StripBrackets(ReplaceAll(s, "][", ",")), ',')| == 4
  {
    var parts := Split(StripBrackets(ReplaceAll(s, "][", ",")), ',');
    if |parts| != 4 then None
    else
      match (ParseInt(parts[0]), ParseInt(parts[1]), ParseInt(parts[2]), ParseInt(parts[3]))
      case (Some(x1), Some(y1), Some(x2), Some(y2)) =>
        if x1 >= x2 || y1 >= y2 then None else Some(Box(x1, y1, x2, y2))
      case _ => None
  }

  /** One corner of a box printed as `x,y`. */
  function CornerText(x: int, y: int): string {
    IntToString(x) + "," + IntToString(y)
  }

  /** The bounds text of a box, as the element conversion prints it:
      `[x1,y1][x2,y2]`. */
  function BoundsText(b: Box): string {
    "[" + CornerText(b.x1, b.y1) + "][" + CornerText(b.x2, b.y2) + "]"
  }

  /** A printed number holds no bracket and no comma. */
  lemma NumeralChars(i: int)
    ensures '[' !in IntToString(i) && ']' !in IntToString(i) && ',' !in IntToString(i)
  {
    var s := IntToString(i);
    var n: nat := if i < 0 then -i else i;
    var d := NatToString(n);
    assert forall k :: 0 <= k < |d| ==> IsDigit(d[k]);
    assert forall k :: 0 <= k < |s| ==> s[k] == '-' || IsDigit(s[k]) by {
      if i < 0 {
        assert s == "-" + d;
        forall k | 0 <= k < |s| ensures s[k] == '-' || IsDigit(s[k]) {
          if k > 0 { assert s[k] == d[k - 1]; }
        }
      }
    }
  }

  /** A printed corner holds no bracket, and starts and ends with a
      character of a number. */
  lemma CornerChars(x: int, y: int)
    ensures var c := CornerText(x, y);
      '[' !in c && ']' !in c && c != [] && c[0] != '[' && c[0] != ']'
      && c[|c| - 1] != '[' && c[|c| - 1] != ']'
  {
    var p, q := IntToString(x), IntToString(y);
    NumeralChars(x);
    NumeralChars(y);
    var c := CornerText(x, y);
    assert c == p + ("," + q);
    assert c[0] == p[0] && p[0] in p;
    assert c[|c| - 1] == q[|q| - 1] && q[|q| - 1] in q;
  }

  lemma ReplaceAtJoint(t: string, pat: string, rep: string)
    requires pat == "]["
    ensures ReplaceAll(pat + t, pat, rep) == rep + ReplaceAll(t, pat, rep)
  {
    assert StartsWith(pat + t, pat);
    ReplaceAtStart(pat + t, pat, rep);
    assert (pat + t)[|pat|..] == t;
  }

  lemma ReplaceLastBracket(s: string, pat: string, rep: string)
    requires s == "]" && pat == "]["
    ensures ReplaceAll(s, pat, rep) == s
  {
    ReplaceStep(s, pat, rep);
    assert s[1..] == [];
  }

  lemma Assoc4(x: string, y: string, z: string, w: string)
    ensures x + y + z + w == x + (y + (z + w))
  {
  }

  lemma OpenLacksClose(a: string)
    requires ']' !in a
    ensures ']' !in "[" + a
  {
    assert forall k :: 0 <= k < |"[" + a| ==> ("[" + a)[k] == '[' || ("[" + a)[k] == a[k - 1];
  }

  /** The bracket joint of printed bounds becomes a comma. */
  lemma BoundsReplaced(a: string, c: string, pat: string, rep: string)
    requires pat == "][" && ']' !in a && ']' !in c
    ensures ReplaceAll("[" + a + pat + c + "]", pat, rep) == "[" + a + rep + c + "]"
  {
    var u := "[" + a;
    OpenLacksClose(a);
    Assoc4(u, pat, c, "]");
    ReplaceSkipsPlain(u, pat + (c + "]"), pat, rep);
    ReplaceAtJoint(c + "]", pat, rep);
    ReplaceSkipsPlain(c, "]", pat, rep);
    ReplaceLastBracket("]", pat, rep);
    Assoc4(u, rep, c, "]");
  }

  /** `strip("[]")` removes exactly one bracket from each end of a bracketed
      text whose inside neither starts nor ends with one. */
  lemma StripOuter(body: string)
    requires body != [] && body[0] != '[' && body[0] != ']'
    requires body[|body| - 1] != '[' && body[|body| - 1] != ']'
    ensures StripBrackets("[" + body + "]") == body
  {
    var t := "[" + body + "]";
    var closed := body + "]";
    assert t[1..] == closed && closed[0] == body[0];
    assert DropLeadingBrackets(t) == closed;
    assert closed[..|closed| - 1] == body;
    assert DropTrailingBrackets(closed) == body;
  }

  /** The four numbers of a box, comma-joined. */
  function CommaJoined(b: Box): string {
    CornerText(b.x1, b.y1) + "," + CornerText(b.x2, b.y2)
  }

  lemma CommaJoinedEnds(b: Box)
    ensures var body := CommaJoined(b);
      body != [] && body[0] != '[' && body[0] != ']' && body[|body| - 1] != '[' && body[|body| - 1] != ']'
  {
    var c1, c2 := CornerText(b.x1, b.y1), CornerText(b.x2, b.y2);
    CornerChars(b.x1, b.y1);
    CornerChars(b.x2, b.y2);
    var body := CommaJoined(b);
    assert body[0] == c1[0];
    assert body[|body| - 1] == c2[|c2| - 1];
  }

  /** The comma-joined numbers after the bracket replacement and strip. */
  lemma BoundsCleaned(b: Box)
    ensures StripBrackets(ReplaceAll(BoundsText(b), "][", ",")) == CommaJoined(b)
  {
    var c1, c2 := CornerText(b.x1, b.y1), CornerText(b.x2, b.y2);
    CornerChars(b.x1, b.y1);
    CornerChars(b.x2, b.y2);
    assert ReplaceAll(BoundsText(b), "][", ",") == "[" + CommaJoined(b) + "]" by {
      BoundsReplaced(c1, c2, "][", ",");
      BracketRegroup(c1, c2);
    }
    CommaJoinedEnds(b);
    StripOuter(CommaJoined(b));
  }

  lemma BracketRegroup(x: string, y: string)
    ensures "[" + x + "," + y + "]" == "[" + (x + "," + y) + "]"
  {
  }

  lemma {:induction false} SplitAtFirst(a: string, b: string)
    requires ',' !in a
    ensures Split(a + [','] + b, ',') == [a] + Split(b, ',')
  {
    if a != [] {
      SplitAtFirst(a[1..], b);
      assert (a + [','] + b)[1..] == a[1..] + [','] + b;
      assert a == [a[0]] + a[1..];
    } else {
      assert ([] + [','] + b)[1..] == b;
    }
  }

  lemma Regroup(p: string, q: string, r: string, s: string)
    ensures p + "," + q + "," + (r + "," + s) == p + [','] + (q + [','] + (r + [','] + s))
  {
  }

  lemma SplitFour(p: string, q: string, r: string, s: string)
    requires ',' !in p && ',' !in q && ',' !in r && ',' !in s
    ensures Split(p + "," + q + "," + (r + "," + s), ',') == [p, q, r, s]
  {
    Regroup(p, q, r, s);
    SplitAtFirst(p, q + [','] + (r + [','] + s));
    SplitAtFirst(q, r + [','] + s);
    SplitAtFirst(r, s);
  }

  lemma BoundsSplit(b: Box)
    ensures Split(StripBrackets(ReplaceAll(BoundsText(b), "][", ",")), ',')
      == [IntToString(b.x1), IntToString(b.y1), IntToString(b.x2), IntToString(b.y2)]
  {
    BoundsCleaned(b);
    NumeralChars(b.x1);
    NumeralChars(b.y1);
    NumeralChars(b.x2);
    NumeralChars(b.y2);
    SplitFour(IntToString(b.x1), IntToString(b.y1), IntToString(b.x2), IntToString(b.y2));
  }

  /** Round trip: the printed bounds of a box parse back to that box exactly
      when it is non-empty, and to None otherwise. */
  lemma ParseBoundsText(b: Box)
    ensures ParseBounds(BoundsText(b)) == (if b.Proper() then Some(b) else None)
  {
    BoundsSplit(b);
    ParseIntOfIntToString(b.x1);
    ParseIntOfIntToString(b.y1);
    ParseIntOfIntToString(b.x2);
    ParseIntOfIntToString(b.y2);
  }

  /** Missing or empty bounds give no box. */
  lemma ParseBoundsEmpty()
    ensures ParseBounds("") == None
  {
    assert Split(StripBrackets(ReplaceAll("", "][", ",")), ',') == [[]];
  }

  // ----- nodes -----

  /** One node of the accessibility tree (`DOMNode`); the parent link is
      represented by the ancestor chain the traversals carry. */
  datatype Node = Node(
    text: string, contentDesc: string, resourceId: string, className: string, package: string,
    clickable: bool, longClickable: bool, focusable: bool, enabled: bool,
    box: Option<Box>, children: seq<Node>, highlightIndex: Option<int>)
  {
    predicate IsInteractive() {
      enabled && (clickable || longClickable || focusable)
    }

    /** `text or content_desc`. */
    function DisplayText(): (r: string)
      ensures r == [] <==> text == [] && contentDesc == []
      ensures text != [] ==> r == text
    {
      if text != [] then text else contentDesc
    }
  }

  function Attr(attrs: map<string, string>, key: string, default: string): string {
    if key in attrs then attrs[key] else default
  }

  /** `attrs.get(key, default) == 'true'`. */
  predicate Flag(attrs: map<string, string>, key: string, default: bool) {
    if key in attrs then attrs[key] == "true" else default
  }

  /** `parse_node_recursive` for one element: the attributes with their
      defaults (flags false, `enabled` true, no box unless the bounds parse). */
  function FromAttributes(attrs: map<string, string>, children: seq<Node>): (n: Node)
    ensures n.box.Some? ==> n.box.value.Proper()
    ensures n.children == children && n.highlightIndex == None
  {
    Node(Strip(Attr(attrs, "text", "")), Strip(Attr(attrs, "content-desc", "")),
      Attr(attrs, "resource-id", ""), Attr(attrs, "class", ""), Attr(attrs, "package", ""),
      Flag(attrs, "clickable", false), Flag(attrs, "long-clickable", false),
      Flag(attrs, "focusable", false), Flag(attrs, "enabled", true),
      ParseBounds(Attr(attrs, "bounds", "")), children, None)
  }

  /** An element without attributes becomes an enabled, non-interactive,
      text-less node without a box. */
  lemma AttributeDefaults(children: seq<Node>)
    ensures var n := FromAttributes(map[], children);
      n.enabled && !n.clickable && !n.longClickable && !n.focusable && !n.IsInteractive()
      && n.box == None && n.DisplayText() == []
  {
    ParseBoundsEmpty();
    assert Strip("") == "";
  }

  /** Some node on the parent chain (parent first) is interactive. */
  predicate AnyInteractive(ancestors: seq<Node>) {
    exists k :: 0 <= k < |ancestors| && ancestors[k].IsInteractive()
  }

  /** `has_parent_interactive`: walk up the parent chain. */
  method HasParentInteractive(ancestors: seq<Node>) returns (found: bool)
    ensures found == AnyInteractive(ancestors)
  {
    var k := 0;
    while k < |ancestors|
      invariant 0 <= k <= |ancestors|
      invariant forall m :: 0 <= m < k ==> !ancestors[m].IsInteractive()
    {
      if ancestors[k].IsInteractive() {
        return true;
      }
      k := k + 1;
    }
    return false;
  }

  /** `get_all_text_recursive`: the node's own text followed by the texts of
      its non-interactive children, `maxDepth` levels down, space-joined. */
  function AllText(n: Node, maxDepth: int): string
    decreases n
  {
    if maxDepth <= 0 then n.DisplayText()
    else Strip(Join((if n.DisplayText() != [] then [n.DisplayText()] else []) + ChildTexts(n.children, maxDepth - 1), ' '))
  }

  function ChildTexts(cs: seq<Node>, maxDepth: int): (r: seq<string>)
    ensures forall k :: 0 <= k < |r| ==> r[k] != []
    ensures |r| <= |cs|
    decreases cs
  {
    if cs == [] then []
    else
      var t := if !cs[0].IsInteractive() then AllText(cs[0], maxDepth) else [];
      (if t != [] then [t] else []) + ChildTexts(cs[1..], maxDepth)
  }

  /** Interactive children are skipped so that their text is not repeated. */
  lemma {:induction false} InteractiveChildrenSilent(cs: seq<Node>, maxDepth: int)
    requires forall k :: 0 <= k < |cs| ==> cs[k].IsInteractive()
    ensures ChildTexts(cs, maxDepth) == []
  {
    if cs != [] {
      InteractiveChildrenSilent(cs[1..], maxDepth);
    }
  }

  /** With only interactive children (or none), a node's collected text is its own. */
  lemma AllTextOwnOnly(n: Node, maxDepth: int)
    requires forall k :: 0 <= k < |n.children| ==> n.children[k].IsInteractive()
    ensures AllText(n, maxDepth) == if maxDepth <= 0 then n.DisplayText() else Strip(n.DisplayText())
  {
    InteractiveChildrenSilent(n.children, maxDepth - 1);
  }

  // ----- collection -----

  /** The rule `traverse` applies to a node with the given parent chain. */
  predicate Collected(n: Node, ancestors: seq<Node>) {
    n.box.Some? && (n.IsInteractive() || (n.DisplayText() != [] && !AnyInteractive(ancestors)))
  }

  /** Every node of the tree under `n`, with its parent chain, in pre-order. */
  function PreOrder(n: Node, ancestors: seq<Node>): (r: seq<(Node, seq<Node>)>)
    ensures |r| >= 1 && r[0] == (n, ancestors)
    decreases n
  {
    [(n, ancestors)] + PreOrderAll(n.children, [n] + ancestors)
  }

  function PreOrderAll(cs: seq<Node>, ancestors: seq<Node>): seq<(Node, seq<Node>)>
    decreases cs
  {
    if cs == [] then [] else PreOrder(cs[0], ancestors) + PreOrderAll(cs[1..], ancestors)
  }

  /** Some entry of the listing holds `n` and the collection rule accepts it. */
  predicate AcceptedIn(n: Node, entries: seq<(Node, seq<Node>)>) {
    exists e :: e in entries && e.0 == n && Collected(e.0, e.1)
  }

  /** The nodes of a listing that the collection rule accepts, in order;
      each one is accepted for some entry of the listing. */
  function Select(entries: seq<(Node, seq<Node>)>): (r: seq<Node>)
    ensures |r| <= |entries|
    ensures forall k :: 0 <= k < |r| ==> AcceptedIn(r[k], entries)
  {
    if entries == [] then []
    else
      var head := if Collected(entries[0].0, entries[0].1) then [entries[0].0] else [];
      var rest := Select(entries[1..]);
      var r := head + rest;
      assert forall k :: 0 <= k < |r| ==> AcceptedIn(r[k], entries) by {
        forall k | 0 <= k < |r| ensures AcceptedIn(r[k], entries) {
          if k < |head| {
            assert entries[0] in entries;
          } else {
            assert r[k] == rest[k - |head|];
            var e :| e in entries[1..] && e.0 == rest[k - |head|] && Collected(e.0, e.1);
            assert e in entries;
          }
        }
      }
      r
  }

  lemma {:induction false} SelectAppend(a: seq<(Node, seq<Node>)>, b: seq<(Node, seq<Node>)>)
    ensures Select(a + b) == Select(a) + Select(b)
  {
    if a != [] {
      SelectAppend(a[1..], b);
      assert (a + b)[1..] == a[1..] + b;
      assert (a + b)[0] == a[0];
    } else {
      assert a + b == b;
    }
  }

  /** `traverse` from `n`: append `n` if the rule accepts it, then visit the children. */
  function CollectFrom(n: Node, ancestors: seq<Node>): (r: seq<Node>)
    ensures r == Select(PreOrder(n, ancestors))
    decreases n
  {
    var rest := CollectChildren(n.children, [n] + ancestors);
    SelectAppend([(n, ancestors)], PreOrderAll(n.children, [n] + ancestors));
    (if Collected(n, ancestors) then [n] else []) + rest
  }

  function CollectChildren(cs: seq<Node>, ancestors: seq<Node>): (r: seq<Node>)
    ensures r == Select(PreOrderAll(cs, ancestors))
    decreases cs
  {
    if cs == [] then []
    else
      SelectAppend(PreOrder(cs[0], ancestors), PreOrderAll(cs[1..], ancestors));
      CollectFrom(cs[0], ancestors) + CollectChildren(cs[1..], ancestors)
  }

  /** `collect_interactive_nodes`: the accepted nodes of the tree in
      pre-order; each is boxed, and interactive or a text node without an
      interactive ancestor. */
  function CollectInteractiveNodes(root: Node): (r: seq<Node>)
    ensures r == Select(PreOrder(root, []))
    ensures forall k :: 0 <= k < |r| ==> r[k].box.Some?
    ensures forall k :: 0 <= k < |r| ==> AcceptedIn(r[k], PreOrder(root, []))
  {
    var r := CollectFrom(root, []);
    assert forall k :: 0 <= k < |r| ==> r[k].box.Some? by {
      forall k | 0 <= k < |r| ensures r[k].box.Some? {
        var e :| e in PreOrder(root, []) && e.0 == r[k] && Collected(e.0, e.1);
      }
    }
    r
  }

  /** The root is collected first exactly when it is boxed and interactive or
      has text (it has no parent). */
  lemma RootFirst(root: Node)
    ensures (root.box.Some? && (root.IsInteractive() || root.DisplayText() != []))
      <==> (|CollectInteractiveNodes(root)| > 0 && CollectInteractiveNodes(root)[0] == root
            && Collected(root, []))
  {
    var entries := PreOrder(root, []);
    assert entries == [(root, [])] + entries[1..];
    SelectAppend([(root, [])], entries[1..]);
    assert !AnyInteractive([]);
  }

  // ----- container filtering -----

  /** How many of the first `k` nodes, other than the `i`-th and boxed, the
      `i`-th encloses. */
  function EnclosedCount(nodes: seq<Node>, i: nat, k: nat): (c: nat)
    requires i < |nodes| && nodes[i].box.Some? && k <= |nodes|
    ensures c <= k
  {
    if k == 0 then 0
    else
      EnclosedCount(nodes, i, k - 1)
      + (if k - 1 != i && nodes[k - 1].box.Some? && Encloses(nodes[i].box.value, nodes[k - 1].box.value) then 1 else 0)
  }

  /** The `i`-th node is a container `filter_container_nodes` drops: boxed,
      enclosing more than two others, and without text. */
  predicate IsContainer(nodes: seq<Node>, i: nat)
    requires i < |nodes|
  {
    nodes[i].box.Some? && EnclosedCount(nodes, i, |nodes|) > 2 && nodes[i].DisplayText() == []
  }

  /** The first `k` nodes with the containers removed. */
  function Survivors(nodes: seq<Node>, k: nat): (r: seq<Node>)
    requires k <= |nodes|
    ensures |r| <= k
  {
    if k == 0 then []
    else Survivors(nodes, k - 1) + (if IsContainer(nodes, k - 1) then [] else [nodes[k - 1]])
  }

  /** The positions the survivors come from: increasing, every one a
      non-container, and every non-container among them. */
  function SurvivorPositions(nodes: seq<Node>, k: nat): (r: seq<nat>)
    requires k <= |nodes|
    ensures forall p :: 0 <= p < |r| ==> r[p] < k && !IsContainer(nodes, r[p])
    ensures forall p, q :: 0 <= p < q < |r| ==> r[p] < r[q]
    ensures forall i :: 0 <= i < k && !IsContainer(nodes, i) ==> i in r
  {
    if k == 0 then []
    else SurvivorPositions(nodes, k - 1) + (if IsContainer(nodes, k - 1) then [] else [k - 1])
  }

  /** Filtering keeps the survivors in their original order: the `p`-th
      survivor is the node at the `p`-th surviving position. */
  lemma {:induction false} SurvivorsInOrder(nodes: seq<Node>, k: nat)
    requires k <= |nodes|
    ensures |Survivors(nodes, k)| == |SurvivorPositions(nodes, k)|
    ensures forall p :: 0 <= p < |Survivors(nodes, k)| ==>
      Survivors(nodes, k)[p] == nodes[SurvivorPositions(nodes, k)[p]]
  {
    if k > 0 {
      SurvivorsInOrder(nodes, k - 1);
    }
  }

  /** Only text-less nodes are ever removed, and only nodes enclosing more than two others. */
  lemma RemovedAreContainers(nodes: seq<Node>, i: nat)
    requires i < |nodes| && i !in SurvivorPositions(nodes, |nodes|)
    ensures nodes[i].DisplayText() == [] && nodes[i].box.Some? && EnclosedCount(nodes, i, |nodes|) > 2
  {
  }

  /** `filter_container_nodes`: count, for every boxed node, the boxed nodes
      it encloses; mark the text-less ones enclosing more than two; keep the rest. */
  method FilterContainerNodes(nodes: seq<Node>) returns (r: seq<Node>)
    ensures r == Survivors(nodes, |nodes|)
  {
    var exclude: set<nat> := {};
    for i := 0 to |nodes|
      invariant forall m: nat :: m in exclude <==> m < i && IsContainer(nodes, m)
    {
      if nodes[i].box.None? {
        continue;
      }
      var count := 0;
      for j := 0 to |nodes|
        invariant count == EnclosedCount(nodes, i, j)
      {
        if i == j || nodes[j].box.None? {
          continue;
        }
        if Encloses(nodes[i].box.value, nodes[j].box.value) {
          count := count + 1;
        }
      }
      if count > 2 && nodes[i].DisplayText() == [] {
        exclude := exclude + {i};
      }
    }
    r := [];
    for i := 0 to |nodes|
      invariant r == Survivors(nodes, i)
    {
      if i !in exclude {
        r := r + [nodes[i]];
      }
    }
  }

  // ----- overlap removal -----

  /** The sort key `(center.y, center.x)`, `(0, 0)` for a node without bounds. */
  function Key(n: Node): (int, int) {
    if n.box.Some? then (n.box.value.Center().1, n.box.value.Center().0) else (0, 0)
  }

  /** Lexicographic order on keys. */
  predicate KeyLe(a: (int, int), b: (int, int)) {
    a.0 < b.0 || (a.0 == b.0 && a.1 <= b.1)
  }

  predicate SortedByKey(s: seq<Node>) {
    forall i, j :: 0 <= i < j < |s| ==> KeyLe(Key(s[i]), Key(s[j]))
  }

  /** Insert `x` after every element whose key is not above its own. */
  function InsertByKey(x: Node, s: seq<Node>): (r: seq<Node>)
    requires SortedByKey(s)
    ensures SortedByKey(r)
    ensures multiset(r) == multiset(s) + multiset{x}
  {
    if s == [] then [x]
    else if !KeyLe(Key(s[0]), Key(x)) then [x] + s
    else
      var rest := InsertByKey(x, s[1..]);
      assert s == [s[0]] + s[1..];
      AboveHead(s, x, rest);
      [s[0]] + rest
  }

  /** Inserting into the tail keeps every element at or above the head's key. */
  lemma AboveHead(s: seq<Node>, x: Node, rest: seq<Node>)
    requires s != [] && SortedByKey(s) && KeyLe(Key(s[0]), Key(x))
    requires multiset(rest) == multiset(s[1..]) + multiset{x}
    ensures forall k :: 0 <= k < |rest| ==> KeyLe(Key(s[0]), Key(rest[k]))
  {
    forall k | 0 <= k < |rest| ensures KeyLe(Key(s[0]), Key(rest[k])) {
      assert rest[k] in multiset(rest);
      if rest[k] != x {
        assert rest[k] in multiset(s[1..]);
        var m :| 0 <= m < |s[1..]| && s[1..][m] == rest[k];
        assert s[m + 1] == rest[k];
      }
    }
  }

  /** `sorted(nodes, key=...)`, stable: equal keys keep their input order. */
  function SortByKey(s: seq<Node>): (r: seq<Node>)
    ensures SortedByKey(r)
    ensures multiset(r) == multiset(s) && |r| == |s|
  {
    if s == [] then []
    else
      var init, last := s[..|s| - 1], s[|s| - 1];
      assert s == init + [last];
      assert multiset(s) == multiset(init) + multiset{last};
      var r := InsertByKey(last, SortByKey(init));
      assert |r| == |multiset(r)| == |multiset(s)| == |s|;
      r
  }

  /** Some already kept node is a duplicate of box `b`. */
  predicate ClashesWithKept(b: Box, kept: seq<Node>) {
    exists m :: 0 <= m < |kept| && kept[m].box.Some? && Duplicates(b, kept[m].box.value)
  }

  /** The overlap pass over a listing: keep each boxed node that is not a
      duplicate of one kept before it. */
  function Deduplicate(s: seq<Node>): (r: seq<Node>)
    ensures forall k :: 0 <= k < |r| ==> r[k].box.Some? && r[k] in s
  {
    if s == [] then []
    else
      var kept := Deduplicate(s[..|s| - 1]);
      var x := s[|s| - 1];
      assert forall y :: y in s[..|s| - 1] ==> y in s;
      if x.box.None? || ClashesWithKept(x.box.value, kept) then kept else kept + [x]
  }

  /** One step of the overlap pass, unfolded. */
  lemma DeduplicateStep(s: seq<Node>)
    requires s != []
    ensures var kept, x := Deduplicate(s[..|s| - 1]), s[|s| - 1];
      Deduplicate(s) == if x.box.None? || ClashesWithKept(x.box.value, kept) then kept else kept + [x]
  {
  }

  /** No node kept later duplicates one kept earlier. */
  lemma {:induction false} DeduplicatePairwise(s: seq<Node>)
    ensures var r := Deduplicate(s);
      forall i, j :: 0 <= i < j < |r| ==> !Duplicates(r[j].box.value, r[i].box.value)
  {
    if s != [] {
      DeduplicatePairwise(s[..|s| - 1]);
      DeduplicateStep(s);
    }
  }

  /** Every boxed node of the input is kept or duplicates a kept node. */
  lemma {:induction false} DeduplicateComplete(s: seq<Node>)
    ensures var r := Deduplicate(s);
      forall y :: y in s && y.box.Some? ==> y in r || ClashesWithKept(y.box.value, r)
  {
    if s != [] {
      var init, x := s[..|s| - 1], s[|s| - 1];
      DeduplicateComplete(init);
      DeduplicateStep(s);
      var kept := Deduplicate(init);
      var r := Deduplicate(s);
      assert |kept| <= |r| && r[..|kept|] == kept;
      forall y | y in s && y.box.Some? ensures y in r || ClashesWithKept(y.box.value, r) {
        if y != x {
          assert y in init by { assert s == init + [x]; }
          if y !in kept {
            ClashesExtend(y.box.value, kept, r);
          }
        }
      }
    }
  }

  /** A clash with a prefix of the kept nodes is a clash with all of them. */
  lemma ClashesExtend(b: Box, kept: seq<Node>, r: seq<Node>)
    requires |kept| <= |r| && r[..|kept|] == kept && ClashesWithKept(b, kept)
    ensures ClashesWithKept(b, r)
  {
    var m :| 0 <= m < |kept| && kept[m].box.Some? && Duplicates(b, kept[m].box.value);
    assert r[m] == kept[m];
  }

  /** The pass keeps the order of a sorted listing. */
  lemma {:induction false} DeduplicateSorted(s: seq<Node>)
    requires SortedByKey(s)
    ensures SortedByKey(Deduplicate(s))
  {
    if s != [] {
      var init, x := s[..|s| - 1], s[|s| - 1];
      assert SortedByKey(init) by {
        assert forall i :: 0 <= i < |init| ==> init[i] == s[i];
      }
      DeduplicateSorted(init);
      DeduplicateStep(s);
      var kept := Deduplicate(init);
      forall i | 0 <= i < |kept| ensures KeyLe(Key(kept[i]), Key(x)) {
        var j :| 0 <= j < |init| && init[j] == kept[i];
        assert s[j] == init[j];
      }
    }
  }

  /** The inner loop of `remove_overlapping_nodes`: does `b` have IoU above
      0.7 with some boxed node kept so far? */
  method IsDuplicate(b: Box, kept: seq<Node>) returns (duplicate: bool)
    ensures duplicate == ClashesWithKept(b, kept)
  {
    duplicate := false;
    var k := 0;
    while k < |kept| && !duplicate
      invariant 0 <= k <= |kept|
      invariant duplicate ==> ClashesWithKept(b, kept)
      invariant !duplicate ==> forall m :: 0 <= m < k && kept[m].box.Some? ==> !Duplicates(b, kept[m].box.value)
    {
      if kept[k].box.Some? && Duplicates(b, kept[k].box.value) {
        duplicate := true;
      }
      k := k + 1;
    }
  }

  /** `remove_overlapping_nodes`: sort by centre, then keep each boxed node
      whose IoU with every node kept so far is at most 0.7. */
  method RemoveOverlappingNodes(nodes: seq<Node>) returns (r: seq<Node>)
    ensures r == Deduplicate(SortByKey(nodes))
  {
    var sorted := SortByKey(nodes);
    r := [];
    for i := 0 to |sorted|
      invariant r == Deduplicate(sorted[..i])
    {
      assert sorted[..i + 1][..i] == sorted[..i];
      DeduplicateStep(sorted[..i + 1]);
      var node1 := sorted[i];
      if node1.box.None? {
        continue;
      }
      var duplicate := IsDuplicate(node1.box.value, r);
      if !duplicate {
        r := r + [node1];
      }
    }
    assert sorted[..|sorted|] == sorted;
  }

  /** What overlap removal promises: every kept node is boxed and comes from
      the input, the output is ordered by centre (y, x), no two kept nodes
      have IoU above 0.7 in either order, and every dropped boxed node
      duplicates a kept one. */
  lemma OverlapRemovalSpec(nodes: seq<Node>)
    ensures var r := Deduplicate(SortByKey(nodes));
      (forall k :: 0 <= k < |r| ==> r[k].box.Some? && r[k] in nodes)
      && SortedByKey(r)
      && (forall i, j :: 0 <= i < |r| && 0 <= j < |r| && i != j ==> !Duplicates(r[i].box.value, r[j].box.value))
      && (forall y :: y in nodes && y.box.Some? ==> y in r || ClashesWithKept(y.box.value, r))
  {
    var sorted := SortByKey(nodes);
    var r := Deduplicate(sorted);
    DeduplicatePairwise(sorted);
    DeduplicateComplete(sorted);
    DeduplicateSorted(sorted);
    forall y | y in sorted ensures y in nodes {
      assert y in multiset(sorted);
    }
    forall y | y in nodes ensures y in sorted {
      assert y in multiset(nodes);
    }
    forall i, j | 0 <= i < |r| && 0 <= j < |r| && i != j
      ensures !Duplicates(r[i].box.value, r[j].box.value)
    {
      if i < j {
        DuplicatesSymmetric(r[i].box.value, r[j].box.value);
      }
    }
  }

  // ----- highlight indices -----

  /** `node.highlight_index = idx`. */
  function WithIndex(n: Node, idx: int): (r: Node)
    ensures r.highlightIndex == Some(idx) && r.box == n.box
  {
    n.(highlightIndex := Some(idx))
  }

  /** Key `k` holds the `k`-th node of `sorted`, marked with `k`, for k in 1..n. */
  ghost predicate NumberedFrom(selectorMap: map<int, Node>, sorted: seq<Node>) {
    (forall k :: k in selectorMap <==> 1 <= k <= |sorted|)
    && forall k :: 1 <= k <= |sorted| ==> selectorMap[k] == WithIndex(sorted[k - 1], k)
  }

  /** `assign_highlight_indices`: number the nodes 1..n in centre order; each
      numbered node carries its own number. */
  method AssignHighlightIndices(nodes: seq<Node>) returns (selectorMap: map<int, Node>)
    ensures forall k :: k in selectorMap <==> 1 <= k <= |nodes|
    ensures |selectorMap| == |nodes|
    ensures NumberedFrom(selectorMap, SortByKey(nodes))
    ensures forall k :: k in selectorMap ==> selectorMap[k].highlightIndex == Some(k)
    ensures forall k1, k2 :: k1 in selectorMap && k2 in selectorMap && k1 <= k2 ==>
      KeyLe(Key(selectorMap[k1]), Key(selectorMap[k2]))
  {
    var sorted := SortByKey(nodes);
    selectorMap := Number(sorted);
    NumberingOrdered(sorted, selectorMap);
  }

  /** The numbering after the first `n` nodes of `sorted`. */
  function Numbering(sorted: seq<Node>, n: nat): map<int, Node>
    requires n <= |sorted|
  {
    if n == 0 then map[] else Numbering(sorted, n - 1)[n := WithIndex(sorted[n - 1], n)]
  }

  lemma {:induction false} NumberingKeys(sorted: seq<Node>, n: nat)
    requires n <= |sorted|
    ensures forall k :: k in Numbering(sorted, n) <==> 1 <= k <= n
    ensures |Numbering(sorted, n)| == n
  {
    if n > 0 {
      NumberingKeys(sorted, n - 1);
    }
  }

  lemma NumberingValues(sorted: seq<Node>, n: nat)
    requires n <= |sorted|
    ensures forall k :: 1 <= k <= n ==> k in Numbering(sorted, n) && Numbering(sorted, n)[k] == WithIndex(sorted[k - 1], k)
  {
    forall k | 1 <= k <= n ensures k in Numbering(sorted, n) && Numbering(sorted, n)[k] == WithIndex(sorted[k - 1], k) {
      NumberingAt(sorted, n, k);
    }
  }

  /** Key `k` of a numbering holds the `k`-th node. */
  lemma {:induction false} NumberingAt(sorted: seq<Node>, n: nat, k: int)
    requires 1 <= k <= n <= |sorted|
    ensures k in Numbering(sorted, n) && Numbering(sorted, n)[k] == WithIndex(sorted[k - 1], k)
  {
    if k < n {
      NumberingAt(sorted, n - 1, k);
    }
  }

  /** The numbering loop: key `idx` holds the `idx`-th node, marked with `idx`. */
  method Number(sorted: seq<Node>) returns (selectorMap: map<int, Node>)
    ensures NumberedFrom(selectorMap, sorted)
    ensures |selectorMap| == |sorted|
  {
    selectorMap := map[];
    for idx := 1 to |sorted| + 1
      invariant selectorMap == Numbering(sorted, idx - 1)
    {
      selectorMap := selectorMap[idx := WithIndex(sorted[idx - 1], idx)];
    }
    NumberingComplete(sorted);
  }

  /** The whole numbering of a listing numbers it from 1. */
  lemma NumberingComplete(sorted: seq<Node>)
    ensures NumberedFrom(Numbering(sorted, |sorted|), sorted)
    ensures |Numbering(sorted, |sorted|)| == |sorted|
  {
    NumberingKeys(sorted, |sorted|);
    NumberingValues(sorted, |sorted|);
  }

  /** A numbering of a sorted listing carries each number in its node and
      follows the centre order. */
  lemma NumberingOrdered(sorted: seq<Node>, selectorMap: map<int, Node>)
    requires SortedByKey(sorted)
    requires NumberedFrom(selectorMap, sorted)
    ensures forall k :: k in selectorMap ==> selectorMap[k].highlightIndex == Some(k)
    ensures forall k1, k2 :: k1 in selectorMap && k2 in selectorMap && k1 <= k2 ==>
      KeyLe(Key(selectorMap[k1]), Key(selectorMap[k2]))
  {
    forall k1, k2 | k1 in selectorMap && k2 in selectorMap && k1 <= k2
      ensures KeyLe(Key(selectorMap[k1]), Key(selectorMap[k2]))
    {
      assert Key(selectorMap[k1]) == Key(sorted[k1 - 1]);
      assert Key(selectorMap[k2]) == Key(sorted[k2 - 1]);
    }
  }

  // ----- the whole pass -----

  /** The nodes of a tree that get numbers: the collected interactive nodes
      that are not containers, in centre order, without duplicates. Each has
      bounds and is one of the non-container nodes, and every non-container
      node with bounds is listed or clashes with one that is. */
  function Listed(root: Node): (r: seq<Node>)
    ensures SortedByKey(r)
    ensures var kept := Survivors(CollectInteractiveNodes(root), |CollectInteractiveNodes(root)|);
      (forall k :: 0 <= k < |r| ==> r[k].box.Some? && r[k] in kept)
      && (forall y :: y in kept && y.box.Some? ==> y in r || ClashesWithKept(y.box.value, r))
    ensures forall i, j :: 0 <= i < |r| && 0 <= j < |r| && i != j ==> !Duplicates(r[i].box.value, r[j].box.value)
  {
    var collected := CollectInteractiveNodes(root);
    var kept := Survivors(collected, |collected|);
    OverlapRemovalSpec(kept);
    Deduplicate(SortByKey(kept))
  }

  /** `parse_ui_xml_v3` after the XML has been read into a tree: collect,
      drop containers, drop duplicates, number. No tree gives an empty map. */
  method ParseUi(root: Option<Node>) returns (selectorMap: map<int, Node>)
    ensures root.None? ==> selectorMap == map[]
    ensures root.Some? ==> NumberedFrom(selectorMap, Listed(root.value))
    ensures forall k :: k in selectorMap ==> 1 <= k <= |selectorMap| && selectorMap[k].highlightIndex == Some(k)
    ensures forall k :: k in selectorMap ==> selectorMap[k].box.Some?
    ensures forall k1, k2 :: k1 in selectorMap && k2 in selectorMap && k1 != k2 ==>
      !Duplicates(selectorMap[k1].box.value, selectorMap[k2].box.value)
    ensures forall k1, k2 :: k1 in selectorMap && k2 in selectorMap && k1 <= k2 ==>
      KeyLe(Key(selectorMap[k1]), Key(selectorMap[k2]))
  {
    if root.None? {
      return map[];
    }
    var collected := CollectInteractiveNodes(root.value);
    var filtered := FilterContainerNodes(collected);
    var unique := RemoveOverlappingNodes(filtered);
    OverlapRemovalSpec(filtered);
    selectorMap := AssignHighlightIndices(unique);
    assert SortByKey(unique) == unique by {
      SortedIsFixed(unique);
    }
  }

  /** Sorting an already sorted listing leaves it unchanged (the second sort in
      `assign_highlight_indices` keeps the order of the first). */
  lemma {:induction false} SortedIsFixed(s: seq<Node>)
    requires SortedByKey(s)
    ensures SortByKey(s) == s
  {
    if s != [] {
      var init, x := s[..|s| - 1], s[|s| - 1];
      assert s == init + [x];
      InsertAtEnd(x, init);
      SortedIsFixed(init);
      assert SortByKey(s) == InsertByKey(x, SortByKey(init));
    }
  }

  lemma InsertAtEnd(x: Node, s: seq<Node>)
    requires SortedByKey(s + [x])
    ensures SortedByKey(s)
    ensures InsertByKey(x, s) == s + [x]
  {
    SortedInit(s, x);
    InsertAbove(x, s);
  }

  lemma SortedInit(s: seq<Node>, x: Node)
    requires SortedByKey(s + [x])
    ensures SortedByKey(s)
    ensures forall i :: 0 <= i < |s| ==> KeyLe(Key(s[i]), Key(x))
  {
    forall i, j | 0 <= i < j < |s| ensures KeyLe(Key(s[i]), Key(s[j])) {
      assert s[i] == (s + [x])[i] && s[j] == (s + [x])[j];
    }
    forall i | 0 <= i < |s| ensures KeyLe(Key(s[i]), Key(x)) {
      assert s[i] == (s + [x])[i] && x == (s + [x])[|s|];
    }
  }

  /** Inserting a node whose key is at least every key puts it last. */
  lemma {:induction false} InsertAbove(x: Node, s: seq<Node>)
    requires SortedByKey(s)
    requires forall i :: 0 <= i < |s| ==> KeyLe(Key(s[i]), Key(x))
    ensures InsertByKey(x, s) == s + [x]
  {
    if s != [] {
      assert KeyLe(Key(s[0]), Key(x));
      var t := s[1..];
      assert forall i :: 0 <= i < |t| ==> t[i] == s[i + 1];
      InsertAbove(x, t);
      assert [s[0]] + (t + [x]) == s + [x];
    }
  }

}
