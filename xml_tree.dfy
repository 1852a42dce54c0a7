/** The element list the XML kernel shows the model: UI elements converted
    from the parser's selector map, ranked by how much they say about
    themselves, cut to a budget and rendered with centres normalized to
    0..1000. */
module XmlTree {
  import opened Util
  import XmlParserV3

  datatype UIElement = UIElement(
    resourceId: string, text: string, elementType: string, bounds: string,
    center: (int, int), clickable: bool, focusable: bool, enabled: bool)

  /** The action an element invites: tap what is clickable, type into what
      is focusable, read the rest. */
  function ActionOf(e: UIElement): (a: string)
    ensures a == "tap" <==> e.clickable
    ensures a == "input" <==> !e.clickable && e.focusable
    ensures a == "read" <==> !e.clickable && !e.focusable
  {
    if e.clickable then "tap" else if e.focusable then "input" else "read"
  }

  const DictKeys: set<string> := {"id", "text", "type", "bounds", "center", "clickable", "focusable", "enabled", "action"}

  /** `UIElement.to_dict`: every field under its JSON name, plus the action. */
  function ToDict(e: UIElement): (d: map<string, Json>)
    ensures d.Keys == DictKeys
    ensures d["id"] == JStr(e.resourceId) && d["text"] == JStr(e.text)
    ensures d["center"] == JArr([JInt(e.center.0), JInt(e.center.1)])
    ensures d["action"] == JStr(ActionOf(e))
  {
    map["id" := JStr(e.resourceId), "text" := JStr(e.text), "type" := JStr(e.elementType),
        "bounds" := JStr(e.bounds), "center" := JArr([JInt(e.center.0), JInt(e.center.1)]),
        "clickable" := JBool(e.clickable), "focusable" := JBool(e.focusable),
        "enabled" := JBool(e.enabled), "action" := JStr(ActionOf(e))]
  }

  // ---------------------------------------------------------------------
  // From the selector map
  // ---------------------------------------------------------------------

  /** `s.split(c)[-1] if c in s else s`: the part after the last `c`. */
  function AfterLast(s: string, c: char): (r: string)
    ensures c !in r
    ensures |r| <= |s| && r == s[|s| - |r|..]
    ensures c !in s ==> r == s
    ensures c in s ==> |r| < |s| && s[|s| - |r| - 1] == c
  {
    if s == [] then []
    else if s[|s| - 1] == c then []
    else
      var r := AfterLast(s[..|s| - 1], c) + [s[|s| - 1]];
      assert s == s[..|s| - 1] + [s[|s| - 1]];
      r
  }

  /** The `[x1,y1][x2,y2]` text of a box. */
  function BoundsString(b: XmlParserV3.Box): string {
    "[" + IntToString(b.x1) + "," + IntToString(b.y1) + "][" + IntToString(b.x2) + "," + IntToString(b.y2) + "]"
  }

  /** One entry of `convert_selector_map_to_elements`: nodes without a box
      are skipped; the resource id and the class lose their qualifying
      prefix. */
  function ElementOf(n: XmlParserV3.Node): (r: Option<UIElement>)
    ensures r.Some? <==> n.box.Some?
    ensures r.Some? ==> '/' !in r.value.resourceId && r.value.text == n.DisplayText()
    ensures r.Some? ==> r.value.center == n.box.value.Center()
    ensures r.Some? ==> r.value.clickable == n.clickable && r.value.focusable == n.focusable
    ensures r.Some? && n.className == [] ==> r.value.elementType == "Unknown"
  {
    if n.box.None? then None
    else
      Some(UIElement(AfterLast(n.resourceId, '/'), n.DisplayText(),
        if n.className != [] then AfterLast(n.className, '.') else "Unknown",
        BoundsString(n.box.value), n.box.value.Center(), n.clickable, n.focusable, n.enabled))
  }

  /** `convert_selector_map_to_elements` over the selector map's values in
      insertion order (index 1 first). */
  method ConvertSelectorMap(nodes: seq<XmlParserV3.Node>) returns (elements: seq<UIElement>)
    ensures elements == Converted(nodes)
    ensures |elements| <= |nodes|
  {
    elements := [];
    for i := 0 to |nodes|
      invariant elements == Converted(nodes[..i])
    {
      assert nodes[..i + 1][..i] == nodes[..i];
      match ElementOf(nodes[i])
      case Some(e) => elements := elements + [e];
      case None =>
    }
    assert nodes[..|nodes|] == nodes;
  }

  /** The elements of the nodes that have a box, in order. */
  function Converted(nodes: seq<XmlParserV3.Node>): (r: seq<UIElement>)
    ensures |r| <= |nodes|
  {
    if nodes == [] then []
    else
      match ElementOf(nodes[|nodes| - 1])
      case Some(e) => Converted(nodes[..|nodes| - 1]) + [e]
      case None => Converted(nodes[..|nodes| - 1])
  }

  /** Every node of a parsed selector map has a box, so none is skipped. */
  lemma {:induction false} ConvertedKeepsAll(nodes: seq<XmlParserV3.Node>)
    requires forall k :: 0 <= k < |nodes| ==> nodes[k].box.Some?
    ensures |Converted(nodes)| == |nodes|
    ensures forall i :: 0 <= i < |nodes| ==> Converted(nodes)[i] == ElementOf(nodes[i]).value
  {
    if |nodes| > 0 {
      var init, last := nodes[..|nodes| - 1], nodes[|nodes| - 1];
      ConvertedKeepsAll(init);
      var c, e := Converted(init), ElementOf(last).value;
      assert Converted(nodes) == c + [e];
      forall i | 0 <= i < |nodes| ensures (c + [e])[i] == ElementOf(nodes[i]).value {
        if i < |init| {
          assert nodes[i] == init[i];
        }
      }
    }
  }

  // ---------------------------------------------------------------------
  // Ranking
  // ---------------------------------------------------------------------

  /** Two points for text, one for a resource id. */
  function Priority(e: UIElement): (p: nat)
    ensures p <= 3
    ensures p >= 2 <==> e.text != []
    ensures p % 2 == 1 <==> e.resourceId != []
  {
    (if e.text != [] then 2 else 0) + (if e.resourceId != [] then 1 else 0)
  }

  /** The elements of priority `p`, in their original order. */
  function OfPriority(s: seq<UIElement>, p: nat): (r: seq<UIElement>)
    ensures |r| <= |s|
    ensures forall i :: 0 <= i < |r| ==> Priority(r[i]) == p && r[i] in s
  {
    if s == [] then []
    else if Priority(s[0]) == p then [s[0]] + OfPriority(s[1..], p)
    else OfPriority(s[1..], p)
  }

  /** `sorted(elements, key=priority, reverse=True)`: the priority classes
      from highest to lowest, each in its original order (Python's sort is
      stable, also when reversed). */
  function Ranked(s: seq<UIElement>): seq<UIElement> {
    OfPriority(s, 3) + OfPriority(s, 2) + OfPriority(s, 1) + OfPriority(s, 0)
  }

  lemma {:induction false} OfPriorityAppend(a: seq<UIElement>, b: seq<UIElement>, p: nat)
    ensures OfPriority(a + b, p) == OfPriority(a, p) + OfPriority(b, p)
  {
    if a == [] {
      assert a + b == b;
    } else {
      assert (a + b)[0] == a[0];
      assert (a + b)[1..] == a[1..] + b;
      OfPriorityAppend(a[1..], b, p);
    }
  }

  /** Filtering a priority class by its own priority keeps it; by another empties it. */
  lemma {:induction false} OfPriorityTwice(s: seq<UIElement>, p: nat, q: nat)
    ensures OfPriority(OfPriority(s, p), q) == if p == q then OfPriority(s, p) else []
  {
    if s != [] {
      OfPriorityTwice(s[1..], p, q);
      if Priority(s[0]) == p {
        assert ([s[0]] + OfPriority(s[1..], p))[1..] == OfPriority(s[1..], p);
      }
    }
  }

  lemma {:induction false} ClassesCover(s: seq<UIElement>)
    ensures multiset(s) == multiset(OfPriority(s, 3)) + multiset(OfPriority(s, 2))
      + multiset(OfPriority(s, 1)) + multiset(OfPriority(s, 0))
  {
    if s != [] {
      ClassesCover(s[1..]);
      assert s == [s[0]] + s[1..];
    }
  }

  /** The ranking is a permutation of its input. */
  lemma RankedPermutes(s: seq<UIElement>)
    ensures multiset(Ranked(s)) == multiset(s)
  {
    ClassesCover(s);
  }

  /** Higher priorities come first. */
  lemma RankedDescending(s: seq<UIElement>)
    ensures forall i, j :: 0 <= i < j < |Ranked(s)| ==> Priority(Ranked(s)[i]) >= Priority(Ranked(s)[j])
  {
    var a, b, c, d := OfPriority(s, 3), OfPriority(s, 2), OfPriority(s, 1), OfPriority(s, 0);
    var r := Ranked(s);
    forall i | 0 <= i < |r| ensures Priority(r[i]) == if i < |a| then 3 else if i < |a| + |b| then 2
                                                  else if i < |a| + |b| + |c| then 1 else 0
    {
      if i < |a| { assert r[i] == a[i]; }
      else if i < |a| + |b| { assert r[i] == b[i - |a|]; }
      else if i < |a| + |b| + |c| { assert r[i] == c[i - |a| - |b|]; }
      else { assert r[i] == d[i - |a| - |b| - |c|]; }
    }
  }

  /** Elements of equal priority keep their relative order. */
  lemma RankedStable(s: seq<UIElement>, p: nat)
    ensures OfPriority(Ranked(s), p) == OfPriority(s, p)
  {
    var a, b, c, d := OfPriority(s, 3), OfPriority(s, 2), OfPriority(s, 1), OfPriority(s, 0);
    var fa, fb, fc, fd := OfPriority(a, p), OfPriority(b, p), OfPriority(c, p), OfPriority(d, p);
    calc {
      OfPriority(Ranked(s), p);
    ==  { OfPriorityAppend(a + b + c, d, p); }
      OfPriority(a + b + c, p) + fd;
    ==  { OfPriorityAppend(a + b, c, p); }
      OfPriority(a + b, p) + fc + fd;
    ==  { OfPriorityAppend(a, b, p); }
      fa + fb + fc + fd;
    }
    OfPriorityTwice(s, 3, p);
    OfPriorityTwice(s, 2, p);
    OfPriorityTwice(s, 1, p);
    OfPriorityTwice(s, 0, p);
    if p > 3 {
      NoHighPriority(s, p);
    }
  }

  lemma {:induction false} NoHighPriority(s: seq<UIElement>, p: nat)
    requires p > 3
    ensures OfPriority(s, p) == []
  {
    if s != [] {
      NoHighPriority(s[1..], p);
    }
  }

  /** `s[:n]` with Python's reading of a negative `n` (counted from the end). */
  function Head(s: seq<UIElement>, n: int): (r: seq<UIElement>)
    ensures n >= 0 ==> |r| == Min(n, |s|)
    ensures n < 0 ==> |r| == if |s| + n > 0 then |s| + n else 0
    ensures r == s[..|r|]
  {
    if n >= 0 then s[..Min(n, |s|)]
    else if |s| + n > 0 then s[..|s| + n] else []
  }

  // ---------------------------------------------------------------------
  // format_elements_for_llm
  // ---------------------------------------------------------------------

  /** One listed element: text, type, the normalized centre, the flags and
      the action, and the id only when there is one. */
  function Item(e: UIElement, width: int, height: int): (d: map<string, Json>)
    requires width != 0 && height != 0
  {
    var base := map["text" := JStr(e.text), "type" := JStr(e.elementType),
                    "center" := JArr([JInt(Scale(e.center.0, 1000, width)), JInt(Scale(e.center.1, 1000, height))]),
                    "clickable" := JBool(e.clickable), "focusable" := JBool(e.focusable),
                    "action" := JStr(ActionOf(e))];
    if e.resourceId != [] then base["id" := JStr(e.resourceId)] else base
  }

  /** An item names its id exactly when the element has a resource id, and
      carries the element's action. */
  lemma ItemFields(e: UIElement, width: int, height: int)
    requires width != 0 && height != 0
    ensures "id" in Item(e, width, height) <==> e.resourceId != []
    ensures e.resourceId != [] ==> Item(e, width, height)["id"] == JStr(e.resourceId)
    ensures Item(e, width, height).Keys - {"id"} == {"text", "type", "center", "clickable", "focusable", "action"}
    ensures Item(e, width, height)["action"] == JStr(ActionOf(e))
  {
  }

  /** A centre on the screen lands in 0..1000: the largest value not above
      the exact ratio, as `int(px / w * 1000)` truncates. */
  lemma CentreNormalized(px: int, w: int)
    requires w > 0 && 0 <= px <= w
    ensures 0 <= Scale(px, 1000, w) <= 1000
    ensures Scale(px, 1000, w) * w <= px * 1000 < (Scale(px, 1000, w) + 1) * w
  {
    var m := px * 1000;
    var q := Scale(px, 1000, w);
    assert q == m / w;
    assert q * w <= m < (q + 1) * w by {
      assert m == q * w + m % w && 0 <= m % w < w;
      assert (q + 1) * w == q * w + w;
    }
    assert 0 <= q <= 1000 by {
      assert m <= 1000 * w;
    }
  }

  /** `format_elements_for_llm` up to the JSON rendering: the top
      `maxElements` elements by priority, listed in that order. A zero
      screen dimension fails (division by zero) as soon as one element is
      listed. */
  method FormatElements(elements: seq<UIElement>, maxElements: int, width: int, height: int)
    returns (r: Result<seq<map<string, Json>>>)
    ensures r.Err? <==> Head(Ranked(elements), maxElements) != [] && (width == 0 || height == 0)
    ensures r.Ok? ==> |r.value| == |Head(Ranked(elements), maxElements)|
    ensures r.Ok? ==> forall i :: 0 <= i < |r.value| ==>
      width != 0 && height != 0 && r.value[i] == Item(Head(Ranked(elements), maxElements)[i], width, height)
  {
    var selected := Head(Ranked(elements), maxElements);
    if selected != [] && (width == 0 || height == 0) {
      return Err("division by zero");
    }
    var data: seq<map<string, Json>> := [];
    for i := 0 to |selected|
      invariant |data| == i
      invariant forall j :: 0 <= j < i ==> data[j] == Item(selected[j], width, height)
    {
      data := data + [Item(selected[i], width, height)];
    }
    return Ok(data);
  }

  /** At most `maxElements` are listed, and none is left out in favour of
      one with a lower priority. */
  lemma FormatKeepsTop(elements: seq<UIElement>, maxElements: int)
    requires maxElements >= 0
    ensures |Head(Ranked(elements), maxElements)| == Min(maxElements, |elements|)
    ensures forall i, j :: 0 <= i < |Head(Ranked(elements), maxElements)| <= j < |Ranked(elements)| ==>
      Priority(Ranked(elements)[i]) >= Priority(Ranked(elements)[j])
  {
    RankedPermutes(elements);
    assert |Ranked(elements)| == |multiset(Ranked(elements))| == |elements|;
    RankedDescending(elements);
  }
}
