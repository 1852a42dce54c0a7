/** PC perception: conversion between pixels and the 0..1000 normalized
    coordinates shared with the phone agent, filtering and ordering of the
    accessibility elements a PC reports, and the summary and numbered
    perception list given to the model. Element lists arrive already
    decoded from JSON. */
module PcPerception {
  import opened Util

  /** Pixels to 0..1000; (0, 0) when a dimension is zero. */
  function NormalizeCoordinates(x: int, y: int, width: int, height: int): (r: (int, int))
    ensures width == 0 || height == 0 ==> r == (0, 0)
    ensures 0 <= r.0 <= 1000 && 0 <= r.1 <= 1000
    ensures width > 0 && height > 0 && 0 <= x <= width && 0 <= y <= height ==>
      r == ((x * 1000) / width, (y * 1000) / height)
  {
    if width == 0 || height == 0 then (0, 0)
    else
      NormalizeExact(x, width);
      NormalizeExact(y, height);
      (Clamp(Scale(x, 1000, width), 0, 1000), Clamp(Scale(y, 1000, height), 0, 1000))
  }

  lemma NormalizeExact(v: int, size: int)
    ensures size > 0 && 0 <= v <= size ==> 0 <= (v * 1000) / size <= 1000
  {
    if size > 0 && 0 <= v <= size {
      MulMonotone(v, size, 1000);
      DivMonotone(v * 1000, size * 1000, size);
      DivOfMultiple(1000, size);
    }
  }

  lemma DivOfMultiple(k: int, d: int)
    requires d > 0
    ensures (d * k) / d == k
  {
    var q, r := (d * k) / d, (d * k) % d;
    assert d * k == d * q + r && 0 <= r < d;
    assert d * (k - q) == r;
    if k - q >= 1 {
      MulMonotone(1, k - q, d);
    }
    if k - q <= -1 {
      MulMonotone(k - q, -1, d);
    }
  }

  lemma DivMonotone(a: int, b: int, d: int)
    requires 0 <= a <= b && d > 0
    ensures 0 <= a / d <= b / d
  {
    var qa, qb := a / d, b / d;
    assert a == qa * d + a % d && 0 <= a % d < d;
    assert b == qb * d + b % d && 0 <= b % d < d;
    if qa > qb {
      MulMonotone(qb + 1, qa, d);
      assert false;
    }
    if qa < 0 {
      MulMonotone(qa, -1, d);
      assert false;
    }
  }

  /** 0..1000 back to pixels, kept on screen. */
  function DenormalizeCoordinates(nx: int, ny: int, width: int, height: int): (r: (int, int))
    ensures r.0 >= 0 && r.1 >= 0
    ensures width >= 1 ==> r.0 <= width - 1
    ensures height >= 1 ==> r.1 <= height - 1
    ensures width >= 1 && 0 <= nx < 1000 ==> r.0 == (nx * width) / 1000
    ensures height >= 1 && 0 <= ny < 1000 ==> r.1 == (ny * height) / 1000
    ensures width >= 1 && nx >= 1000 ==> r.0 == width - 1
    ensures height >= 1 && ny >= 1000 ==> r.1 == height - 1
  {
    (DenormalizeOne(nx, width), DenormalizeOne(ny, height))
  }

  /** One axis of `denormalize_coordinates`: a point strictly inside 0..1000
      is scaled and truncated, 1000 and beyond give the last pixel, and
      nothing goes below 0. */
  function DenormalizeOne(n: int, size: int): (r: int)
    ensures r >= 0 && (size >= 1 ==> r <= size - 1)
    ensures size >= 1 && 0 <= n < 1000 ==> r == (n * size) / 1000
    ensures size >= 1 && n >= 1000 ==> r == size - 1
    ensures n <= 0 || size <= 1 ==> r == 0
  {
    PixelBounds(n, size);
    Clamp(Scale(n, size, 1000), 0, size - 1)
  }

  lemma PixelBounds(n: int, size: int)
    ensures size >= 1 && 0 <= n < 1000 ==> 0 <= (n * size) / 1000 <= size - 1
    ensures size >= 1 && n >= 1000 ==> (n * size) / 1000 >= size
    ensures n <= 0 && size >= 0 ==> Scale(n, size, 1000) <= 0
  {
    if size >= 1 && 0 <= n < 1000 {
      MulMonotone(0, n, size);
      MulMonotone(n, 999, size);
      assert n * size <= 999 * size;
    }
    if size >= 1 && n >= 1000 {
      MulMonotone(1000, n, size);
    }
    if n <= 0 && size >= 0 {
      MulMonotone(n, 0, size);
    }
  }

  /** Denormalizing and normalizing again never moves a coordinate forward. */
  lemma RoundTripDoesNotOvershoot(nx: int, width: int)
    requires 0 <= nx <= 1000 && width >= 1
    ensures var x := DenormalizeCoordinates(nx, 0, width, 1).0;
      0 <= NormalizeCoordinates(x, 0, width, 1).0 <= nx
  {
    MulMonotone(0, nx, width);
    var p := nx * width;
    var x := DenormalizeCoordinates(nx, 0, width, 1).0;
    assert x == Clamp(p / 1000, 0, width - 1);
    assert 0 <= x <= p / 1000;
    assert (p / 1000) * 1000 <= p by {
      assert p == (p / 1000) * 1000 + p % 1000;
    }
    MulMonotone(x, p / 1000, 1000);
    DivMonotone(x * 1000, p, width);
    DivOfMultiple(nx, width);
    NormalizeExact(x, width);
  }

  lemma MulMonotone(a: int, b: int, k: int)
    requires a <= b && k >= 0
    ensures a * k <= b * k
  {
  }

  /** The priority of an accessibility role; 0 for roles not listed. */
  function RolePriority(role: string): (p: int)
    ensures 0 <= p <= 10
  {
    if role in {"Button", "AXButton"} then 10
    else if role in {"MenuItem", "AXMenuItem"} then 9
    else if role in {"TextField", "AXTextField", "Link", "AXLink"} then 8
    else if role in {"CheckBox", "AXCheckBox", "RadioButton", "AXRadioButton", "ComboBox", "AXComboBox"} then 7
    else if role in {"List", "AXList"} then 5
    else if role in {"Text", "AXStaticText"} then 3
    else 0
  }

  /** An element as reported: `position`/`size` are None when the key is
      absent (they then default to [0, 0]). */
  datatype RawElement = RawElement(position: Option<seq<int>>, size: Option<seq<int>>, role: Option<string>, text: string, title: string)

  datatype Element = Element(role: string, text: string, title: string, position: seq<int>, size: seq<int>, priority: int, center: (int, int))

  /** What every element that passes the filter satisfies. */
  predicate Admissible(f: Element, screenWidth: int, screenHeight: int) {
    && |f.position| >= 2 && |f.size| >= 2
    && var x, y, w, h := f.position[0], f.position[1], f.size[0], f.size[1];
      && 0 <= x <= screenWidth && 0 <= y <= screenHeight && w >= 10 && h >= 10
      && f.center == (x + w / 2, y + h / 2)
      && (f.text != "" || f.title != "" || f.priority >= 5)
      && f.priority == RolePriority(f.role)
  }

  /** The filtering rules for one element: it must have a position and a
      size, lie on screen, be at least 10x10, and have text, a title or a
      role of priority 5 or more. */
  function Keep(e: RawElement, screenWidth: int, screenHeight: int): (r: Option<Element>)
    ensures r.Some? ==> Admissible(r.value, screenWidth, screenHeight)
    ensures r.Some? ==> r.value.position == e.position.GetOr([0, 0]) && r.value.size == e.size.GetOr([0, 0])
                        && r.value.role == e.role.GetOr("Unknown") && r.value.text == Strip(e.text) && r.value.title == Strip(e.title)
    ensures r.None? <==> var pos, size := e.position.GetOr([0, 0]), e.size.GetOr([0, 0]);
      |pos| < 2 || |size| < 2 || pos[0] < 0 || pos[1] < 0 || pos[0] > screenWidth || pos[1] > screenHeight ||
      size[0] < 10 || size[1] < 10 ||
      (Strip(e.text) == "" && Strip(e.title) == "" && RolePriority(e.role.GetOr("Unknown")) < 5)
  {
    var pos := e.position.GetOr([0, 0]);
    var size := e.size.GetOr([0, 0]);
    if |pos| < 2 || |size| < 2 then None
    else
      var x, y, w, h := pos[0], pos[1], size[0], size[1];
      if x < 0 || y < 0 || x > screenWidth || y > screenHeight then None
      else if w < 10 || h < 10 then None
      else
        var role := e.role.GetOr("Unknown");
        var text := Strip(e.text);
        var title := Strip(e.title);
        if text == "" && title == "" && RolePriority(role) < 5 then None
        else Some(Element(role, text, title, pos, size, RolePriority(role), (x + w / 2, y + h / 2)))
  }

  /** The kept elements in input order. */
  function Kept(es: seq<RawElement>, screenWidth: int, screenHeight: int): (r: seq<Element>)
    ensures |r| <= |es|
    ensures forall f :: f in r ==> Admissible(f, screenWidth, screenHeight)
    ensures forall i :: 0 <= i < |es| && Keep(es[i], screenWidth, screenHeight).Some? ==>
      Keep(es[i], screenWidth, screenHeight).value in r
    ensures forall f :: f in r ==> exists i :: 0 <= i < |es| && Keep(es[i], screenWidth, screenHeight) == Some(f)
  {
    if es == [] then []
    else
      var k := |es| - 1;
      var rest := Kept(es[..k], screenWidth, screenHeight);
      var next := Keep(es[k], screenWidth, screenHeight);
      var r := if next.Some? then rest + [next.value] else rest;
      assert KeptFacts(es, r, screenWidth, screenHeight) by {
        KeptExtend(es, rest, screenWidth, screenHeight);
      }
      r
  }

  /** The facts `Kept` promises, as one predicate. */
  predicate KeptFacts(es: seq<RawElement>, r: seq<Element>, screenWidth: int, screenHeight: int) {
    && |r| <= |es|
    && (forall f :: f in r ==> Admissible(f, screenWidth, screenHeight))
    && (forall i :: 0 <= i < |es| && Keep(es[i], screenWidth, screenHeight).Some? ==>
      Keep(es[i], screenWidth, screenHeight).value in r)
    && (forall f :: f in r ==> exists i :: 0 <= i < |es| && Keep(es[i], screenWidth, screenHeight) == Some(f))
  }

  /** Adding the last element's outcome to what the rest kept keeps the facts. */
  lemma KeptExtend(es: seq<RawElement>, rest: seq<Element>, screenWidth: int, screenHeight: int)
    requires es != [] && KeptFacts(es[..|es| - 1], rest, screenWidth, screenHeight)
    ensures var next := Keep(es[|es| - 1], screenWidth, screenHeight);
      KeptFacts(es, if next.Some? then rest + [next.value] else rest, screenWidth, screenHeight)
  {
    var k := |es| - 1;
    assert forall i :: 0 <= i < k ==> es[..k][i] == es[i];
  }

  /** Filtering keeps the input order: the kept elements of two lists one
      after the other are those of the first followed by those of the
      second. */
  lemma {:induction false} KeptConcat(a: seq<RawElement>, b: seq<RawElement>, screenWidth: int, screenHeight: int)
    ensures Kept(a + b, screenWidth, screenHeight) == Kept(a, screenWidth, screenHeight) + Kept(b, screenWidth, screenHeight)
    decreases |b|
  {
    if b == [] {
      assert a + b == a;
    } else {
      var k := |b| - 1;
      var ab := a + b;
      LastOfConcat(a, b);
      KeptConcat(a, b[..k], screenWidth, screenHeight);
      KeptStep(ab, screenWidth, screenHeight);
      KeptStep(b, screenWidth, screenHeight);
    }
  }

  lemma LastOfConcat<T>(a: seq<T>, b: seq<T>)
    requires b != []
    ensures (a + b)[..|a| + |b| - 1] == a + b[..|b| - 1] && (a + b)[|a| + |b| - 1] == b[|b| - 1]
  {
  }

  /** One unfolding of `Kept` at the last element. */
  lemma KeptStep(es: seq<RawElement>, screenWidth: int, screenHeight: int)
    requires es != []
    ensures var next := Keep(es[|es| - 1], screenWidth, screenHeight);
      Kept(es, screenWidth, screenHeight) ==
        Kept(es[..|es| - 1], screenWidth, screenHeight) + (if next.Some? then [next.value] else [])
  {
  }

  /** The sort key (-priority, y, x), compared lexicographically. */
  predicate KeyLe(a: Element, b: Element)
    requires |a.position| >= 2 && |b.position| >= 2
  {
    a.priority > b.priority ||
    (a.priority == b.priority && (a.position[1] < b.position[1] ||
      (a.position[1] == b.position[1] && a.position[0] <= b.position[0])))
  }

  lemma AdmissiblePositioned(s: seq<Element>, screenWidth: int, screenHeight: int)
    requires forall f :: f in s ==> Admissible(f, screenWidth, screenHeight)
    ensures Positioned(s)
  {
    forall i | 0 <= i < |s| ensures |s[i].position| >= 2 {
      assert Admissible(s[i], screenWidth, screenHeight);
    }
  }

  predicate Positioned(s: seq<Element>) {
    forall i :: 0 <= i < |s| ==> |s[i].position| >= 2
  }

  predicate SortedByKey(s: seq<Element>)
    requires Positioned(s)
  {
    forall i, j :: 0 <= i < j < |s| ==> KeyLe(s[i], s[j])
  }

  /** Stable insertion: `e` goes before the first element it does not follow. */
  function InsertByKey(e: Element, s: seq<Element>): (r: seq<Element>)
    requires |e.position| >= 2 && Positioned(s)
    ensures Positioned(r) && multiset(r) == multiset(s) + multiset{e} && |r| == |s| + 1
  {
    if s == [] || KeyLe(e, s[0]) then [e] + s
    else
      assert s == [s[0]] + s[1..];
      [s[0]] + InsertByKey(e, s[1..])
  }

  lemma {:induction false} InsertByKeySorted(e: Element, s: seq<Element>)
    requires |e.position| >= 2 && Positioned(s) && SortedByKey(s)
    ensures SortedByKey(InsertByKey(e, s))
  {
    if s != [] && !KeyLe(e, s[0]) {
      var rest := InsertByKey(e, s[1..]);
      InsertByKeySorted(e, s[1..]);
      assert s == [s[0]] + s[1..];
      InsertedHeadLe(e, s, rest);
      var r := [s[0]] + rest;
      forall i, j | 0 <= i < j < |r| ensures KeyLe(r[i], r[j]) {
        if i > 0 {
          assert r[i] == rest[i - 1] && r[j] == rest[j - 1];
        }
      }
    }
  }

  lemma InsertedHeadLe(e: Element, s: seq<Element>, rest: seq<Element>)
    requires |e.position| >= 2 && Positioned(s) && s != [] && !KeyLe(e, s[0])
    requires Positioned(rest) && multiset(rest) == multiset(s[1..]) + multiset{e}
    ensures SortedByKey(s) ==> forall i :: 0 <= i < |rest| ==> KeyLe(s[0], rest[i])
  {
    if SortedByKey(s) {
      forall i | 0 <= i < |rest| ensures KeyLe(s[0], rest[i]) {
        var u := rest[i];
        assert u in multiset(rest);
        if u != e {
          assert u in multiset(s[1..]);
          var j :| 0 <= j < |s[1..]| && s[1..][j] == u;
          assert s[j + 1] == u;
        }
      }
    }
  }

  /** `sort(key=lambda e: (-priority, y, x))`, which is stable. */
  function SortByKey(s: seq<Element>): (r: seq<Element>)
    requires Positioned(s)
    ensures Positioned(r) && multiset(r) == multiset(s) && |r| == |s|
  {
    if s == [] then []
    else
      assert s == [s[0]] + s[1..];
      InsertByKey(s[0], SortByKey(s[1..]))
  }

  lemma {:induction false} SortByKeySorted(s: seq<Element>)
    requires Positioned(s)
    ensures SortedByKey(SortByKey(s))
  {
    if s != [] {
      SortByKeySorted(s[1..]);
      InsertByKeySorted(s[0], SortByKey(s[1..]));
    }
  }

  const MaxElements := 50

  /** The first 50 of the sorted elements: sorted, at most 50, and all of
      them when there are no more than 50. */
  lemma TopSorted(s: seq<Element>)
    requires Positioned(s)
    ensures Positioned(SortByKey(s)[..Min(|s|, MaxElements)])
    ensures SortedByKey(SortByKey(s)[..Min(|s|, MaxElements)])
    ensures |SortByKey(s)[..Min(|s|, MaxElements)]| <= MaxElements
    ensures |s| <= MaxElements ==> multiset(SortByKey(s)[..Min(|s|, MaxElements)]) == multiset(s)
  {
    SortByKeySorted(s);
    var sorted := SortByKey(s);
    if |s| <= MaxElements {
      assert sorted[..Min(|s|, MaxElements)] == sorted;
    }
  }

  /** `_filter_elements`: the kept elements, ordered by priority then
      position, at most 50 of them. */
  method FilterElements(elements: seq<RawElement>, screenWidth: int, screenHeight: int) returns (r: seq<Element>)
    ensures Positioned(r) && SortedByKey(r) && |r| <= MaxElements
    ensures Positioned(Kept(elements, screenWidth, screenHeight))
    ensures r == SortByKey(Kept(elements, screenWidth, screenHeight))[..Min(|Kept(elements, screenWidth, screenHeight)|, MaxElements)]
    ensures |Kept(elements, screenWidth, screenHeight)| <= MaxElements ==>
      multiset(r) == multiset(Kept(elements, screenWidth, screenHeight))
  {
    var filtered: seq<Element> := [];
    var i := 0;
    while i < |elements|
      invariant 0 <= i <= |elements|
      invariant filtered == Kept(elements[..i], screenWidth, screenHeight)
    {
      assert elements[..i + 1][..i] == elements[..i];
      var k := Keep(elements[i], screenWidth, screenHeight);
      if k.Some? {
        filtered := filtered + [k.value];
      }
      i := i + 1;
    }
    assert elements[..i] == elements;
    AdmissiblePositioned(filtered, screenWidth, screenHeight);
    TopSorted(filtered);
    r := SortByKey(filtered)[..Min(|filtered|, MaxElements)];
  }

  /** The name shown for an element: text, else title, else a placeholder;
      names longer than 30 characters are cut to 27 plus "...". */
  function DisplayName(e: Element): (r: string)
    ensures |r| <= 30
    ensures var full := if e.text != "" then e.text else if e.title != "" then e.title else "无标签" + e.role;
      if |full| > 30 then r == full[..27] + "..." else r == full
  {
    var full := if e.text != "" then e.text else if e.title != "" then e.title else "无标签" + e.role;
    if |full| > 30 then full[..27] + "..." else full
  }

  function SummaryLine(i: nat, e: Element): string {
    "[" + NatToString(i) + "] " + e.role + " \"" + DisplayName(e) + "\" at (" +
    IntToString(e.center.0) + ", " + IntToString(e.center.1) + ")"
  }

  const SummaryShown := 20
  const NoElementsMessage := "屏幕上没有检测到可交互元素"

  /** The lines of the first `n` elements, numbered from 1. */
  function ShownLines(elements: seq<Element>, n: nat): (r: seq<string>)
    requires n <= |elements|
    ensures |r| == n
  {
    if n == 0 then [] else ShownLines(elements, n - 1) + [SummaryLine(n, elements[n - 1])]
  }

  lemma {:induction false} ShownLinesAt(elements: seq<Element>, n: nat)
    requires n <= |elements|
    ensures forall i :: 0 <= i < n ==> ShownLines(elements, n)[i] == SummaryLine(i + 1, elements[i])
  {
    if n > 0 {
      var prev := ShownLines(elements, n - 1);
      ShownLinesAt(elements, n - 1);
      assert ShownLines(elements, n) == prev + [SummaryLine(n, elements[n - 1])];
      forall i | 0 <= i < n ensures ShownLines(elements, n)[i] == SummaryLine(i + 1, elements[i]) {
        if i < n - 1 {
          assert ShownLines(elements, n)[i] == prev[i];
        }
      }
    }
  }

  /** The summary's lines: one per element for the first 20, then a note
      counting the rest. */
  function SummaryLines(elements: seq<Element>): (r: seq<string>)
    ensures |r| == Min(|elements|, SummaryShown) + (if |elements| > SummaryShown then 1 else 0)
    ensures forall i :: 0 <= i < Min(|elements|, SummaryShown) ==> r[i] == SummaryLine(i + 1, elements[i])
  {
    var shown := ShownLines(elements, Min(|elements|, SummaryShown));
    ShownLinesAt(elements, Min(|elements|, SummaryShown));
    if |elements| > SummaryShown then
      shown + ["\n... 还有 " + NatToString(|elements| - SummaryShown) + " 个元素未显示"]
    else shown
  }

  /** `_generate_element_summary`. */
  method GenerateElementSummary(elements: seq<Element>) returns (r: string)
    ensures elements == [] ==> r == NoElementsMessage
    ensures elements != [] ==> r == Join(SummaryLines(elements), '\n')
  {
    if elements == [] {
      return NoElementsMessage;
    }
    var lines: seq<string> := [];
    var i := 0;
    var n := Min(|elements|, SummaryShown);
    while i < n
      invariant 0 <= i <= n
      invariant lines == ShownLines(elements, i)
    {
      lines := lines + [SummaryLine(i + 1, elements[i])];
      i := i + 1;
    }
    if |elements| > SummaryShown {
      lines := lines + ["\n... 还有 " + NatToString(|elements| - SummaryShown) + " 个元素未显示"];
    }
    r := Join(lines, '\n');
  }

  datatype PerceptionInfo = PerceptionInfo(text: string, coordinates: (int, int), pixelCoordinates: (int, int), markNumber: nat)

  function Description(mark: nat, e: Element): string {
    "mark number: " + NatToString(mark) + " icon: " +
    (if e.text != "" then e.text else if e.title != "" then e.title else e.role)
  }

  /** `_convert_to_perception_infos`: element i (from 1) gets mark number i
      and its centre in normalized coordinates. */
  method ConvertToPerceptionInfos(elements: seq<Element>, width: int, height: int) returns (r: seq<PerceptionInfo>)
    ensures |r| == |elements|
    ensures forall i :: 0 <= i < |r| ==>
      && r[i].markNumber == i + 1
      && r[i].pixelCoordinates == elements[i].center
      && r[i].coordinates == NormalizeCoordinates(elements[i].center.0, elements[i].center.1, width, height)
      && r[i].text == Description(i + 1, elements[i])
  {
    r := [];
    var i := 0;
    while i < |elements|
      invariant 0 <= i <= |elements| && |r| == i
      invariant forall j :: 0 <= j < i ==>
        && r[j].markNumber == j + 1
        && r[j].pixelCoordinates == elements[j].center
        && r[j].coordinates == NormalizeCoordinates(elements[j].center.0, elements[j].center.1, width, height)
        && r[j].text == Description(j + 1, elements[j])
    {
      var e := elements[i];
      r := r + [PerceptionInfo(Description(i + 1, e), NormalizeCoordinates(e.center.0, e.center.1, width, height), e.center, i + 1)];
      i := i + 1;
    }
  }

  /** Mark numbers are distinct, so an index names exactly one element. */
  lemma MarkNumbersDistinct(r: seq<PerceptionInfo>)
    requires forall i :: 0 <= i < |r| ==> r[i].markNumber == i + 1
    ensures forall i, j :: 0 <= i < j < |r| ==> r[i].markNumber != r[j].markNumber
  {
  }
}
