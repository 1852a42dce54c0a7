/**
 * Prompt cards: the list of system and custom prompt snippets users pick
 * from, with id allocation, filtering by category, the sorted category list,
 * and the create, update, delete and reset operations on the stored list.
 * Loading and saving the list are not modelled: the store's `cards` field is
 * the list as loaded, and each operation leaves behind the list it saves.
 */
module PromptCards {
  import opened Util

  datatype PromptCard = PromptCard(
    id: int,
    title: string,
    description: string,
    content: string,
    category: string,
    isSystem: bool,
    createdAt: string,
    updatedAt: string)

  const DefaultCategory := "通用"

  function Ids(cards: seq<PromptCard>): (r: seq<int>)
    ensures |r| == |cards| && forall i :: 0 <= i < |cards| ==> r[i] == cards[i].id
  {
    if cards == [] then [] else [cards[0].id] + Ids(cards[1..])
  }

  /** One more than the largest id, or 1 for an empty list. */
  function NextId(cards: seq<PromptCard>): (r: int)
    ensures cards == [] ==> r == 1
    ensures forall c :: c in cards ==> c.id < r
    ensures cards != [] ==> exists c :: c in cards && c.id == r - 1
  {
    if cards == [] then 1
    else
      var rest := NextId(cards[1..]);
      if cards[1..] == [] || cards[0].id + 1 >= rest then cards[0].id + 1 else rest
  }

  /** A new id never collides with an existing one. */
  lemma NextIdFresh(cards: seq<PromptCard>)
    ensures NextId(cards) !in Ids(cards)
  {
  }

  /** The cards of a category; an empty or absent category lists every card. */
  function ListCards(cards: seq<PromptCard>, category: Option<string>): (r: seq<PromptCard>)
    ensures category.None? || category.value == [] ==> r == cards
    ensures category.Some? && category.value != [] ==>
      forall c :: c in r <==> c in cards && c.category == category.value
    ensures |r| <= |cards|
  {
    if category.None? || category.value == [] then cards
    else OfCategory(cards, category.value)
  }

  function OfCategory(cards: seq<PromptCard>, category: string): (r: seq<PromptCard>)
    ensures forall c :: c in r <==> c in cards && c.category == category
    ensures |r| <= |cards|
  {
    if cards == [] then []
    else if cards[0].category == category then [cards[0]] + OfCategory(cards[1..], category)
    else OfCategory(cards[1..], category)
  }

  /** The first card with the given id, as `next(...)` finds it. */
  function FindCard(cards: seq<PromptCard>, id: int): (r: Option<nat>)
    ensures r.Some? ==> r.value < |cards| && cards[r.value].id == id
    ensures r.Some? ==> forall j :: 0 <= j < r.value ==> cards[j].id != id
    ensures r.None? <==> forall c :: c in cards ==> c.id != id
  {
    if cards == [] then None
    else if cards[0].id == id then Some(0)
    else match FindCard(cards[1..], id)
      case None => None
      case Some(k) => Some(k + 1)
  }

  /** Strict lexicographic order on strings by code point, as Python compares them. */
  predicate StrLt(a: string, b: string) {
    if a == [] then b != []
    else b != [] && (a[0] < b[0] || (a[0] == b[0] && StrLt(a[1..], b[1..])))
  }

  lemma {:induction false} StrLtIrreflexive(a: string)
    ensures !StrLt(a, a)
  {
    if a != [] {
      StrLtIrreflexive(a[1..]);
    }
  }

  lemma {:induction false} StrLtTotal(a: string, b: string)
    requires a != b
    ensures StrLt(a, b) || StrLt(b, a)
  {
    if a != [] && b != [] && a[0] == b[0] {
      assert a == [a[0]] + a[1..] && b == [b[0]] + b[1..];
      StrLtTotal(a[1..], b[1..]);
    }
  }

  predicate StrictlySorted(s: seq<string>) {
    forall i, j :: 0 <= i < j < |s| ==> StrLt(s[i], s[j])
  }

  /** Insertion of a category into a sorted, duplicate-free list. */
  function InsertCategory(x: string, s: seq<string>): (r: seq<string>)
    requires StrictlySorted(s)
    ensures StrictlySorted(r)
    ensures forall y :: y in r <==> y == x || y in s
  {
    if s == [] then [x]
    else if x == s[0] then s
    else if StrLt(x, s[0]) then
      assert forall y :: y in s[1..] ==> StrLt(s[0], y);
      var r := [x] + s;
      forall i, j | 0 <= i < j < |r| ensures StrLt(r[i], r[j]) {
        if i == 0 && j > 1 {
          StrLtTrans(x, s[0], s[j - 1]);
        }
      }
      r
    else
      StrLtTotal(x, s[0]);
      var rest := InsertCategory(x, s[1..]);
      var r := [s[0]] + rest;
      forall y | y in rest ensures StrLt(s[0], y) {
        if y != x {
          var k :| 0 <= k < |s[1..]| && s[1..][k] == y;
          assert s[k + 1] == y;
        }
      }
      forall i, j | 0 <= i < j < |r| ensures StrLt(r[i], r[j]) {
        if i == 0 {
          assert r[j] in rest;
        } else {
          assert r[i] == rest[i - 1] && r[j] == rest[j - 1];
        }
      }
      r
  }

  lemma {:induction false} StrLtTrans(a: string, b: string, c: string)
    requires StrLt(a, b) && StrLt(b, c)
    ensures StrLt(a, c)
  {
    if a != [] && a[0] == b[0] && b[0] == c[0] {
      StrLtTrans(a[1..], b[1..], c[1..]);
    }
  }

  /** `sorted(set(card.category for card in cards))`. */
  function Categories(cards: seq<PromptCard>): (r: seq<string>)
    ensures StrictlySorted(r)
    ensures forall x :: x in r <==> exists c :: c in cards && c.category == x
    decreases |cards|
  {
    if cards == [] then []
    else
      var rest := Categories(cards[1..]);
      var r := InsertCategory(cards[0].category, rest);
      forall x | x in r ensures exists c :: c in cards && c.category == x {
        if x != cards[0].category {
          var c :| c in cards[1..] && c.category == x;
          assert c in cards;
        }
      }
      forall x | (exists c :: c in cards && c.category == x) ensures x in r {
        var c :| c in cards && c.category == x;
        if c != cards[0] {
          assert c in cards[1..];
        }
      }
      r
  }

  /** A strictly sorted list has no repeats. */
  lemma SortedCategoriesDistinct(cards: seq<PromptCard>)
    ensures Distinct(Categories(cards))
  {
    var r := Categories(cards);
    forall i, j | 0 <= i < j < |r| ensures r[i] != r[j] {
      if r[i] == r[j] {
        StrLtIrreflexive(r[i]);
      }
    }
  }

  /** The fields a create request carries; the category defaults to the general one. */
  datatype CreateRequest = CreateRequest(title: string, description: string, content: string, category: Option<string>)

  /** The fields an update request may carry; None leaves a field as it is. */
  datatype UpdateRequest = UpdateRequest(
    title: Option<string>,
    description: Option<string>,
    content: Option<string>,
    category: Option<string>)

  predicate LengthBetween(s: string, lo: nat, hi: nat) { lo <= |s| <= hi }

  /** The request model's length limits: title 1-50, description 1-200, content 1-2000. */
  predicate CreateRequestValid(req: CreateRequest) {
    LengthBetween(req.title, 1, 50) && LengthBetween(req.description, 1, 200)
    && LengthBetween(req.content, 1, 2000)
  }

  predicate UpdateRequestValid(req: UpdateRequest) {
    (req.title.Some? ==> LengthBetween(req.title.value, 1, 50))
    && (req.description.Some? ==> LengthBetween(req.description.value, 1, 200))
    && (req.content.Some? ==> LengthBetween(req.content.value, 1, 2000))
  }

  /** A card with the fields the request gives replaced, and the update time set. */
  function ApplyUpdate(card: PromptCard, req: UpdateRequest, now: string): (r: PromptCard)
    ensures r.id == card.id && r.isSystem == card.isSystem && r.createdAt == card.createdAt
    ensures r.updatedAt == now
    ensures r.title == req.title.GetOr(card.title) && r.description == req.description.GetOr(card.description)
    ensures r.content == req.content.GetOr(card.content) && r.category == req.category.GetOr(card.category)
  {
    card.(
      title := req.title.GetOr(card.title),
      description := req.description.GetOr(card.description),
      content := req.content.GetOr(card.content),
      category := req.category.GetOr(card.category),
      updatedAt := now)
  }

  /** The custom cards, in their order. */
  function CustomCards(cards: seq<PromptCard>): (r: seq<PromptCard>)
    ensures forall c :: c in r <==> c in cards && !c.isSystem
  {
    if cards == [] then []
    else if !cards[0].isSystem then [cards[0]] + CustomCards(cards[1..])
    else CustomCards(cards[1..])
  }

  /** Every card but those with the given id, in their order. */
  function WithoutId(cards: seq<PromptCard>, id: int): (r: seq<PromptCard>)
    ensures forall c :: c in r <==> c in cards && c.id != id
    ensures |r| <= |cards|
  {
    if cards == [] then []
    else if cards[0].id != id then [cards[0]] + WithoutId(cards[1..], id)
    else WithoutId(cards[1..], id)
  }

  datatype CardError = ValidationError | NotFound | SystemCard

  datatype Outcome<T> = Done(value: T) | Refused(error: CardError)

  class PromptCardStore {
    var cards: seq<PromptCard>
    const defaults: seq<PromptCard>

    /** A store starts from the default system cards when nothing is saved yet. */
    constructor (defaults: seq<PromptCard>)
      ensures this.defaults == defaults && cards == defaults
    {
      this.defaults := defaults;
      cards := defaults;
    }

    /** Create appends exactly one custom card, with a fresh id. */
    method Create(req: CreateRequest, now: string) returns (r: Outcome<PromptCard>)
      modifies this
      ensures !CreateRequestValid(req) ==> r == Refused(ValidationError) && cards == old(cards)
      ensures CreateRequestValid(req) ==> (
        r.Done? &&
        r.value == PromptCard(NextId(old(cards)), req.title, req.description, req.content,
                              req.category.GetOr(DefaultCategory), false, now, now) &&
        cards == old(cards) + [r.value])
      ensures r.Done? ==> r.value.id !in Ids(old(cards))
    {
      if !CreateRequestValid(req) {
        return Refused(ValidationError);
      }
      var card := PromptCard(NextId(cards), req.title, req.description, req.content,
                             req.category.GetOr(DefaultCategory), false, now, now);
      NextIdFresh(cards);
      cards := cards + [card];
      return Done(card);
    }

    /** Update rewrites the first card with the id; the others stay as they were. */
    method Update(id: int, req: UpdateRequest, now: string) returns (r: Outcome<PromptCard>)
      modifies this
      ensures !UpdateRequestValid(req) ==> r == Refused(ValidationError) && cards == old(cards)
      ensures UpdateRequestValid(req) && FindCard(old(cards), id).None? ==>
        r == Refused(NotFound) && cards == old(cards)
      ensures UpdateRequestValid(req) && FindCard(old(cards), id).Some? ==>
        var k := FindCard(old(cards), id).value;
        r == Done(ApplyUpdate(old(cards)[k], req, now)) && cards == old(cards)[k := r.value]
    {
      if !UpdateRequestValid(req) {
        return Refused(ValidationError);
      }
      var found := FindCard(cards, id);
      if found.None? {
        return Refused(NotFound);
      }
      var card := ApplyUpdate(cards[found.value], req, now);
      cards := cards[found.value := card];
      return Done(card);
    }

    /** Delete refuses unknown ids and system cards, and otherwise drops every card with the id. */
    method Delete(id: int) returns (r: Outcome<int>)
      modifies this
      ensures FindCard(old(cards), id).None? ==> r == Refused(NotFound) && cards == old(cards)
      ensures FindCard(old(cards), id).Some? && old(cards)[FindCard(old(cards), id).value].isSystem ==>
        r == Refused(SystemCard) && cards == old(cards)
      ensures FindCard(old(cards), id).Some? && !old(cards)[FindCard(old(cards), id).value].isSystem ==>
        r == Done(id) && cards == WithoutId(old(cards), id)
    {
      var found := FindCard(cards, id);
      if found.None? {
        return Refused(NotFound);
      }
      if cards[found.value].isSystem {
        return Refused(SystemCard);
      }
      cards := WithoutId(cards, id);
      return Done(id);
    }

    /** Reset puts the default system cards back in front of the custom cards. */
    method Reset() returns (total: nat)
      modifies this
      ensures cards == defaults + CustomCards(old(cards))
      ensures total == |cards|
    {
      cards := defaults + CustomCards(cards);
      total := |cards|;
    }
  }

  /** Deleting a custom card removes exactly the cards with that id. */
  lemma DeleteRemovesOnlyThatId(cards: seq<PromptCard>, id: int)
    ensures forall c :: c in cards && c.id != id ==> c in WithoutId(cards, id)
    ensures id !in Ids(WithoutId(cards, id))
  {
  }

  /** Reset keeps every custom card and only system cards from the defaults. */
  lemma ResetKeepsCustom(cards: seq<PromptCard>, defaults: seq<PromptCard>)
    requires forall d :: d in defaults ==> d.isSystem
    ensures CustomCards(defaults + CustomCards(cards)) == CustomCards(cards)
  {
    CustomOfSystemPrefix(defaults, CustomCards(cards));
    CustomIdempotent(cards);
  }

  lemma {:induction false} CustomOfSystemPrefix(sys: seq<PromptCard>, rest: seq<PromptCard>)
    requires forall d :: d in sys ==> d.isSystem
    ensures CustomCards(sys + rest) == CustomCards(rest)
  {
    if sys != [] {
      assert (sys + rest)[1..] == sys[1..] + rest;
      assert sys[0] in sys;
      CustomOfSystemPrefix(sys[1..], rest);
    } else {
      assert sys + rest == rest;
    }
  }

  lemma {:induction false} CustomIdempotent(cards: seq<PromptCard>)
    ensures CustomCards(CustomCards(cards)) == CustomCards(cards)
  {
    if cards != [] {
      CustomIdempotent(cards[1..]);
      if !cards[0].isSystem {
        assert ([cards[0]] + CustomCards(cards[1..]))[1..] == CustomCards(cards[1..]);
      }
    }
  }
}
