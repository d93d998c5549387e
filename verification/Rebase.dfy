// apps/desktop/project_store.py, _rebase_value: moving every path of a JSON document
// from one workspace root to another.
module Rebase {
  // An object is its keys and, in the same order, its values.
  datatype Json =
    | Null
    | Bool(b: bool)
    | Number(digits: string)
    | String(text: string)
    | List(items: seq<Json>)
    | Object(keys: seq<string>, items: seq<Json>)

  // The root itself, or something below it. (`normcase` is taken to be the identity.)
  predicate Under(value: string, root: string) {
    value == root || (root <= value && |value| > |root| && (value[|root|] == '/' || value[|root|] == '\\'))
  }

  function Relative(value: string, root: string): string
    requires Under(value, root)
  {
    value[|root|..]
  }

  function RebaseText(value: string, from: string, to: string): string {
    if Under(value, from) then to + value[|from|..] else value
  }

  function Rebased(j: Json, from: string, to: string): Json {
    match j
    case String(text) => String(RebaseText(text, from, to))
    case List(items) => List(RebasedItems(items, from, to))
    case Object(keys, items) => Object(keys, RebasedItems(items, from, to))
    case _ => j
  }

  function RebasedItems(items: seq<Json>, from: string, to: string): seq<Json> {
    if items == [] then [] else [Rebased(items[0], from, to)] + RebasedItems(items[1..], from, to)
  }

  // Every string of a document, keys apart, in order.
  function Texts(j: Json): seq<string> {
    match j
    case String(text) => [text]
    case List(items) => ItemTexts(items)
    case Object(_, items) => ItemTexts(items)
    case _ => []
  }

  function ItemTexts(items: seq<Json>): seq<string> {
    if items == [] then [] else Texts(items[0]) + ItemTexts(items[1..])
  }

  // Two documents that differ in nothing but their strings.
  predicate SameShape(a: Json, b: Json) {
    match a
    case String(_) => b.String?
    case List(items) => b.List? && SameItems(items, b.items)
    case Object(keys, items) => b.Object? && b.keys == keys && SameItems(items, b.items)
    case _ => a == b
  }

  predicate SameItems(a: seq<Json>, b: seq<Json>) {
    |a| == |b| && (a == [] || (SameShape(a[0], b[0]) && SameItems(a[1..], b[1..])))
  }

  // Below the old root a string keeps its relative path, elsewhere it stays as it is.
  lemma TextKeepsRelative(value: string, from: string, to: string)
    ensures Under(value, from) ==>
      Under(RebaseText(value, from, to), to) && Relative(RebaseText(value, from, to), to) == Relative(value, from)
    ensures !Under(value, from) ==> RebaseText(value, from, to) == value
  {
  }

  lemma TextReturns(value: string, from: string, to: string)
    ensures RebaseText(RebaseText(value, from, to), to, from) == value <==> (Under(value, to) ==> Under(value, from))
  {
    if Under(value, from) {
      assert RebaseText(value, from, to)[|to|..] == value[|from|..];
      assert from + value[|from|..] == value;
    } else if Under(value, to) {
      assert |from| == |to| ==> (from + value[|to|..])[..|from|] == from;
    }
  }

  lemma {:induction false} RebasedTexts(j: Json, from: string, to: string)
    ensures SameShape(j, Rebased(j, from, to)) && |Texts(Rebased(j, from, to))| == |Texts(j)|
    ensures forall k :: 0 <= k < |Texts(j)| ==> Texts(Rebased(j, from, to))[k] == RebaseText(Texts(j)[k], from, to)
  {
    match j
    case List(items) => RebasedItemTexts(items, from, to);
    case Object(_, items) => RebasedItemTexts(items, from, to);
    case _ =>
  }

  lemma {:induction false} RebasedItemTexts(items: seq<Json>, from: string, to: string)
    ensures SameItems(items, RebasedItems(items, from, to))
    ensures |ItemTexts(RebasedItems(items, from, to))| == |ItemTexts(items)|
    ensures forall k :: 0 <= k < |ItemTexts(items)| ==>
      ItemTexts(RebasedItems(items, from, to))[k] == RebaseText(ItemTexts(items)[k], from, to)
  {
    if items != [] {
      RebasedTexts(items[0], from, to);
      RebasedItemTexts(items[1..], from, to);
      assert RebasedItems(items, from, to)[1..] == RebasedItems(items[1..], from, to);
    }
  }

  // A rebased document has the shape of the original, and each of its strings is below
  // the new root at the relative path it had, or is the string of the original.
  lemma EveryTextKeepsRelative(j: Json, from: string, to: string)
    ensures SameShape(j, Rebased(j, from, to)) && |Texts(Rebased(j, from, to))| == |Texts(j)|
    ensures forall k :: 0 <= k < |Texts(j)| ==>
      var a, b := Texts(j)[k], Texts(Rebased(j, from, to))[k];
      if Under(a, from) then Under(b, to) && Relative(b, to) == Relative(a, from) else b == a
  {
    RebasedTexts(j, from, to);
    forall k | 0 <= k < |Texts(j)| {
      TextKeepsRelative(Texts(j)[k], from, to);
    }
  }

  // Rebasing back is the identity exactly on the documents in which no string lies
  // under the new root without lying under the old one.
  lemma {:induction false} RoundTrip(j: Json, from: string, to: string)
    ensures Rebased(Rebased(j, from, to), to, from) == j <==>
      forall s :: s in Texts(j) ==> (Under(s, to) ==> Under(s, from))
  {
    match j
    case String(text) =>
      TextReturns(text, from, to);
      assert text in Texts(j);
    case List(items) => ItemsRoundTrip(items, from, to);
    case Object(_, items) => ItemsRoundTrip(items, from, to);
    case _ =>
  }

  lemma {:induction false} ItemsRoundTrip(items: seq<Json>, from: string, to: string)
    ensures RebasedItems(RebasedItems(items, from, to), to, from) == items <==>
      forall s :: s in ItemTexts(items) ==> (Under(s, to) ==> Under(s, from))
  {
    if items != [] {
      RoundTrip(items[0], from, to);
      ItemsRoundTrip(items[1..], from, to);
      var there := RebasedItems(items, from, to);
      assert there[1..] == RebasedItems(items[1..], from, to);
      var back := RebasedItems(there, to, from);
      assert back[1..] == RebasedItems(there[1..], to, from);
      assert items == [items[0]] + items[1..];
      assert back == items <==> back[0] == items[0] && back[1..] == items[1..];
    }
  }
}
