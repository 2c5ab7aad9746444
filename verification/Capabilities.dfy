/**
 The capability worklist: a stack with a node cap collects what the plain
 recursion over the document collects, up to the cap.
 */
module Capabilities {
  import opened Sequences

  datatype Field = Field(key: string, value: Json)

  datatype Json = Obj(fields: seq<Field>) | Arr(items: seq<Json>) | Str(text: string) | Scalar

  const MAX_NODES := 10000

  predicate Container(j: Json) {
    j.Obj? || j.Arr?
  }

  // ---- the plain recursion; `lower` is Python's `str.lower` ----

  /** All keys of objects and all strings in lists, at any depth. */
  function KeysOf(j: Json, lower: string -> string): set<string>
    decreases j
  {
    match j
    case Obj(fields) => KeysOfFields(fields, lower)
    case Arr(items) => KeysOfItems(items, lower)
    case _ => {}
  }

  function KeysOfFields(fields: seq<Field>, lower: string -> string): set<string>
    decreases fields
  {
    if fields == [] then {}
    else
      var last := fields[|fields| - 1];
      KeysOfFields(fields[..|fields| - 1], lower) + {lower(last.key)} + KeysOf(last.value, lower)
  }

  function KeysOfItems(items: seq<Json>, lower: string -> string): set<string>
    decreases items
  {
    if items == [] then {}
    else
      var last := items[|items| - 1];
      KeysOfItems(items[..|items| - 1], lower) + if last.Str? then {lower(last.text)} else KeysOf(last, lower)
  }

  // ---- one node ----

  /** The keys of one object, or the strings of one list. */
  function Own(j: Json, lower: string -> string): set<string> {
    match j
    case Obj(fields) => set f | f in fields :: lower(f.key)
    case Arr(items) => set item | item in items && item.Str? :: lower(item.text)
    case _ => {}
  }

  function Values(fields: seq<Field>): seq<Json> {
    seq(|fields|, i requires 0 <= i < |fields| => fields[i].value)
  }

  function Containers(items: seq<Json>): seq<Json> {
    if items == [] then []
    else Containers(items[..|items| - 1]) + if Container(items[|items| - 1]) then [items[|items| - 1]] else []
  }

  /** The containers directly inside, in order. */
  function Children(j: Json): seq<Json> {
    match j
    case Obj(fields) => Containers(Values(fields))
    case Arr(items) => Containers(items)
    case _ => []
  }

  // ---- the order of visits ----

  /** The nodes a stack leads to: the last one first, its contents before the rest. */
  function Visits(j: Json): seq<Json>
    decreases j
  {
    [j] + match j
          case Obj(fields) => VisitsOfFields(fields)
          case Arr(items) => VisitsOfItems(items)
          case _ => []
  }

  function VisitsOfFields(fields: seq<Field>): seq<Json>
    decreases fields
  {
    if fields == [] then [] else
    var last := fields[|fields| - 1].value;
    (if Container(last) then Visits(last) else []) + VisitsOfFields(fields[..|fields| - 1])
  }

  function VisitsOfItems(items: seq<Json>): seq<Json>
    decreases items
  {
    if items == [] then [] else
    var last := items[|items| - 1];
    (if Container(last) then Visits(last) else []) + VisitsOfItems(items[..|items| - 1])
  }

  function VisitsOfStack(stack: seq<Json>): seq<Json> {
    if stack == [] then [] else Visits(stack[|stack| - 1]) + VisitsOfStack(stack[..|stack| - 1])
  }

  function Owned(nodes: seq<Json>, lower: string -> string): set<string> {
    if nodes == [] then {} else Owned(nodes[..|nodes| - 1], lower) + Own(nodes[|nodes| - 1], lower)
  }

  /** At most the first `n` nodes. */
  function FirstNodes(nodes: seq<Json>, n: nat): seq<Json> {
    if |nodes| <= n then nodes else nodes[..n]
  }

  // ---- the worklist ----

  method AllKeys(value: Json, lower: string -> string) returns (keys: set<string>)
    ensures keys == Owned(FirstNodes(Visits(value), MAX_NODES), lower)
  {
    keys := {};
    var stack, visited := [value], 0;
    ghost var seen: seq<Json> := [];
    while stack != []
      invariant Visits(value) == seen + VisitsOfStack(stack) && |seen| == visited <= MAX_NODES
      invariant keys == Owned(seen, lower)
      decreases |VisitsOfStack(stack)|
    {
      ghost var before := stack;
      var current := stack[|stack| - 1];
      stack := stack[..|stack| - 1];
      assert before == stack + [current];
      visited := visited + 1;
      if visited > MAX_NODES {
        CapReached(seen, VisitsOfStack(before));
        return;
      }
      Visited(seen, stack, current, lower);
      keys, stack := Collect(current, lower, keys, stack);
      seen := seen + [current];
    }
    assert Visits(value) == seen;
  }

  lemma CapReached(seen: seq<Json>, rest: seq<Json>)
    requires |seen| == MAX_NODES && rest != []
    ensures FirstNodes(seen + rest, MAX_NODES) == seen
  {
  }

  /** Taking a node from the stack and pushing its contents moves it from the visits to come to those made. */
  lemma Visited(seen: seq<Json>, stack: seq<Json>, current: Json, lower: string -> string)
    ensures seen + VisitsOfStack(stack + [current]) == seen + [current] + VisitsOfStack(stack + Children(current))
    ensures |VisitsOfStack(stack + Children(current))| < |VisitsOfStack(stack + [current])|
    ensures Owned(seen + [current], lower) == Owned(seen, lower) + Own(current, lower)
  {
    StackPush(stack, current);
    StackChildren(stack, current);
    Assoc(seen, [current], VisitsOfStack(stack + Children(current)));
    OwnedNext(seen, current, lower);
  }

  lemma OwnedNext(seen: seq<Json>, current: Json, lower: string -> string)
    ensures Owned(seen + [current], lower) == Owned(seen, lower) + Own(current, lower)
  {
    assert (seen + [current])[..|seen|] == seen;
  }

  /** The contents of one node: its own keys are added, its containers pushed. */
  method Collect(current: Json, lower: string -> string, before: set<string>, rest: seq<Json>)
    returns (keys: set<string>, stack: seq<Json>)
    ensures keys == before + Own(current, lower) && stack == rest + Children(current)
  {
    if current.Obj? {
      keys, stack := CollectFields(current.fields, lower, before, rest);
    } else if current.Arr? {
      keys, stack := CollectItems(current.items, lower, before, rest);
    } else {
      keys, stack := before, rest;
    }
  }

  method CollectFields(fields: seq<Field>, lower: string -> string, before: set<string>, rest: seq<Json>)
    returns (keys: set<string>, stack: seq<Json>)
    ensures keys == before + Own(Obj(fields), lower) && stack == rest + Containers(Values(fields))
  {
    keys, stack := before, rest;
    var i := 0;
    while i < |fields|
      invariant 0 <= i <= |fields|
      invariant keys == before + Own(Obj(fields[..i]), lower) && stack == rest + Containers(Values(fields[..i]))
    {
      NextField(fields, i, lower);
      keys := keys + {lower(fields[i].key)};
      if Container(fields[i].value) {
        Assoc(rest, Containers(Values(fields[..i])), [fields[i].value]);
        stack := stack + [fields[i].value];
      }
      i := i + 1;
    }
    assert fields[..i] == fields;
  }

  method CollectItems(items: seq<Json>, lower: string -> string, before: set<string>, rest: seq<Json>)
    returns (keys: set<string>, stack: seq<Json>)
    ensures keys == before + Own(Arr(items), lower) && stack == rest + Containers(items)
  {
    keys, stack := before, rest;
    var i := 0;
    while i < |items|
      invariant 0 <= i <= |items|
      invariant keys == before + Own(Arr(items[..i]), lower) && stack == rest + Containers(items[..i])
    {
      NextItem(items, i, lower);
      if Container(items[i]) {
        Assoc(rest, Containers(items[..i]), [items[i]]);
        stack := stack + [items[i]];
      } else if items[i].Str? {
        keys := keys + {lower(items[i].text)};
      }
      i := i + 1;
    }
    assert items[..i] == items;
  }

  lemma NextField(fields: seq<Field>, i: nat, lower: string -> string)
    requires i < |fields|
    ensures Own(Obj(fields[..i + 1]), lower) == Own(Obj(fields[..i]), lower) + {lower(fields[i].key)}
    ensures Containers(Values(fields[..i + 1]))
            == Containers(Values(fields[..i])) + if Container(fields[i].value) then [fields[i].value] else []
  {
    assert fields[..i + 1] == fields[..i] + [fields[i]];
    var values := Values(fields[..i + 1]);
    assert values[..i] == Values(fields[..i]);
  }

  lemma NextItem(items: seq<Json>, i: nat, lower: string -> string)
    requires i < |items|
    ensures Own(Arr(items[..i + 1]), lower)
            == Own(Arr(items[..i]), lower) + if items[i].Str? then {lower(items[i].text)} else {}
    ensures Containers(items[..i + 1]) == Containers(items[..i]) + if Container(items[i]) then [items[i]] else []
  {
    assert items[..i + 1] == items[..i] + [items[i]];
    assert items[..i + 1][..i] == items[..i];
  }

  /** Pushing the contents of a node puts its visits in front of the rest. */
  lemma StackChildren(stack: seq<Json>, j: Json)
    ensures [j] + VisitsOfStack(stack + Children(j)) == Visits(j) + VisitsOfStack(stack)
  {
    match j
    case Obj(fields) =>
      FieldsAreItems(fields);
      StackItems(stack, Values(fields));
    case Arr(items) => StackItems(stack, items);
    case _ => assert stack + [] == stack;
  }

  lemma {:induction false} FieldsAreItems(fields: seq<Field>)
    ensures VisitsOfFields(fields) == VisitsOfItems(Values(fields))
  {
    if fields != [] {
      var n := |fields| - 1;
      FieldsAreItems(fields[..n]);
      assert Values(fields)[..n] == Values(fields[..n]);
    }
  }

  lemma StackPush(stack: seq<Json>, j: Json)
    ensures VisitsOfStack(stack + [j]) == Visits(j) + VisitsOfStack(stack)
  {
    assert (stack + [j])[..|stack|] == stack;
  }

  lemma {:induction false} StackItems(stack: seq<Json>, items: seq<Json>)
    ensures VisitsOfStack(stack + Containers(items)) == VisitsOfItems(items) + VisitsOfStack(stack)
  {
    if items == [] {
      assert stack + [] == stack;
    } else {
      var init, last := items[..|items| - 1], items[|items| - 1];
      StackItems(stack, init);
      if Container(last) {
        Assoc(stack, Containers(init), [last]);
        StackPush(stack + Containers(init), last);
        Assoc(Visits(last), VisitsOfItems(init), VisitsOfStack(stack));
      } else {
        assert Containers(items) == Containers(init) && VisitsOfItems(items) == VisitsOfItems(init);
      }
    }
  }

  // ---- against the recursion ----

  lemma {:induction false} OwnedConcat(a: seq<Json>, b: seq<Json>, lower: string -> string)
    ensures Owned(a + b, lower) == Owned(a, lower) + Owned(b, lower)
  {
    if b == [] {
      assert a + b == a;
    } else {
      assert (a + b)[..|a + b| - 1] == a + b[..|b| - 1];
      OwnedConcat(a, b[..|b| - 1], lower);
    }
  }

  /** The recursion collects what all nodes own. */
  lemma {:induction false} KeysAreOwned(j: Json, lower: string -> string)
    ensures KeysOf(j, lower) == Owned(Visits(j), lower)
    decreases j
  {
    match j
    case Obj(fields) =>
      FieldKeysAreOwned(fields, lower);
      OwnedConcat([j], VisitsOfFields(fields), lower);
    case Arr(items) =>
      ItemKeysAreOwned(items, lower);
      OwnedConcat([j], VisitsOfItems(items), lower);
    case _ =>
  }

  lemma {:induction false} FieldKeysAreOwned(fields: seq<Field>, lower: string -> string)
    ensures KeysOfFields(fields, lower) == Own(Obj(fields), lower) + Owned(VisitsOfFields(fields), lower)
    decreases fields
  {
    if fields != [] {
      var n := |fields| - 1;
      FieldKeysAreOwned(fields[..n], lower);
      KeysAreOwned(fields[n].value, lower);
      NextField(fields, n, lower);
      assert fields[..n + 1] == fields;
      OwnedConcat(Visits(fields[n].value), VisitsOfFields(fields[..n]), lower);
      assert [] + VisitsOfFields(fields[..n]) == VisitsOfFields(fields[..n]);
    }
  }

  lemma {:induction false} ItemKeysAreOwned(items: seq<Json>, lower: string -> string)
    ensures KeysOfItems(items, lower) == Own(Arr(items), lower) + Owned(VisitsOfItems(items), lower)
    decreases items
  {
    if items != [] {
      var n := |items| - 1;
      ItemKeysAreOwned(items[..n], lower);
      KeysAreOwned(items[n], lower);
      NextItem(items, n, lower);
      assert items[..n + 1] == items;
      OwnedConcat(Visits(items[n]), VisitsOfItems(items[..n]), lower);
      assert [] + VisitsOfItems(items[..n]) == VisitsOfItems(items[..n]);
    }
  }

  lemma OwnedPrefix(nodes: seq<Json>, n: nat, lower: string -> string)
    requires n <= |nodes|
    ensures Owned(nodes[..n], lower) <= Owned(nodes, lower)
  {
    assert nodes == nodes[..n] + nodes[n..];
    OwnedConcat(nodes[..n], nodes[n..], lower);
  }

  /** The capped worklist never invents a key, and up to the cap it misses none. */
  lemma WorklistIsRecursion(j: Json, lower: string -> string)
    ensures Owned(FirstNodes(Visits(j), MAX_NODES), lower) <= KeysOf(j, lower)
    ensures |Visits(j)| <= MAX_NODES ==> Owned(FirstNodes(Visits(j), MAX_NODES), lower) == KeysOf(j, lower)
  {
    KeysAreOwned(j, lower);
    if |Visits(j)| > MAX_NODES {
      OwnedPrefix(Visits(j), MAX_NODES, lower);
    }
  }

  // ---- the cap counts containers ----

  /** The number of objects and lists in a document. */
  function Size(j: Json): nat
    decreases j
  {
    match j
    case Obj(fields) => 1 + SizeOfFields(fields)
    case Arr(items) => 1 + SizeOfItems(items)
    case _ => 0
  }

  function SizeOfFields(fields: seq<Field>): nat
    decreases fields
  {
    if fields == [] then 0 else Size(fields[|fields| - 1].value) + SizeOfFields(fields[..|fields| - 1])
  }

  function SizeOfItems(items: seq<Json>): nat
    decreases items
  {
    if items == [] then 0 else Size(items[|items| - 1]) + SizeOfItems(items[..|items| - 1])
  }

  lemma {:induction false} VisitsCount(j: Json)
    ensures |Visits(j)| == if Container(j) then Size(j) else 1
    decreases j
  {
    match j
    case Obj(fields) => FieldVisitsCount(fields);
    case Arr(items) => ItemVisitsCount(items);
    case _ =>
  }

  lemma {:induction false} FieldVisitsCount(fields: seq<Field>)
    ensures |VisitsOfFields(fields)| == SizeOfFields(fields)
    decreases fields
  {
    if fields != [] {
      VisitsCount(fields[|fields| - 1].value);
      FieldVisitsCount(fields[..|fields| - 1]);
    }
  }

  lemma {:induction false} ItemVisitsCount(items: seq<Json>)
    ensures |VisitsOfItems(items)| == SizeOfItems(items)
    decreases items
  {
    if items != [] {
      VisitsCount(items[|items| - 1]);
      ItemVisitsCount(items[..|items| - 1]);
    }
  }

  /** A document with at most 10000 objects and lists is collected completely. */
  lemma SmallDocumentsAreComplete(j: Json, lower: string -> string)
    requires Size(j) <= MAX_NODES
    ensures Owned(FirstNodes(Visits(j), MAX_NODES), lower) == KeysOf(j, lower)
  {
    VisitsCount(j);
    WorklistIsRecursion(j, lower);
  }
}
