/** The explicit-stack walk behind every search across all fields, against the recursive reading of a tree. */
module SearchValues {
  import opened Common

  /** A JSON-shaped value. `Number` carries its printed form, `Opaque` is anything else (a function, a symbol). */
  datatype Json =
    | Null | Undefined | Opaque
    | Text(text: string)
    | Number(printed: string)
    | Boolean(truth: bool)
    | Array(items: seq<Json>)
    | Object(entries: seq<Member>)

  datatype Member = Member(key: string, value: Json)

  function Reverse<T>(s: seq<T>): (r: seq<T>)
    ensures |r| == |s| && forall i :: 0 <= i < |s| ==> r[i] == s[|s| - 1 - i]
  {
    seq(|s|, i requires 0 <= i < |s| => s[|s| - 1 - i])
  }

  lemma ReverseBoth<T>(a: seq<T>, b: seq<T>)
    ensures Reverse(a + b) == Reverse(b) + Reverse(a)
  {
  }

  /** The leaves of a value, left to right. */
  function Leaves(node: Json, excluded: seq<string>): seq<string>
    decreases node
  {
    match node
    case Text(text) => [text]
    case Number(printed) => [printed]
    case Boolean(truth) => [if truth then "true" else "false"]
    case Array(items) => AllLeaves(items, excluded)
    case Object(entries) => EntryLeaves(entries, excluded)
    case _ => []
  }

  function AllLeaves(items: seq<Json>, excluded: seq<string>): seq<string>
    decreases items
  {
    if items == [] then [] else Leaves(items[0], excluded) + AllLeaves(items[1..], excluded)
  }

  function EntryLeaves(entries: seq<Member>, excluded: seq<string>): seq<string>
    decreases entries
  {
    if entries == [] then [] else
      (if entries[0].key in excluded then [] else Leaves(entries[0].value, excluded)) + EntryLeaves(entries[1..], excluded)
  }

  /** The values an object pushes, in order. */
  function Included(entries: seq<Member>, excluded: seq<string>): seq<Json> {
    if entries == [] then [] else
      (if entries[0].key in excluded then [] else [entries[0].value]) + Included(entries[1..], excluded)
  }

  lemma {:induction false} AllLeavesBoth(a: seq<Json>, b: seq<Json>, excluded: seq<string>)
    ensures AllLeaves(a + b, excluded) == AllLeaves(a, excluded) + AllLeaves(b, excluded)
  {
    if a == [] {
      assert a + b == b;
    } else {
      assert (a + b)[1..] == a[1..] + b;
      AllLeavesBoth(a[1..], b, excluded);
    }
  }

  lemma {:induction false} IncludedLeaves(entries: seq<Member>, excluded: seq<string>)
    ensures AllLeaves(Included(entries, excluded), excluded) == EntryLeaves(entries, excluded)
  {
    if entries != [] {
      IncludedLeaves(entries[1..], excluded);
      if entries[0].key !in excluded {
        assert Included(entries, excluded)[1..] == Included(entries[1..], excluded);
      } else {
        assert Included(entries, excluded) == Included(entries[1..], excluded);
      }
    }
  }

  lemma {:induction false} EntryLeavesBoth(a: seq<Member>, b: seq<Member>, excluded: seq<string>)
    ensures EntryLeaves(a + b, excluded) == EntryLeaves(a, excluded) + EntryLeaves(b, excluded)
  {
    if a == [] {
      assert a + b == b;
    } else {
      assert (a + b)[1..] == a[1..] + b;
      EntryLeavesBoth(a[1..], b, excluded);
    }
  }

  /** The leaves come left to right: those of an array or an object are those of its parts, joined in order. */
  lemma LeavesInOrder(items: seq<Json>, more: seq<Json>, entries: seq<Member>, others: seq<Member>, excluded: seq<string>)
    ensures Leaves(Array(items + more), excluded) == Leaves(Array(items), excluded) + Leaves(Array(more), excluded)
    ensures Leaves(Object(entries + others), excluded) == Leaves(Object(entries), excluded) + Leaves(Object(others), excluded)
    ensures |items| == 1 ==> Leaves(Array(items), excluded) == Leaves(items[0], excluded)
    ensures |entries| == 1 ==>
      Leaves(Object(entries), excluded) == if entries[0].key in excluded then [] else Leaves(entries[0].value, excluded)
  {
    AllLeavesBoth(items, more, excluded);
    EntryLeavesBoth(entries, others, excluded);
    if |items| == 1 { assert items[1..] == [] && AllLeaves([], excluded) == []; }
    if |entries| == 1 { assert entries[1..] == [] && EntryLeaves([], excluded) == []; }
  }

  /** The value at the end of a path of places in arrays and objects, none of them under an excluded key. */
  function At(node: Json, path: seq<nat>, excluded: seq<string>): Option<Json>
    decreases |path|
  {
    if path == [] then Some(node) else
      match node
      case Array(items) => if path[0] < |items| then At(items[path[0]], path[1..], excluded) else None
      case Object(entries) =>
        if path[0] < |entries| && entries[path[0]].key !in excluded then At(entries[path[0]].value, path[1..], excluded)
        else None
      case _ => None
  }

  /** A string, a number or a boolean, and the text a search is given for it. */
  ghost predicate Prints(leaf: Json, text: string) {
    || leaf == Text(text) || leaf == Number(text)
    || (leaf == Boolean(true) && text == "true") || (leaf == Boolean(false) && text == "false")
  }

  ghost predicate Reaches(node: Json, path: seq<nat>, excluded: seq<string>, text: string) {
    At(node, path, excluded).Some? && Prints(At(node, path, excluded).value, text)
  }

  lemma {:induction false} AllLeavesFound(items: seq<Json>, excluded: seq<string>, text: string) returns (n: nat)
    requires text in AllLeaves(items, excluded)
    ensures n < |items| && text in Leaves(items[n], excluded)
    decreases items
  {
    if text in Leaves(items[0], excluded) { return 0; }
    n := AllLeavesFound(items[1..], excluded, text);
    n := n + 1;
  }

  lemma {:induction false} EntryLeavesFound(entries: seq<Member>, excluded: seq<string>, text: string) returns (n: nat)
    requires text in EntryLeaves(entries, excluded)
    ensures n < |entries| && entries[n].key !in excluded && text in Leaves(entries[n].value, excluded)
    decreases entries
  {
    if entries[0].key !in excluded && text in Leaves(entries[0].value, excluded) { return 0; }
    n := EntryLeavesFound(entries[1..], excluded, text);
    n := n + 1;
  }

  lemma {:induction false} LeafHasPath(node: Json, excluded: seq<string>, text: string) returns (path: seq<nat>)
    requires text in Leaves(node, excluded)
    ensures Reaches(node, path, excluded, text)
    decreases node
  {
    match node {
      case Array(items) =>
        var n := AllLeavesFound(items, excluded, text);
        var rest := LeafHasPath(items[n], excluded, text);
        path := [n] + rest;
        assert path[1..] == rest;
      case Object(entries) =>
        var n := EntryLeavesFound(entries, excluded, text);
        var rest := LeafHasPath(entries[n].value, excluded, text);
        path := [n] + rest;
        assert path[1..] == rest;
      case _ => path := [];
    }
  }

  lemma {:induction false} PathIsLeaf(node: Json, path: seq<nat>, excluded: seq<string>, text: string)
    requires Reaches(node, path, excluded, text)
    ensures text in Leaves(node, excluded)
    decreases |path|
  {
    if path != [] {
      var n := path[0];
      if node.Array? {
        PathIsLeaf(node.items[n], path[1..], excluded, text);
        assert node.items == node.items[..n] + ([node.items[n]] + node.items[n + 1..]);
        AllLeavesBoth(node.items[..n], [node.items[n]] + node.items[n + 1..], excluded);
      } else {
        PathIsLeaf(node.entries[n].value, path[1..], excluded, text);
        assert node.entries == node.entries[..n] + ([node.entries[n]] + node.entries[n + 1..]);
        EntryLeavesBoth(node.entries[..n], [node.entries[n]] + node.entries[n + 1..], excluded);
      }
    }
  }

  /** A text is found exactly when some path outside the excluded keys ends at a leaf that prints as it. */
  lemma LeavesAreReached(node: Json, excluded: seq<string>, text: string)
    ensures text in Leaves(node, excluded) <==> exists path :: Reaches(node, path, excluded, text)
  {
    if text in Leaves(node, excluded) { var path := LeafHasPath(node, excluded, text); }
    forall path | Reaches(node, path, excluded, text) ensures text in Leaves(node, excluded) {
      PathIsLeaf(node, path, excluded, text);
    }
  }

  /** A value with every excluded subtree, null and undefined taken out. */
  function Pruned(node: Json, excluded: seq<string>): Json
    decreases node
  {
    match node
    case Array(items) => Array(PrunedItems(items, excluded))
    case Object(entries) => Object(PrunedEntries(entries, excluded))
    case _ => node
  }

  function PrunedItems(items: seq<Json>, excluded: seq<string>): seq<Json>
    decreases items
  {
    if items == [] then [] else
      (if items[0].Null? || items[0].Undefined? then [] else [Pruned(items[0], excluded)])
      + PrunedItems(items[1..], excluded)
  }

  function PrunedEntries(entries: seq<Member>, excluded: seq<string>): seq<Member>
    decreases entries
  {
    if entries == [] then [] else
      (if entries[0].key in excluded || entries[0].value.Null? || entries[0].value.Undefined? then []
       else [Member(entries[0].key, Pruned(entries[0].value, excluded))])
      + PrunedEntries(entries[1..], excluded)
  }

  /** Excluding keys is pruning first: the leaves are those of the pruned value with nothing excluded. */
  lemma {:induction false} ExcludingIsPruning(node: Json, excluded: seq<string>)
    ensures Leaves(node, excluded) == Leaves(Pruned(node, excluded), [])
    decreases node
  {
    match node
    case Array(items) => ItemsPruned(items, excluded);
    case Object(entries) => EntriesPruned(entries, excluded);
    case _ =>
  }

  lemma {:induction false} ItemsPruned(items: seq<Json>, excluded: seq<string>)
    ensures AllLeaves(items, excluded) == AllLeaves(PrunedItems(items, excluded), [])
    decreases items
  {
    if items != [] {
      ExcludingIsPruning(items[0], excluded);
      ItemsPruned(items[1..], excluded);
      if !items[0].Null? && !items[0].Undefined? {
        assert PrunedItems(items, excluded)[1..] == PrunedItems(items[1..], excluded);
      } else {
        assert PrunedItems(items, excluded) == PrunedItems(items[1..], excluded);
      }
    }
  }

  lemma {:induction false} EntriesPruned(entries: seq<Member>, excluded: seq<string>)
    ensures EntryLeaves(entries, excluded) == EntryLeaves(PrunedEntries(entries, excluded), [])
    decreases entries
  {
    if entries != [] {
      ExcludingIsPruning(entries[0].value, excluded);
      EntriesPruned(entries[1..], excluded);
      var kept := PrunedEntries(entries, excluded);
      if entries[0].key in excluded || entries[0].value.Null? || entries[0].value.Undefined? {
        assert kept == PrunedEntries(entries[1..], excluded);
      } else {
        assert kept[1..] == PrunedEntries(entries[1..], excluded);
      }
    }
  }

  /** How many nodes a value holds: what a pop takes off the stack and a push puts back without the parent. */
  function Size(node: Json): (n: nat)
    ensures n > 0
    decreases node
  {
    match node
    case Array(items) => 1 + TotalSize(items)
    case Object(entries) => 1 + EntrySize(entries)
    case _ => 1
  }

  function TotalSize(items: seq<Json>): nat
    decreases items
  {
    if items == [] then 0 else Size(items[0]) + TotalSize(items[1..])
  }

  function EntrySize(entries: seq<Member>): nat
    decreases entries
  {
    if entries == [] then 0 else Size(entries[0].value) + EntrySize(entries[1..])
  }

  lemma {:induction false} TotalSizeBoth(a: seq<Json>, b: seq<Json>)
    ensures TotalSize(a + b) == TotalSize(a) + TotalSize(b)
  {
    if a == [] {
      assert a + b == b;
    } else {
      assert (a + b)[1..] == a[1..] + b;
      TotalSizeBoth(a[1..], b);
    }
  }

  lemma {:induction false} IncludedSize(entries: seq<Member>, excluded: seq<string>)
    ensures TotalSize(Included(entries, excluded)) <= EntrySize(entries)
  {
    if entries != [] {
      IncludedSize(entries[1..], excluded);
      if entries[0].key !in excluded {
        assert Included(entries, excluded)[1..] == Included(entries[1..], excluded);
      } else {
        assert Included(entries, excluded) == Included(entries[1..], excluded);
      }
    }
  }

  /** What one pop makes of the stack and of the output, for the invariant and the measure. */
  lemma Popped(rest: seq<Json>, node: Json, pushed: seq<Json>, excluded: seq<string>)
    requires AllLeaves(pushed, excluded) == Leaves(node, excluded) || pushed == []
    requires TotalSize(pushed) < Size(node)
    ensures AllLeaves(rest + [node], excluded) == AllLeaves(rest, excluded) + Leaves(node, excluded)
    ensures AllLeaves(rest + pushed, excluded) == AllLeaves(rest, excluded) + AllLeaves(pushed, excluded)
    ensures TotalSize(rest + pushed) < TotalSize(rest + [node])
  {
    AllLeavesBoth(rest, [node], excluded);
    AllLeavesBoth(rest, pushed, excluded);
    TotalSizeBoth(rest, [node]);
    TotalSizeBoth(rest, pushed);
    assert AllLeaves([node], excluded) == Leaves(node, excluded);
  }

  /** The leaf a node is itself, if it is one. */
  function OwnLeaf(node: Json): (leaf: seq<string>)
    ensures !node.Array? && !node.Object? ==> forall excluded :: Leaves(node, excluded) == leaf
  {
    match node
    case Text(text) => [text]
    case Number(printed) => [printed]
    case Boolean(truth) => [if truth then "true" else "false"]
    case _ => []
  }

  lemma LeafPopped(rest: seq<Json>, node: Json, excluded: seq<string>)
    requires !node.Array? && !node.Object?
    ensures Reverse(AllLeaves(rest + [node], excluded)) == OwnLeaf(node) + Reverse(AllLeaves(rest, excluded))
    ensures TotalSize(rest) < TotalSize(rest + [node])
  {
    Popped(rest, node, [], excluded);
    assert rest + [] == rest;
    ReverseBoth(AllLeaves(rest, excluded), OwnLeaf(node));
    assert Reverse(OwnLeaf(node)) == OwnLeaf(node);
  }

  method PushItems(stack: seq<Json>, items: seq<Json>) returns (pushed: seq<Json>)
    ensures pushed == stack + items
  {
    pushed := stack;
    for n := 0 to |items|
      invariant pushed == stack + items[..n]
    {
      pushed := pushed + [items[n]];
    }
  }

  method PushEntries(stack: seq<Json>, entries: seq<Member>, excluded: seq<string>) returns (pushed: seq<Json>)
    ensures pushed == stack + Included(entries, excluded)
  {
    pushed := stack;
    assert entries[0..] == entries;
    for n := 0 to |entries|
      invariant pushed + Included(entries[n..], excluded) == stack + Included(entries, excluded)
    {
      assert entries[n..][1..] == entries[n + 1..];
      if entries[n].key !in excluded { pushed := pushed + [entries[n].value]; }
    }
  }

  /** One pop: what goes to the output, and what goes back on the stack. */
  method Visit(rest: seq<Json>, node: Json, excluded: seq<string>) returns (found: seq<string>, stack: seq<Json>)
    ensures found + Reverse(AllLeaves(stack, excluded)) == Reverse(AllLeaves(rest + [node], excluded))
    ensures TotalSize(stack) < TotalSize(rest + [node])
  {
    found, stack := [], rest;
    match node {
      case Array(items) =>
        Popped(rest, node, items, excluded);
        stack := PushItems(rest, items);
      case Object(entries) =>
        IncludedLeaves(entries, excluded);
        IncludedSize(entries, excluded);
        Popped(rest, node, Included(entries, excluded), excluded);
        stack := PushEntries(rest, entries, excluded);
      case _ =>
        LeafPopped(rest, node, excluded);
        found := OwnLeaf(node);
    }
  }

  /** Every string, number and boolean of a value outside the excluded subtrees, last leaf first. */
  method FlattenSearchValues(root: Json, excluded: seq<string>) returns (values: seq<string>)
    ensures values == Reverse(Leaves(root, excluded))
  {
    values := [];
    var stack := [root];
    ghost var all := Reverse(Leaves(root, excluded));
    assert AllLeaves(stack, excluded) == Leaves(root, excluded);
    while |stack| > 0
      invariant values + Reverse(AllLeaves(stack, excluded)) == all
      decreases TotalSize(stack)
    {
      var node, rest := stack[|stack| - 1], stack[..|stack| - 1];
      assert stack == rest + [node];
      var found;
      found, stack := Visit(rest, node, excluded);
      values := values + found;
    }
  }
}
