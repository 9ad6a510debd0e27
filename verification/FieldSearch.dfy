// The search for forbidden field names in a parsed answer
// (scripts/smoke-agent-v3-staging.ts): depth first over an object graph that may
// have cycles, with one set of visited objects shared by all calls.
module FieldSearch {
  // A value that is no object, null included, or a reference to an object.
  datatype Value = Primitive | Ref(id: nat)

  datatype Node =
    | ArrayNode(entries: seq<Value>)
    | ObjectNode(fields: seq<(string, Value)>)

  type Graph = map<nat, Node>

  function Entries(n: Node): (entries: seq<Value>)
    ensures n.ObjectNode? ==>
      |entries| == |n.fields| && forall i | 0 <= i < |entries| :: entries[i] == n.fields[i].1
  {
    if n.ArrayNode? then n.entries
    else seq(|n.fields|, i requires 0 <= i < |n.fields| => n.fields[i].1)
  }

  predicate Known(g: Graph, v: Value) {
    v.Ref? ==> v.id in g
  }

  // Every reference leads somewhere.
  ghost predicate WellFormed(g: Graph) {
    forall id, i | id in g && 0 <= i < |Entries(g[id])| :: Known(g, Entries(g[id])[i])
  }

  // The object itself has a forbidden key; arrays have none.
  ghost predicate Forbids(forbidden: string -> bool, n: Node) {
    n.ObjectNode? && exists i | 0 <= i < |n.fields| :: forbidden(n.fields[i].0)
  }

  // ----- reachability

  predicate Linked(g: Graph, from: nat, to: nat) {
    from in g && Ref(to) in Entries(g[from])
  }

  ghost predicate IsPath(g: Graph, path: seq<nat>) {
    && path != []
    && (forall i | 0 <= i < |path| :: path[i] in g)
    && (forall i | 0 <= i < |path| - 1 :: Linked(g, path[i], path[i + 1]))
  }

  // The path leads from the value to an object with a forbidden key.
  ghost predicate Exposes(g: Graph, forbidden: string -> bool, v: Value, path: seq<nat>) {
    IsPath(g, path) && v == Ref(path[0]) && Forbids(forbidden, g[path[|path| - 1]])
  }

  ghost predicate Exposed(g: Graph, forbidden: string -> bool, v: Value) {
    exists path :: Exposes(g, forbidden, v, path)
  }

  // What is exposed by an entry is exposed by the object that has the entry.
  lemma ExposedThrough(g: Graph, forbidden: string -> bool, id: nat, entry: Value)
    requires id in g && entry in Entries(g[id]) && Exposed(g, forbidden, entry)
    ensures Exposed(g, forbidden, Ref(id))
  {
    var path :| Exposes(g, forbidden, entry, path);
    var longer := [id] + path;
    assert Linked(g, id, path[0]);
    forall i | 0 <= i < |longer| - 1 ensures Linked(g, longer[i], longer[i + 1]) {
      if i > 0 {
        assert Linked(g, path[i - 1], path[i - 1 + 1]);
      }
    }
    assert longer[|longer| - 1] == path[|path| - 1];
    assert Exposes(g, forbidden, Ref(id), longer);
  }

  lemma ExposedItself(g: Graph, forbidden: string -> bool, id: nat)
    requires id in g && Forbids(forbidden, g[id])
    ensures Exposed(g, forbidden, Ref(id))
  {
    assert Exposes(g, forbidden, Ref(id), [id]);
  }

  // ----- the search

  predicate Inside(seen: set<nat>, v: Value) {
    v.Ref? ==> v.id in seen
  }

  // The object is clean and everything it holds has been visited.
  ghost predicate Cleared(g: Graph, forbidden: string -> bool, seen: set<nat>, id: nat) {
    && id in g
    && !Forbids(forbidden, g[id])
    && forall i | 0 <= i < |Entries(g[id])| :: Inside(seen, Entries(g[id])[i])
  }

  ghost predicate AllCleared(g: Graph, forbidden: string -> bool, seen: set<nat>, ids: set<nat>) {
    forall id | id in ids :: Cleared(g, forbidden, seen, id)
  }

  class Seen {
    var members: set<nat>

    constructor ()
      ensures members == {}
    {
      members := {};
    }
  }

  lemma ClearedMore(g: Graph, forbidden: string -> bool, a: set<nat>, b: set<nat>, ids: set<nat>, more: set<nat>)
    requires a <= b && AllCleared(g, forbidden, a, ids) && AllCleared(g, forbidden, b, more)
    ensures AllCleared(g, forbidden, b, ids + more)
  {
    forall id | id in ids ensures Cleared(g, forbidden, b, id) {
      assert Cleared(g, forbidden, a, id);
    }
  }

  // True: something forbidden can be reached. False: whatever was newly visited
  // is clean and leads only to visited objects.
  method HasForbiddenPublicField(g: Graph, forbidden: string -> bool, value: Value, seen: Seen) returns (found: bool)
    requires WellFormed(g) && Known(g, value) && seen.members <= g.Keys
    modifies seen
    ensures old(seen.members) <= seen.members <= g.Keys
    ensures found ==> Exposed(g, forbidden, value)
    ensures !found ==>
      && Inside(seen.members, value)
      && AllCleared(g, forbidden, seen.members, seen.members - old(seen.members))
    decreases g.Keys - seen.members, 1
  {
    if value.Primitive? {
      return false;
    }
    if value.id in seen.members {
      return false;
    }
    var node := g[value.id];
    ghost var before := seen.members;
    seen.members := seen.members + {value.id};
    if node.ArrayNode? {
      found := SomeEntry(g, forbidden, value.id, seen);
    } else {
      found := SomeField(g, forbidden, value.id, seen);
    }
    if !found {
      ClearedMore(g, forbidden, seen.members, seen.members, seen.members - (before + {value.id}), {value.id});
      assert seen.members - before == seen.members - (before + {value.id}) + {value.id};
    }
  }

  // value.some((entry) => ...)
  method SomeEntry(g: Graph, forbidden: string -> bool, id: nat, seen: Seen) returns (found: bool)
    requires WellFormed(g) && seen.members <= g.Keys && id in seen.members && g[id].ArrayNode?
    modifies seen
    ensures old(seen.members) <= seen.members <= g.Keys
    ensures found ==> Exposed(g, forbidden, Ref(id))
    ensures !found ==>
      && Cleared(g, forbidden, seen.members, id)
      && AllCleared(g, forbidden, seen.members, seen.members - old(seen.members))
    decreases g.Keys - seen.members, 2
  {
    var entries := g[id].entries;
    assert entries == Entries(g[id]);
    for k := 0 to |entries|
      invariant old(seen.members) <= seen.members <= g.Keys
      invariant forall i | 0 <= i < k :: Inside(seen.members, entries[i])
      invariant AllCleared(g, forbidden, seen.members, seen.members - old(seen.members))
    {
      ghost var before := seen.members;
      assert Known(g, Entries(g[id])[k]);
      found := HasForbiddenPublicField(g, forbidden, entries[k], seen);
      if found {
        ExposedThrough(g, forbidden, id, entries[k]);
        return;
      }
      ClearedMore(g, forbidden, before, seen.members, before - old(seen.members), seen.members - before);
      assert seen.members - old(seen.members) == before - old(seen.members) + (seen.members - before);
    }
    return false;
  }

  // Object.entries(value).some(([key, entry]) => ...)
  method SomeField(g: Graph, forbidden: string -> bool, id: nat, seen: Seen) returns (found: bool)
    requires WellFormed(g) && seen.members <= g.Keys && id in seen.members && g[id].ObjectNode?
    modifies seen
    ensures old(seen.members) <= seen.members <= g.Keys
    ensures found ==> Exposed(g, forbidden, Ref(id))
    ensures !found ==>
      && Cleared(g, forbidden, seen.members, id)
      && AllCleared(g, forbidden, seen.members, seen.members - old(seen.members))
    decreases g.Keys - seen.members, 2
  {
    var fields := g[id].fields;
    var entries := Entries(g[id]);
    for k := 0 to |fields|
      invariant old(seen.members) <= seen.members <= g.Keys
      invariant forall i | 0 <= i < k :: !forbidden(fields[i].0) && Inside(seen.members, entries[i])
      invariant AllCleared(g, forbidden, seen.members, seen.members - old(seen.members))
    {
      if forbidden(fields[k].0) {
        ExposedItself(g, forbidden, id);
        return true;
      }
      ghost var before := seen.members;
      assert Known(g, entries[k]);
      found := HasForbiddenPublicField(g, forbidden, entries[k], seen);
      if found {
        ExposedThrough(g, forbidden, id, entries[k]);
        return;
      }
      ClearedMore(g, forbidden, before, seen.members, before - old(seen.members), seen.members - before);
      assert seen.members - old(seen.members) == before - old(seen.members) + (seen.members - before);
    }
    return false;
  }

  // ----- exactness

  // No path leaves a set of cleared objects, so none of them exposes anything.
  lemma {:induction false} ClearedIsClosed(g: Graph, forbidden: string -> bool, seen: set<nat>, path: seq<nat>)
    requires AllCleared(g, forbidden, seen, seen) && IsPath(g, path) && path[0] in seen
    ensures path[|path| - 1] in seen
  {
    if |path| > 1 {
      var init := path[..|path| - 1];
      forall i | 0 <= i < |init| - 1 ensures Linked(g, init[i], init[i + 1]) {
        assert Linked(g, path[i], path[i + 1]);
      }
      ClearedIsClosed(g, forbidden, seen, init);
      var last := init[|init| - 1];
      assert Linked(g, path[|path| - 2], path[|path| - 2 + 1]);
      assert Cleared(g, forbidden, seen, last);
      var i :| 0 <= i < |Entries(g[last])| && Entries(g[last])[i] == Ref(path[|path| - 1]);
      assert Inside(seen, Entries(g[last])[i]);
    }
  }

  lemma NothingExposed(g: Graph, forbidden: string -> bool, seen: set<nat>, value: Value)
    requires AllCleared(g, forbidden, seen, seen) && Inside(seen, value)
    ensures !Exposed(g, forbidden, value)
  {
    forall path ensures !Exposes(g, forbidden, value, path) {
      if IsPath(g, path) && value == Ref(path[0]) {
        ClearedIsClosed(g, forbidden, seen, path);
        assert Cleared(g, forbidden, seen, path[|path| - 1]);
      }
    }
  }

  // On any finite graph, cyclic or not, the check passes exactly when no object
  // that can be reached has a forbidden key.
  method AssertNoForbiddenFields(g: Graph, forbidden: string -> bool, value: Value) returns (passed: bool)
    requires WellFormed(g) && Known(g, value)
    ensures passed <==> !Exposed(g, forbidden, value)
  {
    var seen := new Seen();
    var found := HasForbiddenPublicField(g, forbidden, value, seen);
    if !found {
      assert seen.members - {} == seen.members;
      NothingExposed(g, forbidden, seen.members, value);
    }
    passed := !found;
  }
}
