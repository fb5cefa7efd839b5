/**
 * The definition check on a graph of schema objects, which may share subschemas or be cyclic: a
 * set of visited objects makes the walk finite, and a silent walk means that every reachable
 * object is clean.
 */
module DefinitionWalk {
  type ObjectId = nat

  datatype Issue = Issue(path: string, text: string)

  datatype Child = Child(step: string, target: ObjectId)

  /** A schema object: what is wrong with the object itself, and the subschemas in walking order. */
  datatype Node = Node(faults: seq<string>, children: seq<Child>)

  /** The objects of the program's memory; a target outside it is not an object and is passed over. */
  type Heap = map<ObjectId, Node>

  ghost predicate Edge(heap: Heap, a: ObjectId, b: ObjectId) {
    a in heap && b in heap && exists k :: 0 <= k < |heap[a].children| && heap[a].children[k].target == b
  }

  ghost predicate IsPath(heap: Heap, path: seq<ObjectId>) {
    path != [] && path[0] in heap && forall k :: 0 <= k < |path| - 1 ==> Edge(heap, path[k], path[k + 1])
  }

  /** `b` can be reached from `a` through subschemas. */
  ghost predicate Reachable(heap: Heap, a: ObjectId, b: ObjectId) {
    exists path :: IsPath(heap, path) && path[0] == a && path[|path| - 1] == b
  }

  class Walker {
    const heap: Heap
    var seen: set<ObjectId>
    var issues: seq<Issue>

    constructor (heap: Heap)
      ensures this.heap == heap && seen == {} && issues == []
    {
      this.heap := heap;
      seen, issues := {}, [];
    }

    ghost predicate Clean(ids: set<ObjectId>)
      reads this
    {
      forall id :: id in ids && id in heap ==> heap[id].faults == []
    }

    /** Everything visited since the earlier set `before` has all its subschemas visited too. */
    ghost predicate ClosedSince(before: set<ObjectId>)
      reads this
    {
      forall a, b :: a in seen && a !in before && Edge(heap, a, b) ==> b in seen
    }

    method Check(id: ObjectId, path: string)
      requires seen <= heap.Keys
      modifies this`seen, this`issues
      ensures old(seen) <= seen <= heap.Keys && (id in heap ==> id in seen)
      ensures ClosedSince(old(seen))
      ensures forall b :: b in seen && b !in old(seen) ==> Reachable(heap, id, b)
      ensures |old(issues)| <= |issues|
      ensures |issues| == |old(issues)| <==> Clean(seen - old(seen))
      decreases heap.Keys - seen, 1
    {
      if id !in heap || id in seen { return; }
      ghost var before := seen;
      seen := seen + {id};
      assert heap.Keys - seen < heap.Keys - before;
      var node := heap[id];
      for k := 0 to |node.faults|
        invariant seen == before + {id}
        invariant |issues| == |old(issues)| + k
      {
        issues := issues + [Issue(path, node.faults[k])];
      }
      assert seen - before == {id};
      assert IsPath(heap, [id]);
      assert Reachable(heap, id, id);
      for k := 0 to |node.children|
        invariant before + {id} <= seen <= heap.Keys
        invariant ClosedSince(before + {id})
        invariant forall j :: 0 <= j < k && node.children[j].target in heap ==> node.children[j].target in seen
        invariant forall b :: b in seen && b !in before ==> Reachable(heap, id, b)
        invariant |old(issues)| <= |issues|
        invariant |issues| == |old(issues)| <==> Clean(seen - before)
      {
        ghost var here := seen;
        var child := node.children[k];
        Check(child.target, path + "." + child.step);
        forall b | b in seen && b !in before ensures Reachable(heap, id, b) {
          if b !in here { ThroughChild(heap, id, k, b); }
        }
      }
    }
  }

  lemma ThroughChild(heap: Heap, a: ObjectId, k: nat, b: ObjectId)
    requires a in heap && k < |heap[a].children| && Reachable(heap, heap[a].children[k].target, b)
    ensures Reachable(heap, a, b)
  {
    var c := heap[a].children[k].target;
    var path :| IsPath(heap, path) && path[0] == c && path[|path| - 1] == b;
    var longer := [a] + path;
    assert Edge(heap, a, c);
    assert IsPath(heap, longer) by {
      forall j | 0 <= j < |longer| - 1 ensures Edge(heap, longer[j], longer[j + 1]) {
        if j > 0 { assert longer[j] == path[j - 1] && longer[j + 1] == path[j]; }
      }
    }
  }

  lemma {:induction false} ClosedContainsReachable(heap: Heap, closed: set<ObjectId>, path: seq<ObjectId>)
    requires IsPath(heap, path) && path[0] in closed
    requires forall a, b :: a in closed && Edge(heap, a, b) ==> b in closed
    ensures path[|path| - 1] in closed
  {
    if |path| > 1 {
      var rest := path[1..];
      assert Edge(heap, path[0], path[1]);
      forall k | 0 <= k < |rest| - 1 ensures Edge(heap, rest[k], rest[k + 1]) {
        assert rest[k] == path[k + 1] && rest[k + 1] == path[k + 2];
        assert Edge(heap, path[k + 1], path[k + 2]);
      }
      ClosedContainsReachable(heap, closed, rest);
    }
  }

  /** The check is silent exactly when every object reachable from the root is clean. */
  method ValidateSchemaDefinition(heap: Heap, root: ObjectId) returns (issues: seq<Issue>)
    ensures issues == [] <==> forall id :: Reachable(heap, root, id) && id in heap ==> heap[id].faults == []
  {
    var walker := new Walker(heap);
    walker.Check(root, "$");
    issues := walker.issues;
    forall id | Reachable(heap, root, id) && id in heap ensures id in walker.seen {
      var path :| IsPath(heap, path) && path[0] == root && path[|path| - 1] == id;
      ClosedContainsReachable(heap, walker.seen, path);
    }
  }
}
