/**
 * Execution-order numbering of a flow graph (the editor's `computeExecutionOrder`).
 *
 * Connections into an `EN` port are exec links; they are looked up by the string
 * "<source node>:<source port>".  From every node of kind `entry`, in node-list
 * order, a breadth-first walk follows the `ENO`, `TRUE` and `DO` links and gives the
 * nodes it meets the numbers 1, 2, 3, ... of that chain.  One order map is shared by
 * all chains, so a node keeps the number of the first chain that reaches it.
 */
module ExecutionOrder {
  import opened Wrappers
  import opened FlowGraph

  /** The lookup key "<nodeId>:<portName>". */
  function ExecKey(nodeId: string, portName: string): string
  {
    nodeId + ":" + portName
  }

  function SourceKey(c: FlowConnection): string
  {
    ExecKey(c.from.nodeId, c.from.portName)
  }

  /** Only a connection entering an `EN` port is an exec link. */
  predicate IsExecConnection(c: FlowConnection)
  {
    c.to.portName == "EN"
  }

  /**
   * The exec-target lookup built from the connections in list order: a later link
   * with the same key overwrites. Every entry comes from some connection into `EN`
   * leaving that key and entering that target.
   */
  function ExecLinks(cs: seq<FlowConnection>): (r: map<string, string>)
    ensures forall k :: k in r ==>
      exists i :: 0 <= i < |cs| && IsExecConnection(cs[i]) && SourceKey(cs[i]) == k && cs[i].to.nodeId == r[k]
    decreases |cs|
  {
    if |cs| == 0 then map[]
    else
      var c := cs[|cs| - 1];
      var links := ExecLinks(cs[..|cs| - 1]);
      assert forall i :: 0 <= i < |cs| - 1 ==> cs[..|cs| - 1][i] == cs[i];
      if IsExecConnection(c) then links[SourceKey(c) := c.to.nodeId] else links
  }

  /** The ports followed from a numbered node, in the order they are followed. */
  const ExecPorts: seq<string> := ["ENO", "TRUE", "DO"]

  /**
   * The node reached from `id` through exec port number `x`, if there is one; an
   * empty target id counts as none, as the source tests the looked-up value for truth.
   */
  function Target(links: map<string, string>, id: string, x: nat): Option<string>
    requires x < 3
  {
    var key := ExecKey(id, ExecPorts[x]);
    if key in links && links[key] != "" then Some(links[key]) else None
  }

  /** Ranks (discoverer, port) pairs lexicographically. */
  function Rank(j: int, x: int): int
  {
    3 * j + x
  }

  /** `b` is one exec link away from `a`. */
  ghost predicate Linked(links: map<string, string>, a: string, b: string)
  {
    Target(links, a, 0) == Some(b) || Target(links, a, 1) == Some(b) || Target(links, a, 2) == Some(b)
  }

  ghost predicate IsExecPath(links: map<string, string>, p: seq<string>)
  {
    forall k :: 0 <= k < |p| - 1 ==> Linked(links, p[k], p[k + 1])
  }

  /** `id` can be reached from one of `roots` by following exec links. */
  ghost predicate Reachable(links: map<string, string>, roots: seq<string>, id: string)
  {
    exists p :: IsExecPath(links, p) && |p| > 0 && p[0] in roots && p[|p| - 1] == id
  }

  /** Every later node of `walk` is one exec link away from an earlier one: `walk[parent[i]]` through port `port[i]`. */
  ghost predicate Discovered(links: map<string, string>, walk: seq<string>, parent: seq<nat>, port: seq<nat>)
  {
    |parent| == |walk| && |port| == |walk| &&
    forall i :: 0 < i < |walk| ==>
      parent[i] < i && port[i] < 3 && Target(links, walk[parent[i]], port[i]) == Some(walk[i])
  }

  /** First in, first out: the later nodes come in the order of their (discoverer, port). */
  ghost predicate InRankOrder(walk: seq<string>, parent: seq<nat>, port: seq<nat>)
  {
    |parent| == |walk| && |port| == |walk| &&
    forall i, j :: 0 < i < j < |walk| ==> Rank(parent[i], port[i]) < Rank(parent[j], port[j])
  }

  /** Each later node is credited to the first (discoverer, port) that leads to it. */
  ghost predicate FirstDiscovery(links: map<string, string>, walk: seq<string>, parent: seq<nat>, port: seq<nat>)
  {
    |parent| == |walk| && |port| == |walk| &&
    forall i, j, x ::
      (0 < i < |walk| && 0 <= j < |walk| && 0 <= x < 3 && Rank(j, x) < Rank(parent[i], port[i])) ==>
      Target(links, walk[j], x) != Some(walk[i])
  }

  /**
   * `walk` is the breadth-first visit of one chain from `entry`, where `before` holds
   * the nodes earlier chains numbered.  Node `walk[i]` (i > 0) was discovered by
   * `walk[parent[i]]` through exec port `port[i]`.
   */
  ghost predicate IsBfsWalk(links: map<string, string>, before: set<string>, entry: string,
                            walk: seq<string>, parent: seq<nat>, port: seq<nat>)
  {
    // the chain starts at its entry, unless an earlier chain already numbered the entry
    (if entry in before then walk == [] else |walk| > 0 && walk[0] == entry) &&
    // it numbers only nodes no earlier chain numbered, each once
    (forall i :: 0 <= i < |walk| ==> walk[i] !in before) &&
    (forall i, j :: 0 <= i < j < |walk| ==> walk[i] != walk[j]) &&
    Discovered(links, walk, parent, port) &&
    InRankOrder(walk, parent, port) &&
    FirstDiscovery(links, walk, parent, port) &&
    // no exec link leaves the numbered nodes
    (forall j, x :: 0 <= j < |walk| && 0 <= x < 3 && Target(links, walk[j], x).Some? ==>
       Target(links, walk[j], x).value in before || Target(links, walk[j], x).value in walk)
  }

  /** `result` keeps every earlier number and gives `walk[i]` the number i + 1. */
  ghost predicate NumberedBy(numbered: map<string, nat>, result: map<string, nat>, walk: seq<string>)
  {
    (forall id :: id in numbered ==> id in result && result[id] == numbered[id]) &&
    (forall id :: id in result ==> id in numbered || id in walk) &&
    (forall i :: 0 <= i < |walk| ==> walk[i] !in numbered && walk[i] in result && result[walk[i]] == i + 1)
  }

  /** The part of `IsBfsWalk` that holds of every prefix of the walk. */
  ghost predicate WalkShape(links: map<string, string>, entry: string,
                            walk: seq<string>, parent: seq<nat>, port: seq<nat>)
  {
    (|walk| > 0 ==> walk[0] == entry) &&
    Discovered(links, walk, parent, port) &&
    InRankOrder(walk, parent, port) &&
    FirstDiscovery(links, walk, parent, port)
  }

  /**
   * The queue: entry k was pushed by `walk[qparent[k]]` through port `qport[k]`
   * (`qparent[k] == -1` for the entry the walk starts from), in increasing rank,
   * all ranks below `frontier` (the ports followed so far) and above the numbered nodes'.
   */
  ghost predicate QueueShape(links: map<string, string>, numbered: map<string, nat>, entry: string,
                             walk: seq<string>, parent: seq<nat>, port: seq<nat>,
                             queue: seq<string>, qparent: seq<int>, qport: seq<nat>, frontier: int)
  {
    |parent| == |walk| && |port| == |walk| &&
    |qparent| == |queue| && |qport| == |queue| &&
    (forall k :: 0 <= k < |queue| ==>
       -1 <= qparent[k] < |walk| && qport[k] < 3 && Rank(qparent[k], qport[k]) < frontier &&
       (qparent[k] == -1 ==> queue[k] == entry) &&
       (qparent[k] >= 0 ==> Target(links, walk[qparent[k]], qport[k]) == Some(queue[k]))) &&
    (forall k, l :: 0 <= k < l < |queue| ==> Rank(qparent[k], qport[k]) < Rank(qparent[l], qport[l])) &&
    (forall i, k :: 0 < i < |walk| && 0 <= k < |queue| ==> Rank(parent[i], port[i]) < Rank(qparent[k], qport[k])) &&
    (|walk| == 0 ==> (queue == [entry] && qparent == [-1]) || (queue == [] && entry in numbered))
  }

  /**
   * Every exec link followed so far leads to a numbered or a queued node, and a queued
   * node sits at its first discovery unless the numbering or an earlier queue entry has it.
   */
  ghost predicate Followed(links: map<string, string>, result: map<string, nat>, walk: seq<string>,
                           queue: seq<string>, qparent: seq<int>, qport: seq<nat>, frontier: int)
  {
    |qparent| == |queue| && |qport| == |queue| &&
    (forall j, x :: 0 <= j < |walk| && 0 <= x < 3 && Rank(j, x) < frontier && Target(links, walk[j], x).Some? ==>
       Target(links, walk[j], x).value in result || Target(links, walk[j], x).value in queue) &&
    (forall k, j, x ::
       (0 <= k < |queue| && 0 <= j < |walk| && 0 <= x < 3 &&
        Rank(j, x) < Rank(qparent[k], qport[k]) && Target(links, walk[j], x) == Some(queue[k])) ==>
       queue[k] in result || queue[k] in queue[..k])
  }

  /** The invariant of the walk loop. */
  ghost predicate WalkInv(links: map<string, string>, numbered: map<string, nat>, entry: string,
                          result: map<string, nat>, queue: seq<string>, qparent: seq<int>, qport: seq<nat>,
                          walk: seq<string>, parent: seq<nat>, port: seq<nat>, frontier: int)
  {
    NumberedBy(numbered, result, walk) &&
    WalkShape(links, entry, walk, parent, port) &&
    QueueShape(links, numbered, entry, walk, parent, port, queue, qparent, qport, frontier) &&
    Followed(links, result, walk, queue, qparent, qport, frontier)
  }

  /** Dropping a queued node that is already numbered keeps the invariant. */
  lemma SkipStep(links: map<string, string>, numbered: map<string, nat>, entry: string,
                 result: map<string, nat>, queue: seq<string>, qparent: seq<int>, qport: seq<nat>,
                 walk: seq<string>, parent: seq<nat>, port: seq<nat>)
    requires WalkInv(links, numbered, entry, result, queue, qparent, qport, walk, parent, port, 3 * |walk|)
    requires |queue| > 0 && queue[0] in result
    ensures WalkInv(links, numbered, entry, result, queue[1..], qparent[1..], qport[1..], walk, parent, port, 3 * |walk|)
  {
    SkipQueue(links, numbered, entry, result, queue, qparent, qport, walk, parent, port);
    SkipFollowed(links, result, queue, qparent, qport, walk);
  }

  lemma SkipQueue(links: map<string, string>, numbered: map<string, nat>, entry: string,
                  result: map<string, nat>, queue: seq<string>, qparent: seq<int>, qport: seq<nat>,
                  walk: seq<string>, parent: seq<nat>, port: seq<nat>)
    requires QueueShape(links, numbered, entry, walk, parent, port, queue, qparent, qport, 3 * |walk|)
    requires |queue| > 0 && queue[0] in result && (entry in result ==> entry in numbered || |walk| > 0)
    ensures QueueShape(links, numbered, entry, walk, parent, port, queue[1..], qparent[1..], qport[1..], 3 * |walk|)
  {
  }

  lemma SkipFollowed(links: map<string, string>, result: map<string, nat>,
                     queue: seq<string>, qparent: seq<int>, qport: seq<nat>, walk: seq<string>)
    requires Followed(links, result, walk, queue, qparent, qport, 3 * |walk|)
    requires |queue| > 0 && queue[0] in result
    ensures Followed(links, result, walk, queue[1..], qparent[1..], qport[1..], 3 * |walk|)
  {
    var q := queue[1..];
    forall k, j, x | 0 <= k < |q| && 0 <= j < |walk| && 0 <= x < 3 &&
        Rank(j, x) < Rank(qparent[1..][k], qport[1..][k]) && Target(links, walk[j], x) == Some(q[k])
      ensures q[k] in result || q[k] in q[..k]
    {
      assert q[k] == queue[k + 1];
      assert queue[..k + 1] == [queue[0]] + q[..k];
    }
  }

  /** Numbering the node at the head of the queue keeps the invariant. */
  lemma VisitStep(links: map<string, string>, numbered: map<string, nat>, entry: string,
                  result: map<string, nat>, queue: seq<string>, qparent: seq<int>, qport: seq<nat>,
                  walk: seq<string>, parent: seq<nat>, port: seq<nat>)
    requires WalkInv(links, numbered, entry, result, queue, qparent, qport, walk, parent, port, 3 * |walk|)
    requires |queue| > 0 && queue[0] !in result
    ensures WalkInv(links, numbered, entry, result[queue[0] := |walk| + 1], queue[1..], qparent[1..], qport[1..],
                    walk + [queue[0]], parent + [if qparent[0] < 0 then 0 else qparent[0]], port + [qport[0]],
                    3 * |walk|)
  {
    var n := |walk|;
    if n == 0 {
      assert queue == [entry];
    } else {
      assert walk[0] == entry && walk[0] in result;
      assert qparent[0] >= 0;
    }
    assert forall i :: 0 < i < |walk| ==> Rank(parent[i], port[i]) < Rank(qparent[0], qport[0]);
    forall j, x | 0 <= j < |walk| && 0 <= x < 3 && Rank(j, x) < Rank(qparent[0], qport[0])
      ensures Target(links, walk[j], x) != Some(queue[0])
    {
      assert queue[..0] == [];
    }
    VisitNumbered(numbered, result, walk, queue[0]);
    VisitWalk(links, entry, result, queue, qparent, qport, walk, parent, port);
    VisitQueue(links, numbered, entry, queue, qparent, qport, walk, parent, port);
    VisitFollowed(links, result, queue, qparent, qport, walk);
  }

  lemma VisitNumbered(numbered: map<string, nat>, result: map<string, nat>, walk: seq<string>, c: string)
    requires NumberedBy(numbered, result, walk)
    requires c !in result
    ensures NumberedBy(numbered, result[c := |walk| + 1], walk + [c])
  {
  }

  lemma VisitWalk(links: map<string, string>, entry: string, result: map<string, nat>,
                  queue: seq<string>, qparent: seq<int>, qport: seq<nat>,
                  walk: seq<string>, parent: seq<nat>, port: seq<nat>)
    requires WalkShape(links, entry, walk, parent, port)
    requires |qparent| == |queue| && |qport| == |queue| && |queue| > 0 && queue[0] !in result
    requires |walk| == 0 ==> queue[0] == entry
    requires |walk| > 0 ==> 0 <= qparent[0] < |walk| && qport[0] < 3 && Target(links, walk[qparent[0]], qport[0]) == Some(queue[0])
    requires forall i :: 0 < i < |walk| ==> Rank(parent[i], port[i]) < Rank(qparent[0], qport[0])
    requires forall j, x :: (0 <= j < |walk| && 0 <= x < 3 && Rank(j, x) < Rank(qparent[0], qport[0])) ==>
               Target(links, walk[j], x) != Some(queue[0])
    ensures WalkShape(links, entry, walk + [queue[0]], parent + [if qparent[0] < 0 then 0 else qparent[0]],
                      port + [qport[0]])
  {
    var p := if qparent[0] < 0 then 0 else qparent[0];
    VisitDiscovered(links, walk, parent, port, queue[0], p, qport[0]);
    VisitInRankOrder(walk, parent, port, queue[0], p, qport[0]);
    VisitFirstDiscovery(links, walk, parent, port, queue[0], p, qport[0]);
  }

  lemma VisitDiscovered(links: map<string, string>, walk: seq<string>, parent: seq<nat>, port: seq<nat>,
                        c: string, p: nat, x: nat)
    requires Discovered(links, walk, parent, port)
    requires |walk| > 0 ==> p < |walk| && x < 3 && Target(links, walk[p], x) == Some(c)
    ensures Discovered(links, walk + [c], parent + [p], port + [x])
  {
    var n := |walk|;
    var walk', parent', port' := walk + [c], parent + [p], port + [x];
    forall i | 0 < i < |walk'|
      ensures parent'[i] < i && port'[i] < 3 && Target(links, walk'[parent'[i]], port'[i]) == Some(walk'[i])
    {
      if i < n {
        assert parent'[i] == parent[i] && port'[i] == port[i] && walk'[i] == walk[i];
        assert walk'[parent[i]] == walk[parent[i]];
      } else {
        assert walk'[parent'[i]] == walk[p];
      }
    }
  }

  lemma VisitInRankOrder(walk: seq<string>, parent: seq<nat>, port: seq<nat>, c: string, p: nat, x: nat)
    requires InRankOrder(walk, parent, port)
    requires forall i :: 0 < i < |walk| ==> Rank(parent[i], port[i]) < Rank(p, x)
    ensures InRankOrder(walk + [c], parent + [p], port + [x])
  {
    var n := |walk|;
    var parent', port' := parent + [p], port + [x];
    forall i, j | 0 < i < j < n + 1 ensures Rank(parent'[i], port'[i]) < Rank(parent'[j], port'[j]) {
      assert parent'[i] == parent[i] && port'[i] == port[i];
      if j < n {
        assert parent'[j] == parent[j] && port'[j] == port[j];
      }
    }
  }

  lemma VisitFirstDiscovery(links: map<string, string>, walk: seq<string>, parent: seq<nat>, port: seq<nat>,
                            c: string, p: nat, x: nat)
    requires Discovered(links, walk, parent, port) && FirstDiscovery(links, walk, parent, port)
    requires |walk| > 0 ==> p < |walk| && x < 3
    requires forall j, y :: (0 <= j < |walk| && 0 <= y < 3 && Rank(j, y) < Rank(p, x)) ==> Target(links, walk[j], y) != Some(c)
    ensures FirstDiscovery(links, walk + [c], parent + [p], port + [x])
  {
    var n := |walk|;
    var walk', parent', port' := walk + [c], parent + [p], port + [x];
    forall i, j, y | (0 < i < |walk'| && 0 <= j < |walk'| && 0 <= y < 3 && Rank(j, y) < Rank(parent'[i], port'[i]))
      ensures Target(links, walk'[j], y) != Some(walk'[i])
    {
      if i < n {
        assert parent'[i] == parent[i] && parent[i] < i && port'[i] == port[i] && port[i] < 3;
        assert j < n && walk'[j] == walk[j] && walk'[i] == walk[i];
      } else {
        assert j < n && walk'[j] == walk[j];
      }
    }
  }

  lemma VisitQueue(links: map<string, string>, numbered: map<string, nat>, entry: string,
                   queue: seq<string>, qparent: seq<int>, qport: seq<nat>,
                   walk: seq<string>, parent: seq<nat>, port: seq<nat>)
    requires QueueShape(links, numbered, entry, walk, parent, port, queue, qparent, qport, 3 * |walk|)
    requires |queue| > 0 && (|walk| == 0 || qparent[0] >= 0)
    ensures QueueShape(links, numbered, entry, walk + [queue[0]], parent + [if qparent[0] < 0 then 0 else qparent[0]],
                       port + [qport[0]], queue[1..], qparent[1..], qport[1..], 3 * |walk|)
  {
  }

  lemma VisitFollowed(links: map<string, string>, result: map<string, nat>,
                      queue: seq<string>, qparent: seq<int>, qport: seq<nat>, walk: seq<string>)
    requires Followed(links, result, walk, queue, qparent, qport, 3 * |walk|)
    requires |queue| > 0 && forall k :: 0 <= k < |queue| ==> qparent[k] < |walk| && qport[k] < 3
    ensures Followed(links, result[queue[0] := |walk| + 1], walk + [queue[0]], queue[1..], qparent[1..], qport[1..], 3 * |walk|)
  {
    var n := |walk|;
    var result' := result[queue[0] := n + 1];
    var walk' := walk + [queue[0]];
    var q := queue[1..];
    forall j, x | 0 <= j < |walk'| && 0 <= x < 3 && Rank(j, x) < 3 * n && Target(links, walk'[j], x).Some?
      ensures Target(links, walk'[j], x).value in result' || Target(links, walk'[j], x).value in q
    {
      assert j < n && walk'[j] == walk[j];
    }
    forall k, j, x | 0 <= k < |q| && 0 <= j < |walk'| && 0 <= x < 3 &&
        Rank(j, x) < Rank(qparent[1..][k], qport[1..][k]) && Target(links, walk'[j], x) == Some(q[k])
      ensures q[k] in result' || q[k] in q[..k]
    {
      assert q[k] == queue[k + 1];
      assert j < n && walk'[j] == walk[j];
      assert queue[..k + 1] == [queue[0]] + q[..k];
    }
  }

  /** Following exec port `x` of the node numbered last keeps the invariant, one port further on. */
  lemma FollowStep(links: map<string, string>, numbered: map<string, nat>, entry: string,
                   result: map<string, nat>, queue: seq<string>, qparent: seq<int>, qport: seq<nat>,
                   walk: seq<string>, parent: seq<nat>, port: seq<nat>, x: nat)
    requires |walk| > 0 && x < 3
    requires WalkInv(links, numbered, entry, result, queue, qparent, qport, walk, parent, port, Rank(|walk| - 1, x))
    ensures var t := Target(links, walk[|walk| - 1], x);
      if t.Some? && t.value !in result then
        WalkInv(links, numbered, entry, result, queue + [t.value], qparent + [|walk| - 1], qport + [x],
                walk, parent, port, Rank(|walk| - 1, x) + 1)
      else
        WalkInv(links, numbered, entry, result, queue, qparent, qport, walk, parent, port, Rank(|walk| - 1, x) + 1)
  {
    var c := |walk| - 1;
    var t := Target(links, walk[c], x);
    if t.Some? && t.value !in result {
      FollowQueue(links, numbered, entry, queue, qparent, qport, walk, parent, port, x);
      FollowFollowed(links, result, queue, qparent, qport, walk, x);
    } else {
      FollowNone(links, result, queue, qparent, qport, walk, x);
    }
  }

  lemma FollowQueue(links: map<string, string>, numbered: map<string, nat>, entry: string,
                    queue: seq<string>, qparent: seq<int>, qport: seq<nat>,
                    walk: seq<string>, parent: seq<nat>, port: seq<nat>, x: nat)
    requires |walk| > 0 && x < 3 && walk[0] == entry
    requires QueueShape(links, numbered, entry, walk, parent, port, queue, qparent, qport, Rank(|walk| - 1, x))
    requires forall i :: 0 < i < |walk| ==> parent[i] < i && port[i] < 3
    requires Target(links, walk[|walk| - 1], x).Some?
    ensures QueueShape(links, numbered, entry, walk, parent, port, queue + [Target(links, walk[|walk| - 1], x).value],
                       qparent + [|walk| - 1], qport + [x], Rank(|walk| - 1, x) + 1)
  {
  }

  lemma FollowFollowed(links: map<string, string>, result: map<string, nat>,
                       queue: seq<string>, qparent: seq<int>, qport: seq<nat>, walk: seq<string>, x: nat)
    requires |walk| > 0 && x < 3
    requires Followed(links, result, walk, queue, qparent, qport, Rank(|walk| - 1, x))
    requires Target(links, walk[|walk| - 1], x).Some?
    ensures Followed(links, result, walk, queue + [Target(links, walk[|walk| - 1], x).value],
                     qparent + [|walk| - 1], qport + [x], Rank(|walk| - 1, x) + 1)
  {
    var t := Target(links, walk[|walk| - 1], x).value;
    var q := queue + [t];
    assert q[..|queue|] == queue;
    forall k, j, y | 0 <= k < |q| && 0 <= j < |walk| && 0 <= y < 3 &&
        Rank(j, y) < Rank((qparent + [|walk| - 1])[k], (qport + [x])[k]) && Target(links, walk[j], y) == Some(q[k])
      ensures q[k] in result || q[k] in q[..k]
    {
      if k < |queue| {
        assert q[..k] == queue[..k];
      }
    }
  }

  lemma FollowNone(links: map<string, string>, result: map<string, nat>,
                   queue: seq<string>, qparent: seq<int>, qport: seq<nat>, walk: seq<string>, x: nat)
    requires |walk| > 0 && x < 3
    requires Followed(links, result, walk, queue, qparent, qport, Rank(|walk| - 1, x))
    requires Target(links, walk[|walk| - 1], x).None? || Target(links, walk[|walk| - 1], x).value in result
    ensures Followed(links, result, walk, queue, qparent, qport, Rank(|walk| - 1, x) + 1)
  {
  }

  /** When the queue runs empty with every port followed, the walk is a breadth-first walk. */
  lemma WalkDone(links: map<string, string>, numbered: map<string, nat>, entry: string,
                 result: map<string, nat>, walk: seq<string>, parent: seq<nat>, port: seq<nat>)
    requires WalkInv(links, numbered, entry, result, [], [], [], walk, parent, port, 3 * |walk|)
    ensures IsBfsWalk(links, numbered.Keys, entry, walk, parent, port)
  {
    forall i, j | 0 <= i < j < |walk| ensures walk[i] != walk[j] {
      assert result[walk[i]] == i + 1 && result[walk[j]] == j + 1;
    }
  }

  lemma WalkStart(links: map<string, string>, numbered: map<string, nat>, entry: string)
    ensures WalkInv(links, numbered, entry, numbered, [entry], [-1], [0], [], [], [], 0)
  {
  }

  /** The target of an exec port is a value of the lookup. */
  lemma TargetIsLinked(links: map<string, string>, id: string, x: nat)
    requires x < 3
    ensures Target(links, id, x).Some? ==> Target(links, id, x).value in links.Values
  {
    var key := ExecKey(id, ExecPorts[x]);
    if key in links && links[key] != "" {
      assert links[key] in links.Values;
    }
  }

  /** Numbering a node of `universe` not numbered yet leaves fewer of it to number. */
  lemma Shrinks(universe: set<string>, m: map<string, nat>, c: string, v: nat)
    requires c in universe && c !in m
    ensures |universe - m[c := v].Keys| < |universe - m.Keys|
  {
    var s := universe - m.Keys;
    assert universe - m[c := v].Keys == s - {c};
    assert s == (s - {c}) + {c};
  }

  /** A queued node is the entry or the target of an exec link. */
  lemma HeadIsLinked(links: map<string, string>, numbered: map<string, nat>, entry: string,
                     walk: seq<string>, parent: seq<nat>, port: seq<nat>,
                     queue: seq<string>, qparent: seq<int>, qport: seq<nat>, frontier: int)
    requires QueueShape(links, numbered, entry, walk, parent, port, queue, qparent, qport, frontier)
    requires |queue| > 0
    ensures queue[0] in {entry} + links.Values
  {
    if qparent[0] >= 0 {
      var key := ExecKey(walk[qparent[0]], ExecPorts[qport[0]]);
      assert key in links && links[key] == queue[0];
    }
  }

  /**
   * Following exec port `x` of `current`, the node numbered last: its target is
   * queued unless there is none or it already has a number.
   */
  method FollowPort(links: map<string, string>, ghost numbered: map<string, nat>, ghost entry: string,
                    orderMap: map<string, nat>, queue: seq<string>, ghost qparent: seq<int>, ghost qport: seq<nat>,
                    ghost walk: seq<string>, ghost parent: seq<nat>, ghost port: seq<nat>,
                    current: string, x: nat)
    returns (queue': seq<string>, ghost qparent': seq<int>, ghost qport': seq<nat>)
    requires |walk| > 0 && x < 3 && walk[|walk| - 1] == current
    requires WalkInv(links, numbered, entry, orderMap, queue, qparent, qport, walk, parent, port, Rank(|walk| - 1, x))
    ensures WalkInv(links, numbered, entry, orderMap, queue', qparent', qport', walk, parent, port, Rank(|walk| - 1, x + 1))
  {
    assert Rank(|walk| - 1, x) + 1 == Rank(|walk| - 1, x + 1);
    FollowStep(links, numbered, entry, orderMap, queue, qparent, qport, walk, parent, port, x);
    var target := Target(links, current, x);
    if target.Some? && target.value !in orderMap {
      queue', qparent', qport' := queue + [target.value], qparent + [|walk| - 1], qport + [x];
    } else {
      queue', qparent', qport' := queue, qparent, qport;
    }
  }

  /**
   * Numbering the node at the head of the queue and queueing the targets of its
   * ENO, TRUE and DO ports, in that order.
   */
  method VisitHead(links: map<string, string>, ghost numbered: map<string, nat>, ghost entry: string,
                   orderMap: map<string, nat>, queue: seq<string>, ghost qparent: seq<int>, ghost qport: seq<nat>,
                   ghost walk: seq<string>, ghost parent: seq<nat>, ghost port: seq<nat>,
                   order: nat)
    returns (orderMap': map<string, nat>, queue': seq<string>, ghost qparent': seq<int>, ghost qport': seq<nat>,
             ghost walk': seq<string>, ghost parent': seq<nat>, ghost port': seq<nat>)
    requires WalkInv(links, numbered, entry, orderMap, queue, qparent, qport, walk, parent, port, 3 * |walk|)
    requires |queue| > 0 && queue[0] !in orderMap && order == |walk| + 1
    ensures orderMap' == orderMap[queue[0] := |walk| + 1] && walk' == walk + [queue[0]]
    ensures WalkInv(links, numbered, entry, orderMap', queue', qparent', qport', walk', parent', port', 3 * |walk'|)
  {
    var currentId := queue[0];
    VisitStep(links, numbered, entry, orderMap, queue, qparent, qport, walk, parent, port);
    walk', parent', port' := walk + [currentId], parent + [if qparent[0] < 0 then 0 else qparent[0]], port + [qport[0]];
    queue', qparent', qport' := queue[1..], qparent[1..], qport[1..];
    orderMap' := orderMap[currentId := order];

    queue', qparent', qport' := FollowExecPorts(links, numbered, entry, orderMap', queue', qparent', qport',
                                                walk', parent', port', currentId);
  }

  /** Following the ENO, TRUE and DO ports of `current`, the node numbered last. */
  method FollowExecPorts(links: map<string, string>, ghost numbered: map<string, nat>, ghost entry: string,
                         orderMap: map<string, nat>, queue: seq<string>, ghost qparent: seq<int>, ghost qport: seq<nat>,
                         ghost walk: seq<string>, ghost parent: seq<nat>, ghost port: seq<nat>,
                         current: string)
    returns (queue': seq<string>, ghost qparent': seq<int>, ghost qport': seq<nat>)
    requires |walk| > 0 && walk[|walk| - 1] == current
    requires WalkInv(links, numbered, entry, orderMap, queue, qparent, qport, walk, parent, port, 3 * (|walk| - 1))
    ensures WalkInv(links, numbered, entry, orderMap, queue', qparent', qport', walk, parent, port, 3 * |walk|)
  {
    // follow ENO, the main continuation
    assert Rank(|walk| - 1, 0) == 3 * (|walk| - 1);
    queue', qparent', qport' := FollowPort(links, numbered, entry, orderMap, queue, qparent, qport,
                                           walk, parent, port, current, 0);
    // follow the branch ports TRUE and DO
    for x := 1 to |ExecPorts|
      invariant WalkInv(links, numbered, entry, orderMap, queue', qparent', qport', walk, parent, port, Rank(|walk| - 1, x))
    {
      queue', qparent', qport' := FollowPort(links, numbered, entry, orderMap, queue', qparent', qport',
                                             walk, parent, port, current, x);
    }
    assert Rank(|walk| - 1, |ExecPorts|) == 3 * |walk|;
  }

  /** The walk of one chain from `entry`: the body of the source's `for (const entry of entryNodes)`. */
  method WalkChain(links: map<string, string>, entry: string, numbered: map<string, nat>)
    returns (orderMap: map<string, nat>, ghost walk: seq<string>, ghost parent: seq<nat>, ghost port: seq<nat>)
    ensures IsBfsWalk(links, numbered.Keys, entry, walk, parent, port)
    ensures NumberedBy(numbered, orderMap, walk)
  {
    orderMap := numbered;
    var order := 1;
    var queue := [entry];
    ghost var qparent: seq<int> := [-1];
    ghost var qport: seq<nat> := [0];
    ghost var universe := {entry} + links.Values;  // every node a queue entry can name
    walk, parent, port := [], [], [];
    WalkStart(links, numbered, entry);
    while |queue| > 0
      invariant order == |walk| + 1
      invariant WalkInv(links, numbered, entry, orderMap, queue, qparent, qport, walk, parent, port, 3 * |walk|)
      decreases |universe - orderMap.Keys|, |queue|
    {
      if queue[0] in orderMap {
        SkipStep(links, numbered, entry, orderMap, queue, qparent, qport, walk, parent, port);
        queue, qparent, qport := queue[1..], qparent[1..], qport[1..];
      } else {
        HeadIsLinked(links, numbered, entry, walk, parent, port, queue, qparent, qport, 3 * |walk|);
        Shrinks(universe, orderMap, queue[0], order);
        orderMap, queue, qparent, qport, walk, parent, port :=
          VisitHead(links, numbered, entry, orderMap, queue, qparent, qport, walk, parent, port, order);
        order := order + 1;
      }
    }
    WalkDone(links, numbered, entry, orderMap, walk, parent, port);
  }

  /** The source's exec-target lookup, built by one pass over the connections. */
  method BuildExecLinks(connections: seq<FlowConnection>) returns (links: map<string, string>)
    ensures links == ExecLinks(connections)
  {
    links := map[];
    for i := 0 to |connections|
      invariant links == ExecLinks(connections[..i])
    {
      var conn := connections[i];
      assert connections[..i + 1][..i] == connections[..i];
      if IsExecConnection(conn) {
        links := links[SourceKey(conn) := conn.to.nodeId];
      }
    }
    assert connections[..|connections|] == connections;
  }

  /** A key names an exec link exactly when some exec connection leaves it. */
  lemma {:induction false} ExecLinksKeys(cs: seq<FlowConnection>, key: string)
    ensures key in ExecLinks(cs) <==> exists i :: 0 <= i < |cs| && IsExecConnection(cs[i]) && SourceKey(cs[i]) == key
    decreases |cs|
  {
    if |cs| > 0 {
      var init := cs[..|cs| - 1];
      ExecLinksKeys(init, key);
      if exists i :: 0 <= i < |cs| && IsExecConnection(cs[i]) && SourceKey(cs[i]) == key {
        var i :| 0 <= i < |cs| && IsExecConnection(cs[i]) && SourceKey(cs[i]) == key;
        if i < |init| {
          assert init[i] == cs[i];
        }
      }
    }
  }

  /** The last exec connection leaving a key decides its target. */
  lemma {:induction false} ExecLinksLastWins(cs: seq<FlowConnection>, key: string, i: nat)
    requires i < |cs| && IsExecConnection(cs[i]) && SourceKey(cs[i]) == key
    requires forall j :: i < j < |cs| ==> !(IsExecConnection(cs[j]) && SourceKey(cs[j]) == key)
    ensures key in ExecLinks(cs) && ExecLinks(cs)[key] == cs[i].to.nodeId
    decreases |cs|
  {
    var init := cs[..|cs| - 1];
    if i < |init| {
      assert init[i] == cs[i];
      assert forall j :: i < j < |init| ==> init[j] == cs[j];
      ExecLinksLastWins(init, key, i);
    }
  }

  /** The ids of the nodes of kind `entry`, in node-list order. */
  function EntryIds(nodes: seq<FlowNode>): (ids: seq<string>)
    ensures |ids| <= |nodes|
    ensures forall id :: id in ids <==> exists n :: n in nodes && n.kind == "entry" && n.id == id
  {
    if |nodes| == 0 then []
    else
      assert forall n :: n in nodes <==> n == nodes[0] || n in nodes[1..];
      (if nodes[0].kind == "entry" then [nodes[0].id] else []) + EntryIds(nodes[1..])
  }

  /** Collecting the entry ids distributes over concatenation, so they keep node-list order and multiplicity. */
  lemma {:induction false} EntryIdsAppend(a: seq<FlowNode>, b: seq<FlowNode>)
    ensures EntryIds(a + b) == EntryIds(a) + EntryIds(b)
    decreases |a|
  {
    if |a| > 0 {
      assert (a + b)[1..] == a[1..] + b;
      EntryIdsAppend(a[1..], b);
    } else {
      assert a + b == b;
    }
  }

  /** A single node contributes its id exactly when it is an entry node. */
  lemma EntryIdsSingle(n: FlowNode)
    ensures EntryIds([n]) == if n.kind == "entry" then [n.id] else []
  {
    assert [n][1..] == [];
  }

  /** The nodes numbered by the first chains. */
  ghost function Covered(chains: seq<seq<string>>): set<string>
    decreases |chains|
  {
    if |chains| == 0 then {}
    else Covered(chains[..|chains| - 1]) + Nodes(chains[|chains| - 1])
  }

  ghost function Nodes(walk: seq<string>): set<string>
  {
    set i | 0 <= i < |walk| :: walk[i]
  }

  lemma {:induction false} CoveredMonotone(chains: seq<seq<string>>, e: nat)
    requires e <= |chains|
    ensures Covered(chains[..e]) <= Covered(chains)
    decreases |chains|
  {
    if e < |chains| {
      var init := chains[..|chains| - 1];
      assert chains[..e] == init[..e];
      CoveredMonotone(init, e);
    } else {
      assert chains[..e] == chains;
    }
  }

  lemma {:induction false} CoveredMember(chains: seq<seq<string>>, id: string)
    ensures id in Covered(chains) <==> exists e, i :: 0 <= e < |chains| && 0 <= i < |chains[e]| && chains[e][i] == id
    decreases |chains|
  {
    if |chains| > 0 {
      var init := chains[..|chains| - 1];
      CoveredMember(init, id);
      if exists e, i :: 0 <= e < |chains| && 0 <= i < |chains[e]| && chains[e][i] == id {
        var e, i :| 0 <= e < |chains| && 0 <= i < |chains[e]| && chains[e][i] == id;
        if e < |init| {
          assert init[e][i] == id;
        }
      }
      if id in Covered(init) {
        var e, i :| 0 <= e < |init| && 0 <= i < |init[e]| && init[e][i] == id;
        assert chains[e][i] == id;
      }
    }
  }

  /** Appending a chain adds its nodes to the covered ones. */
  lemma CoveredAppend(chains: seq<seq<string>>, walk: seq<string>)
    ensures Covered(chains + [walk]) == Covered(chains) + Nodes(walk)
  {
    assert (chains + [walk])[..|chains|] == chains;
  }

  /** The chains `chains` are the walks from `entries`, each after the ones before it. */
  ghost predicate ChainsWalked(links: map<string, string>, entries: seq<string>, chains: seq<seq<string>>,
                               parents: seq<seq<nat>>, ports: seq<seq<nat>>)
  {
    |entries| == |chains| && |parents| == |chains| && |ports| == |chains| &&
    forall e :: 0 <= e < |chains| ==>
      IsBfsWalk(links, Covered(chains[..e]), entries[e], chains[e], parents[e], ports[e])
  }

  /** No exec link leaves the set `s`. */
  ghost predicate Closed(links: map<string, string>, s: set<string>)
  {
    forall a, x :: a in s && 0 <= x < 3 && Target(links, a, x).Some? ==> Target(links, a, x).value in s
  }

  /** Every node of a walk can be reached from its entry. */
  lemma {:induction false} WalkPath(links: map<string, string>, before: set<string>, entry: string,
                                    walk: seq<string>, parent: seq<nat>, port: seq<nat>, i: nat)
      returns (p: seq<string>)
    requires IsBfsWalk(links, before, entry, walk, parent, port)
    requires i < |walk|
    ensures IsExecPath(links, p) && |p| > 0 && p[0] == entry && p[|p| - 1] == walk[i]
    decreases i
  {
    if i == 0 {
      p := [entry];
    } else {
      var q := WalkPath(links, before, entry, walk, parent, port, parent[i]);
      p := q + [walk[i]];
      assert Linked(links, q[|q| - 1], walk[i]) by {
        assert Target(links, walk[parent[i]], port[i]) == Some(walk[i]);
        assert port[i] == 0 || port[i] == 1 || port[i] == 2;
      }
      forall k | 0 <= k < |p| - 1 ensures Linked(links, p[k], p[k + 1]) {
        if k < |q| - 1 {
          assert p[k] == q[k] && p[k + 1] == q[k + 1];
        }
      }
    }
  }

  /** The nodes the chains number are closed under exec links and hold every entry. */
  lemma ChainsClosed(links: map<string, string>, entries: seq<string>, chains: seq<seq<string>>,
                     parents: seq<seq<nat>>, ports: seq<seq<nat>>)
    requires ChainsWalked(links, entries, chains, parents, ports)
    ensures Closed(links, Covered(chains))
    ensures forall e :: 0 <= e < |entries| ==> entries[e] in Covered(chains)
  {
    forall a, x | a in Covered(chains) && 0 <= x < 3 && Target(links, a, x).Some?
      ensures Target(links, a, x).value in Covered(chains)
    {
      CoveredMember(chains, a);
      var e, i :| 0 <= e < |chains| && 0 <= i < |chains[e]| && chains[e][i] == a;
      var b := Target(links, a, x).value;
      assert IsBfsWalk(links, Covered(chains[..e]), entries[e], chains[e], parents[e], ports[e]);
      CoveredMonotone(chains, e);
      if b !in Covered(chains[..e]) {
        var k :| 0 <= k < |chains[e]| && chains[e][k] == b;
        CoveredMember(chains, b);
      }
    }
    forall e | 0 <= e < |entries| ensures entries[e] in Covered(chains) {
      assert IsBfsWalk(links, Covered(chains[..e]), entries[e], chains[e], parents[e], ports[e]);
      CoveredMonotone(chains, e);
      if entries[e] !in Covered(chains[..e]) {
        CoveredMember(chains, entries[e]);
      }
    }
  }

  /** A path that starts in a closed set stays in it. */
  lemma {:induction false} PathStaysIn(links: map<string, string>, s: set<string>, p: seq<string>)
    requires Closed(links, s) && IsExecPath(links, p) && |p| > 0 && p[0] in s
    ensures p[|p| - 1] in s
    decreases |p|
  {
    if |p| > 1 {
      var q := p[..|p| - 1];
      assert IsExecPath(links, q) by {
        forall k | 0 <= k < |q| - 1 ensures Linked(links, q[k], q[k + 1]) {
          assert q[k] == p[k] && q[k + 1] == p[k + 1];
        }
      }
      PathStaysIn(links, s, q);
      assert Linked(links, p[|p| - 2], p[|p| - 1]);
    }
  }

  /** The chains number exactly the nodes reachable from an entry. */
  lemma ChainsReach(links: map<string, string>, entries: seq<string>, chains: seq<seq<string>>,
                    parents: seq<seq<nat>>, ports: seq<seq<nat>>, id: string)
    requires ChainsWalked(links, entries, chains, parents, ports)
    ensures id in Covered(chains) <==> Reachable(links, entries, id)
  {
    if id in Covered(chains) {
      CoveredMember(chains, id);
      var e, i :| 0 <= e < |chains| && 0 <= i < |chains[e]| && chains[e][i] == id;
      var p := WalkPath(links, Covered(chains[..e]), entries[e], chains[e], parents[e], ports[e], i);
      assert p[0] in entries;
    }
    if Reachable(links, entries, id) {
      var p :| IsExecPath(links, p) && |p| > 0 && p[0] in entries && p[|p| - 1] == id;
      ChainsClosed(links, entries, chains, parents, ports);
      PathStaysIn(links, Covered(chains), p);
    }
  }

  /** A reachable node is an entry or the target of an exec link. */
  lemma ReachableIsEntryOrTarget(links: map<string, string>, roots: seq<string>, id: string)
    requires Reachable(links, roots, id)
    ensures id in roots || id in links.Values
  {
    var p :| IsExecPath(links, p) && |p| > 0 && p[0] in roots && p[|p| - 1] == id;
    if |p| > 1 {
      var a := p[|p| - 2];
      assert Linked(links, a, id);
      var x: nat :| x < 3 && Target(links, a, x) == Some(id);
      TargetIsLinked(links, a, x);
    }
  }

  /** Every number handed out is at least 1. */
  lemma NumbersPositive(orderMap: map<string, nat>, chains: seq<seq<string>>)
    requires orderMap.Keys == Covered(chains) && NumberedChains(orderMap, chains)
    ensures forall id :: id in orderMap ==> orderMap[id] >= 1
  {
    forall id | id in orderMap ensures orderMap[id] >= 1 {
      CoveredMember(chains, id);
    }
  }

  /** Node i of every chain has the number i + 1. */
  ghost predicate NumberedChains(orderMap: map<string, nat>, chains: seq<seq<string>>)
  {
    forall e, i :: 0 <= e < |chains| && 0 <= i < |chains[e]| ==>
      chains[e][i] in orderMap && orderMap[chains[e][i]] == i + 1
  }

  lemma ExtendNumbering(numbered: map<string, nat>, result: map<string, nat>,
                        chains: seq<seq<string>>, walk: seq<string>)
    requires numbered.Keys == Covered(chains) && NumberedChains(numbered, chains)
    requires NumberedBy(numbered, result, walk)
    ensures result.Keys == Covered(chains + [walk])
    ensures NumberedChains(result, chains + [walk])
  {
    CoveredAppend(chains, walk);
    assert result.Keys == Covered(chains) + Nodes(walk);
  }

  /**
   * The source's `computeExecutionOrder`: every node reachable from an entry node gets
   * the number of its place in the first chain that reaches it, and no other node is numbered.
   */
  method ComputeExecutionOrder(nodes: seq<FlowNode>, connections: seq<FlowConnection>)
    returns (orderMap: map<string, nat>, ghost chains: seq<seq<string>>,
             ghost parents: seq<seq<nat>>, ghost ports: seq<seq<nat>>)
    ensures |EntryIds(nodes)| == 0 ==> orderMap == map[]
    ensures ChainsWalked(ExecLinks(connections), EntryIds(nodes), chains, parents, ports)
    ensures orderMap.Keys == Covered(chains)
    ensures NumberedChains(orderMap, chains)
    ensures forall id :: id in orderMap <==> Reachable(ExecLinks(connections), EntryIds(nodes), id)
    ensures forall id :: id in orderMap ==> orderMap[id] >= 1 && (id in EntryIds(nodes) || id in ExecLinks(connections).Values)
  {
    orderMap := map[];
    chains, parents, ports := [], [], [];
    var entries := EntryIds(nodes);
    if |entries| == 0 {
      return;
    }
    var links := BuildExecLinks(connections);
    for e := 0 to |entries|
      invariant ChainsWalked(links, entries[..e], chains, parents, ports)
      invariant orderMap.Keys == Covered(chains)
      invariant NumberedChains(orderMap, chains)
    {
      var walked, walk, parent, port := WalkChain(links, entries[e], orderMap);
      ExtendChains(links, entries, e, chains, parents, ports, walk, parent, port);
      ExtendNumbering(orderMap, walked, chains, walk);
      chains, parents, ports := chains + [walk], parents + [parent], ports + [port];
      orderMap := walked;
    }
    assert entries[..|entries|] == entries;
    forall id ensures id in orderMap <==> Reachable(links, entries, id) {
      ChainsReach(links, entries, chains, parents, ports, id);
    }
    NumbersPositive(orderMap, chains);
    forall id | id in orderMap ensures id in entries || id in links.Values {
      ReachableIsEntryOrTarget(links, entries, id);
    }
  }

  lemma ExtendChains(links: map<string, string>, entries: seq<string>, e: nat,
                     chains: seq<seq<string>>, parents: seq<seq<nat>>, ports: seq<seq<nat>>,
                     walk: seq<string>, parent: seq<nat>, port: seq<nat>)
    requires e < |entries|
    requires ChainsWalked(links, entries[..e], chains, parents, ports)
    requires IsBfsWalk(links, Covered(chains), entries[e], walk, parent, port)
    ensures ChainsWalked(links, entries[..e + 1], chains + [walk], parents + [parent], ports + [port])
  {
    var chains' := chains + [walk];
    forall k | 0 <= k < |chains'|
      ensures IsBfsWalk(links, Covered(chains'[..k]), entries[..e + 1][k], chains'[k], (parents + [parent])[k], (ports + [port])[k])
    {
      assert chains'[..k] == chains[..k] || k == |chains|;
      if k == |chains| {
        assert chains'[..k] == chains;
      }
    }
  }
}
