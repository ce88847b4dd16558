/**
 * The editor's online-monitor store: whether monitoring is on, the monitor
 * session, the latest value of every PLC variable, the execution state derived
 * for every node, the watch list, the connection status and the last error.
 * Every action replaces some fields and leaves the others as they were.
 */
module OnlineStore {
  import opened Wrappers

  /** A PLC variable's value as it arrives in JSON; `Composite` stands for an object or an array. */
  datatype PlcValue = Null | Bool(b: bool) | Number(n: real) | Text(s: string) | Composite

  /** JavaScript truthiness of a value. */
  predicate Truthy(v: PlcValue)
  {
    match v
    case Null => false
    case Bool(b) => b
    case Number(n) => n != 0.0
    case Text(s) => |s| > 0
    case Composite => true
  }

  datatype PlcVariableValue = PlcVariableValue(path: string, value: PlcValue, dataType: string, timestamp: string)

  datatype NodeExecutionState = Idle | Active | NodeError

  datatype ConnectionStatus = Disconnected | Connecting | Connected | ConnectionError

  datatype MonitorSession = MonitorSession(sessionId: string, signalREndpoint: string, authToken: string, targetAmsNetId: string)

  /** A snapshot of the store's fields. */
  datatype OnlineState = OnlineState(
    isOnline: bool,
    session: Option<MonitorSession>,
    nodeStates: map<string, NodeExecutionState>,
    variableValues: map<string, PlcVariableValue>,
    watchList: seq<string>,
    connectionStatus: ConnectionStatus,
    error: Option<string>)

  const InitialState: OnlineState := OnlineState(false, None, map[], map[], [], Disconnected, None)

  /**
   * The value map after storing `values` in order; a later value for the same path
   * overwrites. No path is lost, and every entry is the old one or a value that
   * arrived for that very path.
   */
  function WithValues(m: map<string, PlcVariableValue>, values: seq<PlcVariableValue>): (r: map<string, PlcVariableValue>)
    ensures m.Keys <= r.Keys
    ensures forall p :: p in r ==> (p in m && r[p] == m[p]) || r[p].path == p
    decreases |values|
  {
    if |values| == 0 then m
    else
      var last := values[|values| - 1];
      WithValues(m, values[..|values| - 1])[last.path := last]
  }

  /**
   * The watch list after adding `path`: unchanged when it is already there. The old
   * list is kept as a prefix, at most one entry is added, and the entries are the
   * old ones and `path`.
   */
  function Added(watchList: seq<string>, path: string): (r: seq<string>)
    ensures forall p :: p in r <==> p in watchList || p == path
    ensures |watchList| <= |r| <= |watchList| + 1 && r[..|watchList|] == watchList
  {
    if path in watchList then watchList else watchList + [path]
  }

  /** `watchList.filter(p => p !== path)`. */
  function Without(watchList: seq<string>, path: string): (r: seq<string>)
    ensures forall p :: p in r <==> p in watchList && p != path
    ensures |r| <= |watchList|
    decreases |watchList|
  {
    if |watchList| == 0 then []
    else
      assert forall p :: p in watchList <==> p == watchList[0] || p in watchList[1..];
      (if watchList[0] == path then [] else [watchList[0]]) + Without(watchList[1..], path)
  }

  ghost predicate NoDuplicates(s: seq<string>)
  {
    forall i, j :: 0 <= i < j < |s| ==> s[i] != s[j]
  }

  class Store {
    var isOnline: bool
    var session: Option<MonitorSession>
    var nodeStates: map<string, NodeExecutionState>
    var variableValues: map<string, PlcVariableValue>
    var watchList: seq<string>
    var connectionStatus: ConnectionStatus
    var error: Option<string>

    function State(): OnlineState
      reads this
    {
      OnlineState(isOnline, session, nodeStates, variableValues, watchList, connectionStatus, error)
    }

    constructor ()
      ensures State() == InitialState
    {
      isOnline, session, nodeStates, variableValues := false, None, map[], map[];
      watchList, connectionStatus, error := [], Disconnected, None;
    }

    method SetSession(s: Option<MonitorSession>)
      modifies this
      ensures State() == old(State()).(session := s)
    {
      session := s;
    }

    method SetOnline(online: bool)
      modifies this
      ensures State() == old(State()).(isOnline := online)
    {
      isOnline := online;
    }

    /** Stores each value under its path, in batch order. */
    method UpdateVariableValues(values: seq<PlcVariableValue>)
      modifies this
      ensures State() == old(State()).(variableValues := WithValues(old(variableValues), values))
    {
      var next := variableValues;
      for i := 0 to |values|
        invariant next == WithValues(variableValues, values[..i])
      {
        assert values[..i + 1][..i] == values[..i];
        next := next[values[i].path := values[i]];
      }
      assert values[..|values|] == values;
      variableValues := next;
    }

    method UpdateNodeState(nodeId: string, s: NodeExecutionState)
      modifies this
      ensures State() == old(State()).(nodeStates := old(nodeStates)[nodeId := s])
    {
      nodeStates := nodeStates[nodeId := s];
    }

    method UpdateConnectionStatus(status: ConnectionStatus)
      modifies this
      ensures State() == old(State()).(connectionStatus := status)
    {
      connectionStatus := status;
    }

    method SetError(e: Option<string>)
      modifies this
      ensures State() == old(State()).(error := e)
    {
      error := e;
    }

    method AddToWatchList(path: string)
      modifies this
      ensures State() == old(State()).(watchList := Added(old(watchList), path))
    {
      if path in watchList {
        return;
      }
      watchList := watchList + [path];
    }

    method RemoveFromWatchList(path: string)
      modifies this
      ensures State() == old(State()).(watchList := Without(old(watchList), path))
    {
      watchList := Without(watchList, path);
    }

    method Reset()
      modifies this
      ensures State() == InitialState
    {
      isOnline, session, nodeStates, variableValues := false, None, map[], map[];
      watchList, connectionStatus, error := [], Disconnected, None;
    }
  }

  /** A path has a value after a batch exactly when it had one before or the batch carries it. */
  lemma {:induction false} ValuesKeys(m: map<string, PlcVariableValue>, values: seq<PlcVariableValue>, path: string)
    ensures path in WithValues(m, values) <==> path in m || exists i :: 0 <= i < |values| && values[i].path == path
    decreases |values|
  {
    if |values| > 0 {
      var init := values[..|values| - 1];
      ValuesKeys(m, init, path);
      if exists i :: 0 <= i < |values| && values[i].path == path {
        var i :| 0 <= i < |values| && values[i].path == path;
        if i < |init| {
          assert init[i] == values[i];
        }
      }
    }
  }

  /** Within a batch, the last value for a path wins. */
  lemma {:induction false} ValuesLastWins(m: map<string, PlcVariableValue>, values: seq<PlcVariableValue>, path: string, i: nat)
    requires i < |values| && values[i].path == path
    requires forall j :: i < j < |values| ==> values[j].path != path
    ensures path in WithValues(m, values) && WithValues(m, values)[path] == values[i]
    decreases |values|
  {
    var init := values[..|values| - 1];
    if i < |init| {
      assert init[i] == values[i];
      assert forall j :: i < j < |init| ==> init[j] == values[j];
      ValuesLastWins(m, init, path, i);
    }
  }

  /** A path the batch does not carry keeps its value. */
  lemma {:induction false} ValuesUntouched(m: map<string, PlcVariableValue>, values: seq<PlcVariableValue>, path: string)
    requires forall i :: 0 <= i < |values| ==> values[i].path != path
    ensures path in WithValues(m, values) <==> path in m
    ensures path in m ==> WithValues(m, values)[path] == m[path]
    decreases |values|
  {
    if |values| > 0 {
      var init := values[..|values| - 1];
      assert forall i :: 0 <= i < |init| ==> init[i] == values[i];
      ValuesUntouched(m, init, path);
    }
  }

  /** Adding puts the path on the list, once; adding it again changes nothing. */
  lemma AddedOnce(watchList: seq<string>, path: string)
    ensures path in Added(watchList, path)
    ensures path in watchList ==> Added(watchList, path) == watchList
    ensures path !in watchList ==> Added(watchList, path) == watchList + [path]
    ensures Added(Added(watchList, path), path) == Added(watchList, path)
  {
  }

  /** Removing drops every occurrence and keeps the rest in order: it distributes over concatenation. */
  lemma {:induction false} WithoutKeepsOrder(a: seq<string>, b: seq<string>, path: string)
    ensures Without(a + b, path) == Without(a, path) + Without(b, path)
    decreases |a|
  {
    if |a| > 0 {
      assert (a + b)[1..] == a[1..] + b;
      WithoutKeepsOrder(a[1..], b, path);
    } else {
      assert a + b == b;
    }
  }

  /** Removing a path that is not on the list changes nothing. */
  lemma {:induction false} WithoutAbsent(watchList: seq<string>, path: string)
    requires path !in watchList
    ensures Without(watchList, path) == watchList
    decreases |watchList|
  {
    if |watchList| > 0 {
      assert path !in watchList[1..];
      WithoutAbsent(watchList[1..], path);
      assert watchList == [watchList[0]] + watchList[1..];
    }
  }

  /** Removing undoes adding a path that was not on the list. */
  lemma RemoveUndoesAdd(watchList: seq<string>, path: string)
    requires path !in watchList
    ensures Without(Added(watchList, path), path) == watchList
  {
    WithoutKeepsOrder(watchList, [path], path);
    WithoutAbsent(watchList, path);
    assert Without([path], path) == [];
  }

  /** Both watch-list actions keep a duplicate-free list duplicate-free. */
  lemma {:induction false} WithoutNoDuplicates(watchList: seq<string>, path: string)
    requires NoDuplicates(watchList)
    ensures NoDuplicates(Without(watchList, path))
    decreases |watchList|
  {
    if |watchList| > 0 {
      var rest := Without(watchList[1..], path);
      WithoutNoDuplicates(watchList[1..], path);
      assert watchList[0] !in watchList[1..];
      assert watchList[0] !in rest;
      var r := Without(watchList, path);
      if watchList[0] != path {
        assert r == [watchList[0]] + rest;
        forall i, j | 0 <= i < j < |r| ensures r[i] != r[j] {
          if i == 0 {
            assert r[j] == rest[j - 1];
            assert r[j] in rest;
          } else {
            assert r[i] == rest[i - 1] && r[j] == rest[j - 1];
          }
        }
      }
    }
  }

  lemma AddedNoDuplicates(watchList: seq<string>, path: string)
    requires NoDuplicates(watchList)
    ensures NoDuplicates(Added(watchList, path))
  {
  }

  datatype WatchAction = Watch(path: string) | Unwatch(path: string)

  /** The watch list after a run of watch-list actions. */
  function ApplyWatchActions(watchList: seq<string>, actions: seq<WatchAction>): seq<string>
    decreases |actions|
  {
    if |actions| == 0 then watchList
    else
      var next := match actions[0]
        case Watch(p) => Added(watchList, p)
        case Unwatch(p) => Without(watchList, p);
      ApplyWatchActions(next, actions[1..])
  }

  /** A watch list built from the initial state by adding and removing never holds a path twice. */
  lemma {:induction false} WatchListNeverDuplicates(watchList: seq<string>, actions: seq<WatchAction>)
    requires NoDuplicates(watchList)
    ensures NoDuplicates(ApplyWatchActions(watchList, actions))
    decreases |actions|
  {
    if |actions| > 0 {
      match actions[0]
      case Watch(p) =>
        AddedNoDuplicates(watchList, p);
        WatchListNeverDuplicates(Added(watchList, p), actions[1..]);
      case Unwatch(p) =>
        WithoutNoDuplicates(watchList, p);
        WatchListNeverDuplicates(Without(watchList, p), actions[1..]);
    }
  }

  lemma FromInitialNoDuplicates(actions: seq<WatchAction>)
    ensures NoDuplicates(ApplyWatchActions(InitialState.watchList, actions))
  {
    WatchListNeverDuplicates(InitialState.watchList, actions);
  }
}
