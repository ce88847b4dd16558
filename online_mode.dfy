/**
 * The online-mode hook's effect on the monitor store: the three hub message
 * handlers, and the store updates `goOnline` and `goOffline` make around their
 * calls to the monitor API.
 *
 * The API calls themselves are not modelled: `goOnline`'s start request is
 * given by its outcome, and `goOffline` hands back the session id it would ask
 * the API to stop.
 */
module OnlineMode {
  import opened Wrappers
  import opened OnlineStore
  import NodeVariableMapping

  /** The state a node takes from one of its variables: active when the value is truthy. */
  function StateFor(v: PlcValue): NodeExecutionState
  {
    if Truthy(v) then Active else Idle
  }

  /** The node a value is about: the id its path parses to, when that id is not empty. */
  function NodeOf(v: PlcVariableValue): (r: Option<string>)
    ensures r.Some? ==> r.value != "" && NodeVariableMapping.NodeIdFromPath(v.path) == r
    ensures r.None? ==> NodeVariableMapping.NodeIdFromPath(v.path) in {None, Some("")}
  {
    var id := NodeVariableMapping.NodeIdFromPath(v.path);
    if id.Some? && id.value != "" then id else None
  }

  predicate Names(v: PlcVariableValue, id: string)
  {
    NodeOf(v) == Some(id)
  }

  /**
   * The node states after a batch of values, value by value. No node is lost, and
   * every entry is the old one or a derived active or idle state: the handler never
   * sets the error state.
   */
  function DeriveNodeStates(m: map<string, NodeExecutionState>, values: seq<PlcVariableValue>): (r: map<string, NodeExecutionState>)
    ensures m.Keys <= r.Keys
    ensures forall id :: id in r ==> (id in m && r[id] == m[id]) || r[id] != NodeError
    decreases |values|
  {
    if |values| == 0 then m
    else
      var last := values[|values| - 1];
      var prev := DeriveNodeStates(m, values[..|values| - 1]);
      match NodeOf(last)
      case Some(id) => prev[id := StateFor(last.value)]
      case None => prev
  }

  /** `ReceiveVariableValues`: stores the batch, then sets the state of every node it names. */
  method ReceiveVariableValues(store: Store, values: seq<PlcVariableValue>)
    modifies store
    ensures store.State() == old(store.State()).(
      variableValues := WithValues(old(store.variableValues), values),
      nodeStates := DeriveNodeStates(old(store.nodeStates), values))
  {
    store.UpdateVariableValues(values);
    for i := 0 to |values|
      invariant store.State() == old(store.State()).(
        variableValues := WithValues(old(store.variableValues), values),
        nodeStates := DeriveNodeStates(old(store.nodeStates), values[..i]))
    {
      var v := values[i];
      assert values[..i + 1][..i] == values[..i];
      var nodeId := NodeOf(v);
      if nodeId.Some? {
        store.UpdateNodeState(nodeId.value, StateFor(v.value));
      }
    }
    assert values[..|values|] == values;
  }

  /** A node is in the derived states exactly when it was before or the batch names it. */
  lemma {:induction false} NodeStatesKeys(m: map<string, NodeExecutionState>, values: seq<PlcVariableValue>, id: string)
    ensures id in DeriveNodeStates(m, values) <==> id in m || exists i :: 0 <= i < |values| && Names(values[i], id)
    decreases |values|
  {
    if |values| > 0 {
      var init := values[..|values| - 1];
      NodeStatesKeys(m, init, id);
      if exists i :: 0 <= i < |values| && Names(values[i], id) {
        var i :| 0 <= i < |values| && Names(values[i], id);
        if i < |init| {
          assert init[i] == values[i];
        }
      }
    }
  }

  /** A node the batch names takes the state of the last value naming it. */
  lemma {:induction false} NodeStatesLastWins(m: map<string, NodeExecutionState>, values: seq<PlcVariableValue>, id: string, i: nat)
    requires i < |values| && Names(values[i], id)
    requires forall j :: i < j < |values| ==> !Names(values[j], id)
    ensures id in DeriveNodeStates(m, values) && DeriveNodeStates(m, values)[id] == StateFor(values[i].value)
    decreases |values|
  {
    var init := values[..|values| - 1];
    if i < |init| {
      assert init[i] == values[i];
      assert forall j :: i < j < |init| ==> init[j] == values[j];
      NodeStatesLastWins(m, init, id, i);
    }
  }

  /** A node the batch does not name keeps its entry. */
  lemma {:induction false} NodeStatesUntouched(m: map<string, NodeExecutionState>, values: seq<PlcVariableValue>, id: string)
    requires forall i :: 0 <= i < |values| ==> !Names(values[i], id)
    ensures id in DeriveNodeStates(m, values) <==> id in m
    ensures id in m ==> DeriveNodeStates(m, values)[id] == m[id]
    decreases |values|
  {
    if |values| > 0 {
      var init := values[..|values| - 1];
      assert forall i :: 0 <= i < |init| ==> init[i] == values[i];
      NodeStatesUntouched(m, init, id);
    }
  }

  /** A value whose path does not parse to a non-empty node id leaves the node states as they are, wherever it sits in the batch. */
  lemma {:induction false} UnnamedValueIgnored(m: map<string, NodeExecutionState>, a: seq<PlcVariableValue>, v: PlcVariableValue, b: seq<PlcVariableValue>)
    requires forall id :: !Names(v, id)
    ensures DeriveNodeStates(m, a + [v] + b) == DeriveNodeStates(m, a + b)
    decreases |b|
  {
    if |b| == 0 {
      assert a + [v] + b == a + [v];
      assert (a + [v])[..|a|] == a;
      assert a + b == a;
      assert NodeOf(v).None? by {
        if NodeOf(v).Some? {
          assert Names(v, NodeOf(v).value);
        }
      }
    } else {
      var b' := b[..|b| - 1];
      UnnamedValueIgnored(m, a, v, b');
      assert (a + [v] + b)[..|a + [v] + b| - 1] == a + [v] + b';
      assert (a + b)[..|a + b| - 1] == a + b';
      assert (a + [v] + b)[|a + [v] + b| - 1] == b[|b| - 1];
      assert (a + b)[|a + b| - 1] == b[|b| - 1];
    }
  }

  /** The text of each connection status. */
  function StatusText(s: ConnectionStatus): string
  {
    match s
    case Disconnected => "disconnected"
    case Connecting => "connecting"
    case Connected => "connected"
    case ConnectionError => "error"
  }

  /** The status a hub message names, if it names one of the four; a parsed status has that very text. */
  function ParseConnectionStatus(text: string): (r: Option<ConnectionStatus>)
    ensures r.Some? <==> text in ["disconnected", "connecting", "connected", "error"]
    ensures r.Some? ==> StatusText(r.value) == text
  {
    if text == "disconnected" then Some(Disconnected)
    else if text == "connecting" then Some(Connecting)
    else if text == "connected" then Some(Connected)
    else if text == "error" then Some(ConnectionError)
    else None
  }

  /** Parsing accepts exactly the four status texts, and each names its own status. */
  lemma StatusRoundTrip(s: ConnectionStatus, text: string)
    ensures ParseConnectionStatus(StatusText(s)) == Some(s)
    ensures ParseConnectionStatus(text) == Some(s) <==> text == StatusText(s)
    ensures ParseConnectionStatus(text).None? <==> forall c: ConnectionStatus :: text != StatusText(c)
  {
    if ParseConnectionStatus(text).None? {
      forall c: ConnectionStatus ensures text != StatusText(c) {
        match c
        case Disconnected => case Connecting => case Connected => case ConnectionError =>
      }
    } else {
      assert text == StatusText(ParseConnectionStatus(text).value);
    }
  }

  /** `ReceiveConnectionStatus`: a status text updates the store; any other text is ignored. */
  method ReceiveConnectionStatus(store: Store, text: string)
    modifies store
    ensures ParseConnectionStatus(text).Some? ==>
      store.State() == old(store.State()).(connectionStatus := ParseConnectionStatus(text).value)
    ensures ParseConnectionStatus(text).None? ==> store.State() == old(store.State())
  {
    var status := ParseConnectionStatus(text);
    if status.Some? {
      store.UpdateConnectionStatus(status.value);
    }
  }

  /** `ReceiveError`. */
  method ReceiveError(store: Store, message: string)
    modifies store
    ensures store.State() == old(store.State()).(error := Some(message))
  {
    store.SetError(Some(message));
  }

  /** What the start request throws: an `Error` with its message, or some other value. */
  datatype Thrown = ErrorObject(message: string) | OtherValue

  /** How the start request ends. */
  datatype StartOutcome = Started(session: MonitorSession) | StartFailed(thrown: Thrown)

  const DefaultStartFailure: string := "Failed to start monitor session"

  /** The error text `goOnline` stores: an `Error`'s own message, otherwise a fixed, non-empty default. */
  function FailureMessage(t: Thrown): (r: string)
    ensures t.ErrorObject? ==> r == t.message
    ensures t.OtherValue? ==> r == DefaultStartFailure && r != ""
  {
    match t
    case ErrorObject(message) => message
    case OtherValue => DefaultStartFailure
  }

  /** JavaScript falsiness of a `string | null` argument. */
  predicate Blank(s: Option<string>)
  {
    s.None? || s.value == ""
  }

  /**
   * `goOnline`: without a project and a target nothing happens; otherwise the error is
   * cleared, the status goes to connecting, and the start request's outcome either
   * stores the session and goes online, or records the failure and the error status.
   */
  method GoOnline(store: Store, projectId: Option<string>, targetAmsNetId: Option<string>, outcome: StartOutcome)
    modifies store
    ensures Blank(projectId) || Blank(targetAmsNetId) ==> store.State() == old(store.State())
    ensures !Blank(projectId) && !Blank(targetAmsNetId) && outcome.Started? ==>
      store.State() == old(store.State()).(error := None, connectionStatus := Connecting,
                                           session := Some(outcome.session), isOnline := true)
    ensures !Blank(projectId) && !Blank(targetAmsNetId) && outcome.StartFailed? ==>
      store.State() == old(store.State()).(error := Some(FailureMessage(outcome.thrown)),
                                           connectionStatus := ConnectionError)
  {
    if Blank(projectId) || Blank(targetAmsNetId) {
      return;
    }
    store.SetError(None);
    store.UpdateConnectionStatus(Connecting);
    match outcome
    case Started(session) =>
      store.SetSession(Some(session));
      store.SetOnline(true);
    case StartFailed(thrown) =>
      store.SetError(Some(FailureMessage(thrown)));
      store.UpdateConnectionStatus(ConnectionError);
  }

  /**
   * `goOffline`: the store is reset first; the stop request is then due for the
   * session that was open, when its id is not empty.
   */
  method GoOffline(store: Store) returns (stopSessionId: Option<string>)
    modifies store
    ensures store.State() == InitialState
    ensures stopSessionId.Some? <==> old(store.session).Some? && old(store.session).value.sessionId != ""
    ensures stopSessionId.Some? ==> stopSessionId.value == old(store.session).value.sessionId
  {
    var sessionId: Option<string> := if store.session.Some? then Some(store.session.value.sessionId) else None;
    store.Reset();
    if sessionId.Some? && sessionId.value != "" {
      stopSessionId := sessionId;
    } else {
      stopSessionId := None;
    }
  }
}
