/**
 * The monitor server's subscription table: for every hub connection, the set
 * of PLC variable paths it subscribed to.
 */
module SubscriptionManager {

  type Table = map<string, set<string>>

  /** The paths of a connection; an unknown connection has none. */
  function Lookup(t: Table, connectionId: string): set<string>
  {
    if connectionId in t then t[connectionId] else {}
  }

  /** The table after `AddSubscription`: the connection's set, created empty when missing, gains the path. */
  function Subscribed(t: Table, connectionId: string, path: string): (r: Table)
    ensures Lookup(r, connectionId) == Lookup(t, connectionId) + {path}
    ensures forall c :: c != connectionId ==> Lookup(r, c) == Lookup(t, c)
    ensures r.Keys == t.Keys + {connectionId}
  {
    t[connectionId := Lookup(t, connectionId) + {path}]
  }

  /** The table after `RemoveSubscription`: a known connection's set loses the path; an unknown connection is left alone. */
  function Unsubscribed(t: Table, connectionId: string, path: string): (r: Table)
    ensures Lookup(r, connectionId) == Lookup(t, connectionId) - {path}
    ensures forall c :: c != connectionId ==> Lookup(r, c) == Lookup(t, c)
    ensures r.Keys == t.Keys
    ensures connectionId !in t ==> r == t
  {
    if connectionId in t then t[connectionId := t[connectionId] - {path}] else t
  }

  /** The table after `RemoveAllSubscriptions`: the connection's entry is gone. */
  function Dropped(t: Table, connectionId: string): (r: Table)
    ensures Lookup(r, connectionId) == {}
    ensures forall c :: c != connectionId ==> Lookup(r, c) == Lookup(t, c)
    ensures r.Keys == t.Keys - {connectionId}
  {
    t - {connectionId}
  }

  class Subscriptions {
    var byConnection: Table

    constructor ()
      ensures byConnection == map[]
    {
      byConnection := map[];
    }

    method AddSubscription(connectionId: string, variablePath: string)
      modifies this
      ensures byConnection == Subscribed(old(byConnection), connectionId, variablePath)
    {
      var paths := if connectionId in byConnection then byConnection[connectionId] else {};
      byConnection := byConnection[connectionId := paths + {variablePath}];
    }

    method RemoveSubscription(connectionId: string, variablePath: string)
      modifies this
      ensures byConnection == Unsubscribed(old(byConnection), connectionId, variablePath)
    {
      if connectionId in byConnection {
        byConnection := byConnection[connectionId := byConnection[connectionId] - {variablePath}];
      }
    }

    /** A copy of the connection's set, as a value, so later changes to the table cannot reach it. */
    method GetSubscriptions(connectionId: string) returns (paths: set<string>)
      ensures paths == Lookup(byConnection, connectionId)
      ensures connectionId !in byConnection ==> paths == {}
    {
      if connectionId in byConnection {
        return byConnection[connectionId];
      }
      return {};
    }

    method RemoveAllSubscriptions(connectionId: string)
      modifies this
      ensures byConnection == Dropped(old(byConnection), connectionId)
    {
      byConnection := byConnection - {connectionId};
    }
  }

  /** Adding a path twice is adding it once. */
  lemma AddTwice(t: Table, connectionId: string, path: string)
    ensures Subscribed(Subscribed(t, connectionId, path), connectionId, path) == Subscribed(t, connectionId, path)
  {
    var once := Subscribed(t, connectionId, path);
    assert Lookup(once, connectionId) + {path} == Lookup(once, connectionId);
  }

  /** Removing a path a connection did not have leaves its set as it was; removing what was just added undoes it. */
  lemma RemoveUndoesAdd(t: Table, connectionId: string, path: string)
    requires path !in Lookup(t, connectionId)
    ensures Lookup(Unsubscribed(Subscribed(t, connectionId, path), connectionId, path), connectionId) == Lookup(t, connectionId)
  {
  }

  /** After adding one path to a fresh table, the connection holds exactly that path. */
  lemma AddThenGet()
    ensures Lookup(Subscribed(map[], "conn-1", "GVL_Main.bRunning"), "conn-1") == {"GVL_Main.bRunning"}
  {
  }

  /** Two adds followed by removing the connection leave it with nothing. */
  lemma RemoveAllClears()
    ensures Lookup(Dropped(Subscribed(Subscribed(map[], "conn-1", "GVL_Main.bRunning"), "conn-1", "GVL_Main.nCounter"), "conn-1"), "conn-1") == {}
  {
  }
}
