/**
 * The MQTT topics the services use among themselves, all under "flowforge/".
 * A Guid argument is given by its text form.
 */
module MqttTopics {
  const Prefix: string := "flowforge"

  /** `BuildNotify`: the fixed head "flowforge/build/notify/" followed by the argument. */
  function BuildNotify(twinCatVersion: string): (r: string)
    ensures r == "flowforge/build/notify/" + twinCatVersion
  {
    Head(Prefix, "/build/notify/", "flowforge/build/notify/", twinCatVersion);
    Prefix + "/build/notify/" + twinCatVersion
  }

  /** `BuildProgress`: the fixed head "flowforge/build/progress/" followed by the argument. */
  function BuildProgress(buildId: string): (r: string)
    ensures r == "flowforge/build/progress/" + buildId
  {
    Head(Prefix, "/build/progress/", "flowforge/build/progress/", buildId);
    Prefix + "/build/progress/" + buildId
  }

  /** `DeployRequest`: the fixed head "flowforge/deploy/request/" followed by the argument. */
  function DeployRequest(targetId: string): (r: string)
    ensures r == "flowforge/deploy/request/" + targetId
  {
    Head(Prefix, "/deploy/request/", "flowforge/deploy/request/", targetId);
    Prefix + "/deploy/request/" + targetId
  }

  /** `DeployStatus`: the fixed head "flowforge/deploy/status/" followed by the argument. */
  function DeployStatus(deployId: string): (r: string)
    ensures r == "flowforge/deploy/status/" + deployId
  {
    Head(Prefix, "/deploy/status/", "flowforge/deploy/status/", deployId);
    Prefix + "/deploy/status/" + deployId
  }

  lemma Head(a: string, b: string, ab: string, x: string)
    requires |ab| == |a| + |b| && ab[..|a|] == a && ab[|a|..] == b
    ensures a + b + x == ab + x
  {
    assert ab == ab[..|a|] + ab[|a|..];
  }

  /** Every topic starts with "flowforge/". */
  lemma UnderPrefix(x: string)
    ensures var p := Prefix + "/";
      BuildNotify(x)[..|p|] == p && BuildProgress(x)[..|p|] == p &&
      DeployRequest(x)[..|p|] == p && DeployStatus(x)[..|p|] == p
  {
  }

  lemma CancelHead(head: string, a: string, b: string)
    ensures head + a == head + b ==> a == b
  {
    if head + a == head + b {
      assert a == (head + a)[|head|..];
      assert b == (head + b)[|head|..];
    }
  }

  lemma DifferentHeads(h1: string, h2: string, a: string, b: string, k: nat)
    requires k < |h1| && k < |h2| && h1[k] != h2[k]
    ensures h1 + a != h2 + b
  {
    assert (h1 + a)[k] == h1[k];
    assert (h2 + b)[k] == h2[k];
  }

  /** Each builder gives different topics for different arguments. */
  lemma Injective(a: string, b: string)
    requires a != b
    ensures BuildNotify(a) != BuildNotify(b) && BuildProgress(a) != BuildProgress(b)
    ensures DeployRequest(a) != DeployRequest(b) && DeployStatus(a) != DeployStatus(b)
  {
    CancelHead(Prefix + "/build/notify/", a, b);
    CancelHead(Prefix + "/build/progress/", a, b);
    CancelHead(Prefix + "/deploy/request/", a, b);
    CancelHead(Prefix + "/deploy/status/", a, b);
  }

  /** Topics from different builders never coincide. */
  lemma Disjoint(a: string, b: string)
    ensures BuildNotify(a) != BuildProgress(b) && BuildNotify(a) != DeployRequest(b) && BuildNotify(a) != DeployStatus(b)
    ensures BuildProgress(a) != DeployRequest(b) && BuildProgress(a) != DeployStatus(b)
    ensures DeployRequest(a) != DeployStatus(b)
  {
    var notify, progress := Prefix + "/build/notify/", Prefix + "/build/progress/";
    var request, status := Prefix + "/deploy/request/", Prefix + "/deploy/status/";
    DifferentHeads(notify, progress, a, b, 16);
    DifferentHeads(notify, request, a, b, 10);
    DifferentHeads(notify, status, a, b, 10);
    DifferentHeads(progress, request, a, b, 10);
    DifferentHeads(progress, status, a, b, 10);
    DifferentHeads(request, status, a, b, 17);
  }
}
