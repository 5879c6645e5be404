/**
 * The registry of connectors: each connector is kept under its name, a second one with the
 * same name replaces the first where it stands, and the names are listed in the order they
 * were first registered.
 */
module Connectors {
  import opened Wrappers
  import opened OrderedMaps

  /** The connectors the scheduler ships, and any other, told apart by a number. */
  datatype ConnectorKind = McpTask | GitHubTaskManager | OtherConnector(tag: nat)

  datatype Connector = Connector(name: string, kind: ConnectorKind)

  const McpTaskConnector: Connector := Connector("mcp-task-connector", McpTask)
  const GitHubTaskManagerConnector: Connector := Connector("github-task-manager-connector", GitHubTaskManager)

  function NameOf(c: Connector): string { c.name }

  class ConnectorRegistry {
    /** `this.connectors`: the map from name to connector, in insertion order. */
    var connectors: seq<Entry<string, Connector>>

    /** Names are distinct and each connector is stored under its own name. */
    ghost predicate Valid()
      reads this
    {
      Distinct(Keys(connectors)) && KeyedBy(connectors, NameOf)
    }

    constructor ()
      ensures connectors == [] && Valid()
    {
      connectors := [];
    }

    /** `register(connector)`. */
    method Register(c: Connector)
      requires Valid()
      modifies this
      ensures Valid()
      ensures connectors == Put(old(connectors), c.name, c)
    {
      PutDistinct(connectors, c.name, c);
      PutKeyed(connectors, NameOf, c);
      connectors := Put(connectors, c.name, c);
    }

    /** `get(name)`: the connector registered under the name, or none. */
    function Get(name: string): (r: Option<Connector>)
      reads this
      requires Valid()
      ensures r.None? <==> name !in List()
      ensures r.Some? ==> r.value.name == name
    {
      GetKeyed(connectors, name);
      OrderedMaps.Get(connectors, name)
    }

    /** `list()`: the names, in the order they were first registered. */
    function List(): (r: seq<string>)
      reads this
      ensures |r| == |connectors|
    {
      Keys(connectors)
    }
  }

  /** What `get` reads is stored under the name it was asked for. */
  lemma {:induction false} GetKeyed(m: seq<Entry<string, Connector>>, name: string)
    requires KeyedBy(m, NameOf)
    ensures OrderedMaps.Get(m, name).Some? ==> OrderedMaps.Get(m, name).value.name == name
  {
    if m != [] && m[0].key != name {
      assert KeyedBy(m[1..], NameOf) by {
        forall i | 0 <= i < |m[1..]|
          ensures NameOf(m[1..][i].value) == m[1..][i].key
        {
          assert m[1..][i] == m[i + 1];
        }
      }
      GetKeyed(m[1..], name);
    }
  }

  /**
   * After registering `c`, its name reads back `c` and every other name reads what it read
   * before; the list gains the name only when it is new.
   */
  lemma RegisterMeaning(m: seq<Entry<string, Connector>>, c: Connector, q: string)
    ensures OrderedMaps.Get(Put(m, c.name, c), q) == if q == c.name then Some(c) else OrderedMaps.Get(m, q)
    ensures Keys(Put(m, c.name, c)) == if c.name in Keys(m) then Keys(m) else Keys(m) + [c.name]
  {
    PutGet(m, c.name, c, q);
    PutKeys(m, c.name, c);
  }

  /** `createDefaultConnectorRegistry()`: the task connector, then the GitHub task manager connector. */
  method CreateDefaultConnectorRegistry() returns (r: ConnectorRegistry)
    ensures fresh(r) && r.Valid()
    ensures r.List() == ["mcp-task-connector", "github-task-manager-connector"]
    ensures r.Get("mcp-task-connector") == Some(McpTaskConnector)
    ensures r.Get("github-task-manager-connector") == Some(GitHubTaskManagerConnector)
  {
    r := new ConnectorRegistry();
    r.Register(McpTaskConnector);
    assert "mcp-task-connector" != "github-task-manager-connector";
    r.Register(GitHubTaskManagerConnector);
    assert r.connectors == [Entry("mcp-task-connector", McpTaskConnector), Entry("github-task-manager-connector", GitHubTaskManagerConnector)];
    assert r.connectors[1..] == [Entry("github-task-manager-connector", GitHubTaskManagerConnector)];
    assert r.connectors[0].key != "github-task-manager-connector";
    assert OrderedMaps.Get(r.connectors[1..], "github-task-manager-connector") == Some(GitHubTaskManagerConnector);
  }
}
