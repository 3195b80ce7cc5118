// The wire types shared by the Go server and the Python adapters.

module Manifest {

  datatype Option<+T> = None | Some(value: T)

  datatype AuthMode = PreInjected | NoAuth

  datatype Action = Action(
    id: string,
    typ: string,
    endpoint: string,
    verb: string,
    schema: map<string, string>,
    auth: AuthMode,
    timeout: string,
    dependsOn: seq<string>)

  datatype Boundary = Boundary(
    egress: seq<string>,
    maxTokensPerAction: int,
    requireApproval: seq<string>,
    auditLevel: string)

  datatype ExecutionManifest = ExecutionManifest(
    manifestId: string,
    version: string,
    ttl: string,
    actions: seq<Action>,
    boundaries: Boundary,
    feedbackEndpoint: string)

  // The registry's record of a callable backend.
  datatype Tool = Tool(
    id: string,
    typ: string,
    endpoint: string,
    verb: string,
    schema: map<string, string>,
    auth: AuthMode,
    timeout: string,
    capabilities: seq<string>,
    egress: seq<string>,
    dependsOnCaps: seq<string>,
    requireApproval: bool)

  function Ids(actions: seq<Action>): (ids: seq<string>)
  {
    seq(|actions|, i requires 0 <= i < |actions| => actions[i].id)
  }
}
