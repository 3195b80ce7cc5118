// pkg/anf/types.go: the document an encoder prints.

module Anf {

  datatype Header = Header(key: string, value: string)

  datatype Property = Property(key: string, value: string)

  // status is "" when there is none.
  datatype Entity = Entity(typ: string, name: string, status: string,
                           inlineProps: seq<Property>, props: seq<Property>, children: seq<Entity>)

  datatype Alert = Alert(severity: string, typ: string, name: string, message: string, props: map<string, string>)

  datatype Operation = Operation(verb: string, typ: string, name: string, params: map<string, string>)

  datatype Document = Document(headers: seq<Header>, entities: seq<Entity>, alerts: seq<Alert>, actions: seq<Operation>)
}
