/**
 * The parts of a protobufjs service description that the builders read.
 * Parsing a .proto file into this form is done by protobufjs and is not modelled.
 */
module Proto {
  import opened Wrappers

  /**
   * An RPC method. `parent` is the name of the owning service, kept as a
   * plain name rather than a back-reference; it is `None` when the method
   * is not attached to a service (protobufjs leaves `parent` null then).
   * `comment` is null when the method has no comment.
   */
  datatype Method = Method(
    name: string,
    parent: Option<string>,
    requestType: string,
    responseType: string,
    comment: Option<string>)

  /**
   * A message type found by `root.lookup`. `fullName` stands for
   * `fullTypeName(root.lookup(name))`, the project's own naming function,
   * not for protobufjs's `fullName` property. `fieldCount` is how many
   * fields the type declares.
   */
  datatype TypeInfo = TypeInfo(fullName: string, fieldCount: nat)

  /** The namespace root: a type name either resolves to a type or to nothing. */
  type Root = map<string, TypeInfo>

  /**
   * What the builders receive: the service's methods in source order (what
   * `getMethods(proto)` returns) and the namespace root.
   */
  datatype ProtoInfo = ProtoInfo(methods: seq<Method>, root: Root)

  /** Whether both message types a method names resolve against the root. */
  predicate Resolves(root: Root, m: Method) {
    m.responseType in root && m.requestType in root
  }
}
