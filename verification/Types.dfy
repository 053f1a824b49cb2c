/** The values that travel from the Kubernetes controllers to the registry workers. */
module Types {

  datatype Option<+T> = None | Some(value: T)

  type Meta = map<string, string>

  const OWNER_KEY := "owner"
  const OPERATOR_NAME := "cnwan-operator"

  /** An endpoint as the controllers derive it from a Kubernetes service. */
  datatype Endpoint = Endpoint(
    namespace: string, service: string, name: string,
    address: string, port: int, metadata: Meta)

  /** The dynamic types an event's object may have; anything else is `UnknownObj`. */
  datatype Object =
    | NamespaceObj(name: string)
    | ServiceObj(namespace: string, name: string)
    | EndpointObj(endpoint: Endpoint)
    | UnknownObj

  datatype EventType = Create | Update | Delete

  datatype Event = Event(kind: EventType, obj: Object)

  /** The routing key of an event: the namespace its object belongs to, or "". */
  function NamespaceNameOf(ev: Event): string {
    match ev.obj
    case NamespaceObj(name) => name
    case ServiceObj(namespace, _) => namespace
    case EndpointObj(endpoint) => endpoint.namespace
    case UnknownObj => ""
  }

  predicate IsOwnedByOperator(metadata: Meta) {
    OWNER_KEY in metadata && metadata[OWNER_KEY] == OPERATOR_NAME
  }

  /** The events of `evs` routed to namespace `n`, in order. */
  function ByNamespace(evs: seq<Event>, n: string): seq<Event> {
    if evs == [] then []
    else ByNamespace(evs[..|evs| - 1], n) +
         if NamespaceNameOf(evs[|evs| - 1]) == n then [evs[|evs| - 1]] else []
  }
}
