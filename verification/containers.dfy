/** The container listing and inspection endpoints
    (backend/internal/api/containers.go). The runtime's list and inspect
    calls are parameters: their answer, or a function giving it. */
module Containers {
  import opened Primitives
  import Validation
  import ApiErrors

  /** One entry of the runtime's container list, reduced to the fields the
      handler reads. `created` is a Unix time in seconds. */
  datatype RuntimePort = RuntimePort(ip: string, privatePort: u16, publicPort: u16, kind: string)

  datatype RuntimeContainer = RuntimeContainer(
    id: string,
    names: seq<string>,
    image: string,
    status: string,
    state: string,
    created: int,
    ports: seq<RuntimePort>,
    labels: map<string, string>)

  datatype Port = Port(privatePort: u16, publicPort: u16, kind: string)

  datatype ContainerInfo = ContainerInfo(
    id: string,
    name: string,
    image: string,
    status: string,
    state: string,
    created: int,
    ports: seq<Port>,
    labels: map<string, string>)

  const ShortIdLength: nat := 12

  /** The display name: the first name with one leading `/` removed, or the
      12-character short ID when there is no non-empty first name. The short
      ID is sliced before the names are looked at, so the ID must be at
      least 12 characters long whatever the names are. */
  function DisplayName(c: RuntimeContainer): (name: string)
    requires |c.id| >= ShortIdLength
    ensures (|c.names| == 0 || c.names[0] == "") ==> name == c.id[..ShortIdLength]
    ensures |c.names| > 0 && c.names[0] != "" ==>
              (if c.names[0][0] == '/' then "/" + name else name) == c.names[0]
  {
    var short := c.id[..ShortIdLength];
    if |c.names| > 0 && |c.names[0]| > 0 then
      var n := c.names[0];
      if n[0] == '/' then n[1..] else n
    else short
  }

  /** The runtime reports names as `/<name>`; the display name gives back
      `<name>`, with only one slash taken off. */
  lemma DisplayNameStripsOneSlash(c: RuntimeContainer, n: string)
    requires |c.id| >= ShortIdLength && |c.names| > 0 && c.names[0] == "/" + n
    ensures DisplayName(c) == n
  {
  }

  function ConvertPort(p: RuntimePort): (q: Port)
    ensures q.privatePort == p.privatePort && q.publicPort == p.publicPort && q.kind == p.kind
  {
    Port(p.privatePort, p.publicPort, p.kind)
  }

  function ConvertPorts(ps: seq<RuntimePort>): (qs: seq<Port>)
    ensures |qs| == |ps|
    ensures forall i :: 0 <= i < |ps| ==> qs[i] == ConvertPort(ps[i])
  {
    seq(|ps|, i requires 0 <= i < |ps| => ConvertPort(ps[i]))
  }

  function ToInfo(c: RuntimeContainer): (info: ContainerInfo)
    requires |c.id| >= ShortIdLength
    ensures info.id == c.id && info.name == DisplayName(c)
    ensures info.image == c.image && info.status == c.status && info.state == c.state
    ensures info.created == c.created && info.labels == c.labels
    ensures |info.ports| == |c.ports|
    ensures forall i :: 0 <= i < |c.ports| ==> info.ports[i] == ConvertPort(c.ports[i])
  {
    ContainerInfo(c.id, DisplayName(c), c.image, c.status, c.state, c.created, ConvertPorts(c.ports), c.labels)
  }

  /** What `ListContainers` does with one answer from the runtime: a 500
      reply, a panic on a container whose ID is shorter than 12 characters,
      or a 200 reply carrying the converted list and its length. */
  datatype ListOutcome =
    | ListFailed(status: int, error: string)
    | Panicked(at: nat)
    | Listed(status: int, infos: seq<ContainerInfo>, total: nat)

  predicate HasShortId(cs: seq<RuntimeContainer>, upTo: nat)
    requires upTo <= |cs|
  {
    exists i :: 0 <= i < upTo && |cs[i].id| < ShortIdLength
  }

  method ListContainers(listed: Result<seq<RuntimeContainer>, string>) returns (o: ListOutcome)
    ensures listed.Err? ==> o == ListFailed(500, "Failed to list containers: " + listed.error)
    ensures o.ListFailed? <==> listed.Err?
    ensures listed.Ok? && !HasShortId(listed.value, |listed.value|) ==> o.Listed?
    ensures listed.Ok? ==> (o.Panicked? <==> HasShortId(listed.value, |listed.value|))
    ensures o.Panicked? ==> listed.Ok? && o.at < |listed.value| && |listed.value[o.at].id| < ShortIdLength
                            && !HasShortId(listed.value, o.at)
    ensures o.Listed? ==> listed.Ok? && o.status == 200 && o.total == |o.infos| == |listed.value|
    ensures o.Listed? ==> forall i :: 0 <= i < |o.infos| ==>
              |listed.value[i].id| >= ShortIdLength && o.infos[i] == ToInfo(listed.value[i])
  {
    if listed.Err? {
      return ListFailed(500, "Failed to list containers: " + listed.error);
    }
    var cs := listed.value;
    var infos: seq<ContainerInfo> := [];
    var i := 0;
    while i < |cs|
      invariant 0 <= i <= |cs| && |infos| == i
      invariant !HasShortId(cs, i)
      invariant forall j :: 0 <= j < i ==> |cs[j].id| >= ShortIdLength && infos[j] == ToInfo(cs[j])
    {
      if |cs[i].id| < ShortIdLength {
        return Panicked(i);
      }
      infos := infos + [ToInfo(cs[i])];
      i := i + 1;
    }
    return Listed(200, infos, |infos|);
  }

  /** A list whose IDs are all full-length is answered in the runtime's
      order, one entry per container, each entry keeping its ID. */
  lemma ListedKeepsOrder(cs: seq<RuntimeContainer>, infos: seq<ContainerInfo>)
    requires |infos| == |cs|
    requires forall i :: 0 <= i < |cs| ==> |cs[i].id| >= ShortIdLength && infos[i] == ToInfo(cs[i])
    ensures forall i :: 0 <= i < |cs| ==> infos[i].id == cs[i].id
    ensures forall i, j :: 0 <= i < |cs| && 0 <= j < |cs| && cs[i].id != cs[j].id ==> infos[i] != infos[j]
  {
  }

  /** What `GetContainer` replies. */
  datatype GetOutcome<T> =
    | Rejected(body: ApiErrors.ErrorBody)
    | NotFoundReply(status: int, error: string)
    | Found(status: int, data: T)

  /** `GetContainer` for path parameter `id`; `inspect` stands for the
      runtime's inspect call, `correlation` and `now` for the request
      context and the clock. */
  function GetContainer<T>(correlation: ApiErrors.CtxValue, now: string, id: string,
                           inspect: string -> Result<T, string>): (o: GetOutcome<T>)
    ensures id == "" ==> o == Rejected(ApiErrors.BadRequest(correlation, "Container ID is required", [], now))
    ensures id != "" && !Validation.ValidateContainerID(id) ==>
              o == Rejected(ApiErrors.BadRequest(correlation, "Invalid container ID format", [], now))
    ensures Validation.ValidateContainerID(id) && inspect(id).Err? ==> o == NotFoundReply(404, "Container not found")
    ensures Validation.ValidateContainerID(id) && inspect(id).Ok? ==> o == Found(200, inspect(id).value)
    ensures o.Found? ==> Validation.ValidateContainerID(id)
  {
    if id == "" then Rejected(ApiErrors.BadRequest(correlation, "Container ID is required", [], now))
    else if !Validation.ValidateContainerID(id) then
      Rejected(ApiErrors.BadRequest(correlation, "Invalid container ID format", [], now))
    else match inspect(id)
      case Err(_) => NotFoundReply(404, "Container not found")
      case Ok(data) => Found(200, data)
  }

  /** A malformed ID is refused before the runtime is asked: the reply does
      not depend on what the runtime would have answered. */
  lemma InvalidIdNeverInspected<T>(correlation: ApiErrors.CtxValue, now: string, id: string,
                                   inspect1: string -> Result<T, string>, inspect2: string -> Result<T, string>)
    requires !Validation.ValidateContainerID(id)
    ensures GetContainer(correlation, now, id, inspect1) == GetContainer(correlation, now, id, inspect2)
    ensures GetContainer(correlation, now, id, inspect1).Rejected?
    ensures GetContainer(correlation, now, id, inspect1).body.status == 400
  {
  }

  /** Any ID that reaches the runtime is free of path separators, dots and
      white space. */
  lemma InspectedIdIsInert<T>(correlation: ApiErrors.CtxValue, now: string, id: string,
                              inspect: string -> Result<T, string>)
    requires !GetContainer(correlation, now, id, inspect).Rejected?
    ensures 12 <= |id| <= 64
    ensures forall i :: 0 <= i < |id| ==> id[i] != '/' && id[i] != '.' && id[i] != '\\' && !IsSpace(id[i])
  {
    Validation.AcceptedIdIsInert(id);
  }
}
