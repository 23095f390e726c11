// Listeners seen by discovery, and local reservations.
module Models {
  import opened Wrappers
  import opened Chars

  type Host = string
  type Project = string

  datatype Protocol = TCP | UDP

  function ProtocolName(p: Protocol): string {
    match p case TCP => "tcp" case UDP => "udp"
  }

  datatype Source = Native | Docker | System

  datatype DiscoveredPort = DiscoveredPort(
    protocol: Protocol,
    bindAddress: string,
    port: int,
    hostPort: Option<int>,
    source: Source,
    pid: Option<int>,
    processName: Option<string>,
    processPath: Option<string>,
    workingDirectory: Option<string>,
    rawState: Option<string>,
    containerName: Option<string>,
    projectName: Option<string>)

  // The port as the host sees it.
  function HostPort(d: DiscoveredPort): int {
    if d.hostPort.Some? then d.hostPort.value else d.port
  }

  datatype Details = Details(
    service: Option<string>, purpose: Option<string>, bindAddress: Option<string>, notes: Option<string>)

  datatype Reservation = Reservation(
    id: string, host: Host, port: int, protocol: Protocol, project: Project, details: Details, updatedAt: nat)

  // What a reservation claims: at most one reservation may exist per slot.
  datatype Slot = Slot(host: Host, port: int, protocol: Protocol)

  function SlotOf(r: Reservation): Slot {
    Slot(r.host, r.port, r.protocol)
  }

  // Project names are compared stripped and lower-cased; an absent or empty one matches nothing.
  predicate SameProject(a: Option<Project>, b: Option<Project>) {
    && a.Some? && b.Some? && a.value != "" && b.value != ""
    && LowerAll(Strip(a.value)) == LowerAll(Strip(b.value))
  }
}
