/** The control plane's data model. */
module Platform {
  import opened Cidr
  import NetSet

  const KIND_BUCKET := "bucket"
  const KIND_WORKLOAD := "workload"
  const ACTION_READ := "read"
  const ACTION_WRITE := "write"
  const ANONYMOUS := "*"

  datatype Segment = Segment(name: string, cidr: Range)

  datatype Principal = Principal(name: string, description: string)

  datatype Bucket = Bucket(name: string, encrypted: bool, logRetentionDays: int)

  datatype Object = Object(bucket: string, key: string, contentType: string,
                           size: nat, contentDigest: string, body: string)

  datatype Grant = Grant(id: string, resourceKind: string, resourceName: string,
                         principals: seq<string>, actions: seq<string>, sourceRanges: seq<Range>)

  /** A declared bind address: an IPv4 address, or a text that is none. */
  datatype Bind = Ip(addr: Addr) | NoAddress(text: string)

  datatype Port = Port(name: string, number: int, bind: Bind)

  datatype Workload = Workload(name: string, address: string, ports: seq<Port>)

  datatype NetworkRule = NetworkRule(id: string, workload: string, port: string, sourceRanges: seq<Range>)

  datatype LedgerEntry = LedgerEntry(seqNo: int, action: string, resource: string,
                                     principal: string, segment: string, detail: string)

  datatype State = State(
    segments: seq<Segment>,
    principals: seq<Principal>,
    buckets: seq<Bucket>,
    objects: seq<Object>,
    grants: seq<Grant>,
    workloads: seq<Workload>,
    networkRules: seq<NetworkRule>,
    ledger: seq<LedgerEntry>)

  /** The subject of an authorization: a claimed name, a segment's name, an address. */
  datatype Caller = Caller(principal: string, segment: string, addr: NetSet.Address)

  /** The empty claim stands for the name that grants use for everyone. */
  function PrincipalOf(c: Caller): string {
    if c.principal == "" then ANONYMOUS else c.principal
  }
}
