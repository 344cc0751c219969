/** The frozen model of the attack-path graph: nodes, edges and enumerated chains. */
module GraphModel {

  datatype Option<+T> = None | Some(value: T)

  datatype Severity = Critical | High | Medium | Low | Info {
    function Weight(): nat {
      match this
      case Critical => 40
      case High => 20
      case Medium => 10
      case Low => 3
      case Info => 0
    }
  }

  datatype TrustFactor = SecretAccess | ToolPrivilege | Autonomy | CodeProvenance | ExposureReach

  datatype NodeKind = Entry | AgentHost | McpServer | Credential | Target {
    function Value(): string {
      match this
      case Entry => "entry"
      case AgentHost => "agent_host"
      case McpServer => "mcp_server"
      case Credential => "credential"
      case Target => "target"
    }
  }

  datatype EdgeKind = Hosts | Reaches | Holds | SharedWith | Unlocks | CanAct {
    function Value(): string {
      match this
      case Hosts => "hosts"
      case Reaches => "reaches"
      case Holds => "holds"
      case SharedWith => "shared_with"
      case Unlocks => "unlocks"
      case CanAct => "can_act"
    }
  }

  /** The values the builder writes under an entry's "reach" key: the two labels read off a
      trust profile, the tiers read off a listening socket, and the empty string. */
  datatype Reach = NotStated | PrivateLan | PublicRoutable | Wildcard | WildcardOrPublic

  /** The key/value facts a node carries, by the kind of node that carries them. */
  datatype NodeDetail =
    | HostFacts(config: string, host: string)
    | ServerFacts(grade: char, factors: set<TrustFactor>)
    | EntryFacts(reach: Reach, surface: string)
    | CredentialFacts(fingerprint: string, holders: nat, length: nat)
    | TargetFacts(origin: string)

  datatype Node = Node(id: string, kind: NodeKind, name: string, detail: NodeDetail)

  datatype Edge = Edge(src: string, dst: string, kind: EdgeKind, detail: string)

  datatype Graph = Graph(nodes: seq<Node>, edges: seq<Edge>)

  /** Which sentence of the explanation is emitted; the wording itself is not modelled. */
  datatype Reason = SharedPivot | ActsUnattended | ActsBehindApproval | PrivilegedToolOnly

  datatype AttackPath = AttackPath(
    nodes: seq<string>, edges: seq<EdgeKind>, severity: Severity, reasons: seq<Reason>)

  lemma KindValuesDistinct(a: EdgeKind, b: EdgeKind)
    requires a.Value() == b.Value()
    ensures a == b
  {
  }
}
