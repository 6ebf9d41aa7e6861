/** The vocabulary the compiler, the registry and the checkers share. */
module Schema {
  import opened Prelude
  import opened Graphs

  datatype Classification = Public | Partner | Internal | Restricted {
    function Rank(): nat {
      match this
      case Public => 0
      case Partner => 1
      case Internal => 2
      case Restricted => 3
    }
  }

  datatype SourceTrust = Synthetic | FromPublic | FromPartner | FromInternal | FromRestricted {
    function Rank(): nat {
      match this
      case Synthetic => 0
      case FromPublic => 1
      case FromPartner => 2
      case FromInternal => 3
      case FromRestricted => 4
    }
  }

  const DEFAULT_OWNER := "tenant:root"
  const LOCAL := "local"

  datatype SecurityLabel = SecurityLabel(
    classification: Classification,
    residency: string,
    sourceTrust: SourceTrust,
    retentionDays: nat,
    owner: string
  ) {
    /** Data with this label may enter a context labelled `other`. */
    predicate CanFlowTo(other: SecurityLabel) {
      if classification.Rank() > other.classification.Rank() then false
      else if residency == LOCAL || other.residency == LOCAL then true
      else residency == other.residency
    }
  }

  datatype EffectKind = Read | Write | Delete | Payment | Publish | Notify

  const HIGH_RISK: set<EffectKind> := {Write, Delete, Payment, Publish}

  datatype CapabilityKind = LocalModel | PublicModel | A2aAgent | Tool | Human | Sink

  datatype Manifest = Manifest(
    capabilityId: string,
    kind: CapabilityKind,
    version: string,
    effects: seq<EffectKind>,
    costUsd: real,
    p50LatencyMs: nat
  )

  /** A template node; the parser keeps these fields unchanged. */
  datatype NodeSpec = NodeSpec(
    nodeId: NodeId,
    purpose: string,
    views: seq<string>,
    kinds: seq<CapabilityKind>,
    effects: seq<EffectKind>,
    requiresApproval: bool,
    fallback: Option<string>
  ) {
    predicate HighRisk() {
      exists k :: k in effects && k in HIGH_RISK
    }
  }

  datatype TaskTemplate = TaskTemplate(
    templateId: string,
    version: string,
    nodes: seq<NodeSpec>,
    edges: seq<Edge>,
    requiredPurposes: seq<string>
  )

  datatype ErrorKind =
    | RestrictedToPublic
    | TrustNotInherited
    | HighRiskWithoutApproval
    | EffectEscalation
    | PurposeEscalation
    | AmbientAuthority
    | InfeasibleBinding

  datatype CompileError = CompileError(kind: ErrorKind, nodeId: NodeId)
}
