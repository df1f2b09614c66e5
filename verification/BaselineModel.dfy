/** The records that the baseline read models are built from, with the fields that grouping reads. */
module BaselineModel {
  import opened Wrappers

  /** A text without the key separator: the printed form of a UUID, or "sha256:" and hexadecimal digits. */
  type Plain = s: string | '|' !in s witness ""

  type Id = Plain

  /** The digest of a labelled text; the real one is SHA-256. */
  type Hash = (string, string) -> Plain

  datatype Fact = Fact(
    id: Id,
    route: Option<string>,
    provider: Option<string>,
    saas: Option<string>,
    identity: Option<string>,
    deception: Option<string>,
    provenance: Option<Id>)

  datatype AttackRef = AttackRef(
    tactic: string,
    technique: string,
    version: string,
    confidence: nat,
    visibility: string)

  datatype Hypothesis = Hypothesis(
    id: Id,
    category: string,
    evidenceRefs: seq<Id>,
    factRefs: seq<Id>,
    findingRefs: seq<Id>,
    riskRefs: seq<Id>,
    graphRefs: seq<Id>,
    missingVisibility: seq<string>,
    degradedReason: Option<string>,
    attackRefs: seq<AttackRef>,
    createdAt: int)

  datatype BaselineRecord = BaselineRecord(id: Id, factRefs: seq<Id>)

  datatype Alert = Alert(id: Id, findingRefs: seq<Id>)

  datatype Incident = Incident(id: Id, findingRefs: seq<Id>, alertRefs: seq<Id>)
}
