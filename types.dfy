/**
 * The record shapes shared by the application: an act being drafted, its
 * evidence and fee breakdown, and the huissier's profile. The fee breakdown
 * has the five fields the Editor reads and writes (emoluments, transport,
 * registration, tax, total).
 */
module Types {
  import opened Wrappers

  /** A photograph attached to an act: its data URI and the moment it was attached. */
  datatype Evidence = Evidence(id: string, data: string, timestamp: string, description: Option<string>)

  /** Monetary amounts in francs CFA, held exactly. */
  datatype ActFees = ActFees(emoluments: real, transport: real, registration: real, tax: real, total: real)

  datatype Status = Draft | Validated | Final

  /**
   * One legal act. `evidence` and `fees` may be missing: acts read back from
   * the remote table carry no fees, and imported or cached records need not
   * carry either.
   */
  datatype LegalAct = LegalAct(
    id: string,
    title: string,
    actType: string,
    date: string,
    rawTranscription: string,
    legalContent: string,
    status: Status,
    evidence: Option<seq<Evidence>>,
    fees: Option<ActFees>)

  datatype UserProfile = UserProfile(
    name: string,
    studyName: string,
    matricule: string,
    rccm: string,
    bankAccount: string,
    jurisdiction: string,
    address: string,
    city: string,
    phone: string,
    email: string,
    logo: string)

  /** The sixteen act types offered when a new act is started, in display order. */
  const ACT_TYPES: seq<string> := [
    "Assignation en justice",
    "Commandement de payer",
    "Constat",
    "Congé (Bail commercial/habitation)",
    "Dénonciation de saisie",
    "Procédure d'expulsion",
    "Injonction de payer",
    "Mise en demeure",
    "Offre réelle de paiement",
    "PV de Saisie-Attribution",
    "PV de Saisie-Vente",
    "Signification de jugement",
    "Sommation de payer",
    "Sommation interpellative",
    "Saisie-contrefaçon",
    "Autre acte"
  ]
}
