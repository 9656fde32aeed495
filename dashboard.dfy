/** The dashboard's figures: the total number of evidence photos, the per-act evidence cell and the status badge. */
module Dashboard {
  import opened Wrappers
  import opened Types

  /** `act.evidence?.length || 0`. */
  function EvidenceCount(act: LegalAct): nat {
    match act.evidence
    case None => 0
    case Some(items) => |items|
  }

  /** `acts.reduce((acc, act) => acc + count(act), acc)`: a left fold from the given accumulator. */
  function ReduceEvidence(acts: seq<LegalAct>, acc: nat): nat {
    if acts == [] then acc else ReduceEvidence(acts[1..], acc + EvidenceCount(acts[0]))
  }

  function TotalEvidence(acts: seq<LegalAct>): nat {
    ReduceEvidence(acts, 0)
  }

  /** Reference definition: the sum of the evidence counts, taken from the right. */
  function SumEvidence(acts: seq<LegalAct>): nat {
    if acts == [] then 0 else SumEvidence(acts[..|acts| - 1]) + EvidenceCount(acts[|acts| - 1])
  }

  lemma {:induction false} SumEvidenceCons(a: LegalAct, acts: seq<LegalAct>)
    ensures SumEvidence([a] + acts) == EvidenceCount(a) + SumEvidence(acts)
  {
    if acts != [] {
      var s := [a] + acts;
      assert s[..|s| - 1] == [a] + acts[..|acts| - 1];
      SumEvidenceCons(a, acts[..|acts| - 1]);
    }
  }

  /** The fold from accumulator `acc` adds `acc` to the sum. */
  lemma {:induction false} ReduceIsSum(acts: seq<LegalAct>, acc: nat)
    ensures ReduceEvidence(acts, acc) == acc + SumEvidence(acts)
  {
    if acts != [] {
      ReduceIsSum(acts[1..], acc + EvidenceCount(acts[0]));
      assert acts == [acts[0]] + acts[1..];
      SumEvidenceCons(acts[0], acts[1..]);
    }
  }

  /** The dashboard total is the sum of the evidence-list lengths; an empty act list gives 0. */
  lemma TotalEvidenceIsSum(acts: seq<LegalAct>)
    ensures TotalEvidence(acts) == SumEvidence(acts)
    ensures acts == [] ==> TotalEvidence(acts) == 0
  {
    ReduceIsSum(acts, 0);
  }

  /** An act with no evidence list adds nothing to the total. */
  lemma MissingEvidenceCountsZero(acts: seq<LegalAct>, act: LegalAct)
    requires act.evidence.None?
    ensures TotalEvidence(acts + [act]) == TotalEvidence(acts)
  {
    AppendAddsCount(acts, act);
  }

  /** Appending an act adds exactly its evidence count, so the total never decreases. */
  lemma AppendAddsCount(acts: seq<LegalAct>, act: LegalAct)
    ensures TotalEvidence(acts + [act]) == TotalEvidence(acts) + EvidenceCount(act)
    ensures TotalEvidence(acts + [act]) >= TotalEvidence(acts)
  {
    ReduceIsSum(acts + [act], 0);
    ReduceIsSum(acts, 0);
    assert (acts + [act])[..|acts|] == acts;
  }

  /** The evidence cell: the count when the act has at least one photo, a dash otherwise. */
  function EvidenceCell(act: LegalAct): (cell: Option<nat>)
    ensures cell.Some? <==> EvidenceCount(act) > 0
    ensures cell.Some? ==> cell.value == EvidenceCount(act)
  {
    match act.evidence
    case Some(items) => if |items| > 0 then Some(|items|) else None
    case None => None
  }

  const BADGE_FINAL: string := "Acté"
  const BADGE_DRAFT: string := "Brouillon"

  /** The badge reads "Acté" exactly for final acts; validated acts still read "Brouillon". */
  function StatusBadge(status: Status): (badge: string)
    ensures badge == BADGE_FINAL <==> status == Final
    ensures badge == BADGE_FINAL || badge == BADGE_DRAFT
  {
    if status == Final then BADGE_FINAL else BADGE_DRAFT
  }
}
