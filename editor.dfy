/**
 * The act editor: the fee breakdown and its three edit handlers, the
 * evidence list with attach and remove, the record produced on save, and
 * the editor's mutable state as a class.
 */
module Editor {
  import opened Wrappers
  import opened Types
  import FeeService

  /** VAT rate applied to emoluments plus transport. */
  const TAX_RATE: real := 0.18

  /** Tax and total agree with the three entered amounts. */
  predicate Consistent(f: ActFees) {
    && f.tax == TAX_RATE * (f.emoluments + f.transport)
    && f.total == f.emoluments + f.transport + f.registration + f.tax
  }

  /** Editing the emoluments recomputes tax and total; the result is consistent whatever the input was. */
  function WithEmoluments(f: ActFees, v: real): (r: ActFees)
    ensures Consistent(r)
    ensures r.emoluments == v && r.transport == f.transport && r.registration == f.registration
  {
    var n := f.(emoluments := v);
    var n := n.(tax := (n.emoluments + n.transport) * TAX_RATE);
    n.(total := n.emoluments + n.transport + n.registration + n.tax)
  }

  /** Editing the transport recomputes tax and total; the result is consistent whatever the input was. */
  function WithTransport(f: ActFees, v: real): (r: ActFees)
    ensures Consistent(r)
    ensures r.transport == v && r.emoluments == f.emoluments && r.registration == f.registration
  {
    var n := f.(transport := v);
    var n := n.(tax := (n.emoluments + n.transport) * TAX_RATE);
    n.(total := n.emoluments + n.transport + n.registration + n.tax)
  }

  /** Editing the registration duty recomputes the total only: the tax is carried over as it was. */
  function WithRegistration(f: ActFees, v: real): (r: ActFees)
    ensures r.registration == v && r.emoluments == f.emoluments && r.transport == f.transport
    ensures r.tax == f.tax
    ensures r.total == f.emoluments + f.transport + v + f.tax
  {
    var n := f.(registration := v);
    n.(total := n.emoluments + n.transport + n.registration + n.tax)
  }

  /** A consistent breakdown stays consistent under a registration edit ... */
  lemma RegistrationKeepsConsistency(f: ActFees, v: real)
    requires Consistent(f)
    ensures Consistent(WithRegistration(f, v))
  {
  }

  /** ... and a stale tax stays stale: only the other two edits repair it. */
  lemma RegistrationKeepsStaleTax(f: ActFees, v: real)
    requires f.tax != TAX_RATE * (f.emoluments + f.transport)
    ensures !Consistent(WithRegistration(f, v))
  {
  }

  /** Each of the three edits, applied to a consistent breakdown, yields a consistent breakdown. */
  lemma EditsPreserveConsistency(f: ActFees, v: real)
    requires Consistent(f)
    ensures Consistent(WithEmoluments(f, v))
    ensures Consistent(WithTransport(f, v))
    ensures Consistent(WithRegistration(f, v))
  {
    RegistrationKeepsConsistency(f, v);
  }

  /**
   * A "Sommation de payer" at the default base fee with 5000 transport and
   * 2000 registration: tax 5400, total 37400, whatever the breakdown held before.
   */
  lemma SommationScenario(f: ActFees)
    ensures var r := WithRegistration(WithTransport(WithEmoluments(f, FeeService.CalculateFees("Sommation de payer") as real), 5000.0), 2000.0);
      r.tax == 5400.0 && r.total == 37400.0
  {
    FeeService.SommationDePayerFee();
  }

  /** Attaching evidence appends exactly one item at the end; the earlier items keep their place. */
  function AppendEvidence(list: seq<Evidence>, item: Evidence): (r: seq<Evidence>)
    ensures |r| == |list| + 1 && r[..|list|] == list && r[|list|] == item
  {
    list + [item]
  }

  /** Removing by id keeps, in order, exactly the items whose id differs. */
  function RemoveEvidence(list: seq<Evidence>, id: string): (r: seq<Evidence>)
    ensures |r| <= |list|
    ensures forall e :: e in r <==> e in list && e.id != id
    ensures (forall k :: 0 <= k < |list| ==> list[k].id != id) ==> r == list
  {
    if list == [] then []
    else if list[0].id == id then RemoveEvidence(list[1..], id)
    else [list[0]] + RemoveEvidence(list[1..], id)
  }

  /** Removal works piecewise, so the survivors keep their relative order. */
  lemma {:induction false} RemoveEvidenceAppend(a: seq<Evidence>, b: seq<Evidence>, id: string)
    ensures RemoveEvidence(a + b, id) == RemoveEvidence(a, id) + RemoveEvidence(b, id)
  {
    if a == [] {
      assert a + b == b;
    } else {
      assert (a + b)[0] == a[0] && (a + b)[1..] == a[1..] + b;
      RemoveEvidenceAppend(a[1..], b, id);
    }
  }

  /** Removing a just-attached item whose id is fresh gives back the list as it was before. */
  lemma AttachThenRemove(list: seq<Evidence>, item: Evidence)
    requires forall k :: 0 <= k < |list| ==> list[k].id != item.id
    ensures RemoveEvidence(AppendEvidence(list, item), item.id) == list
  {
    RemoveEvidenceAppend(list, [item], item.id);
  }

  /** The record handed to the save callback: content, evidence and fees replaced, status validated. */
  function SavedAct(act: LegalAct, content: string, evidence: seq<Evidence>, fees: ActFees): (r: LegalAct)
    ensures r.legalContent == content && r.evidence == Some(evidence) && r.fees == Some(fees)
    ensures r.status == Validated
    ensures r.id == act.id && r.title == act.title && r.actType == act.actType
    ensures r.date == act.date && r.rawTranscription == act.rawTranscription
  {
    act.(legalContent := content, evidence := Some(evidence), fees := Some(fees), status := Validated)
  }

  /**
   * What the fee state can hold, as the code is written: a five-field
   * breakdown, the bare number returned by the base-fee lookup, or the
   * four-field record (emoluments, debours, tva, total) that a freshly
   * generated act carries.
   */
  datatype FeeValue =
    | Breakdown(fees: ActFees)
    | BareAmount(amount: int)
    | FourFieldFees(emoluments: real, debours: real, tva: real, total: real)

  /** The property names a fee value has; a number has none. */
  function FieldsOf(v: FeeValue): (names: set<string>)
    ensures "emoluments" in names <==> !v.BareAmount?
  {
    match v
    case Breakdown(_) => {"emoluments", "transport", "registration", "tax", "total"}
    case BareAmount(_) => {}
    case FourFieldFees(_, _, _, _) => {"emoluments", "debours", "tva", "total"}
  }

  /** The fields the document view formats with `toLocaleString`. */
  const DOCUMENT_FIELDS: set<string> := {"emoluments", "transport", "registration", "tax", "total"}

  /**
   * The document view renders only when every field it formats exists: a
   * missing one reads as `undefined`, and calling `toLocaleString` on it throws.
   */
  predicate DocumentRenders(v: FeeValue) {
    DOCUMENT_FIELDS <= FieldsOf(v)
  }

  /** Of the three shapes, only the five-field breakdown renders. */
  lemma RendersOnlyBreakdown(v: FeeValue)
    ensures DocumentRenders(v) <==> v.Breakdown?
  {
    if !v.Breakdown? {
      assert "transport" in DOCUMENT_FIELDS && "transport" !in FieldsOf(v);
    }
  }

  function InitialFeeValue(act: LegalAct): (r: FeeValue)
    ensures act.fees.Some? ==> r == Breakdown(act.fees.value)
    ensures act.fees.None? ==> r.BareAmount? && 20000 <= r.amount <= 150000
  {
    FeeService.FeeBounds(act.actType);
    if act.fees.Some? then Breakdown(act.fees.value) else BareAmount(FeeService.CalculateFees(act.actType))
  }

  /** An act without fees (every act read back from the remote table) opens with no breakdown at all. */
  lemma NoFeesOpensWithoutBreakdown(act: LegalAct)
    requires act.fees.None?
    ensures !InitialFeeValue(act).Breakdown?
    ensures InitialFeeValue(act).amount == FeeService.CalculateFees(act.actType)
    ensures !DocumentRenders(InitialFeeValue(act))
  {
    RendersOnlyBreakdown(InitialFeeValue(act));
  }

  /** A breakdown seeded from a base amount: emoluments = base, nothing else entered yet. */
  function SeedFees(base: int): (r: ActFees)
    ensures Consistent(r)
    ensures r.emoluments == base as real && r.transport == 0.0 && r.registration == 0.0
  {
    WithEmoluments(ActFees(0.0, 0.0, 0.0, 0.0, 0.0), base as real)
  }

  /**
   * The corrected initial fee state used by this model: the act's breakdown
   * if it has one, otherwise a consistent breakdown seeded with the base amount.
   */
  function InitialFees(act: LegalAct): (r: ActFees)
    ensures act.fees.Some? ==> r == act.fees.value
    ensures act.fees.None? ==> Consistent(r) && r.transport == 0.0 && r.registration == 0.0
  {
    match act.fees
    case Some(f) => f
    case None => SeedFees(FeeService.CalculateFees(act.actType))
  }

  /** The corrected state agrees with the code where the code has a breakdown, and carries the code's bare amount as emoluments otherwise. */
  lemma InitialFeesRefinesCode(act: LegalAct)
    ensures match InitialFeeValue(act)
      case Breakdown(f) => InitialFees(act) == f
      case BareAmount(n) => InitialFees(act).emoluments == n as real && Consistent(InitialFees(act))
      case FourFieldFees(_, _, _, _) => false
    ensures DocumentRenders(Breakdown(InitialFees(act)))
  {
    RendersOnlyBreakdown(Breakdown(InitialFees(act)));
  }

  /** The editor screen's state for one act. */
  class EditorState {
    const act: LegalAct
    var content: string
    var evidence: seq<Evidence>
    var fees: ActFees
    var isSaving: bool
    /** The record the pending one-second save timer will hand over, fixed when the save was requested. */
    var pendingSave: Option<LegalAct>

    ghost predicate Valid()
      reads this
    {
      isSaving <==> pendingSave.Some?
    }

    constructor (act: LegalAct)
      ensures Valid()
      ensures this.act == act && content == act.legalContent && evidence == act.evidence.GetOr([])
      ensures fees == InitialFees(act) && !isSaving
    {
      this.act := act;
      content := act.legalContent;
      evidence := act.evidence.GetOr([]);
      fees := InitialFees(act);
      isSaving := false;
      pendingSave := None;
    }

    method EditContent(text: string)
      requires Valid()
      modifies this
      ensures Valid()
      ensures content == text && evidence == old(evidence) && fees == old(fees)
      ensures isSaving == old(isSaving) && pendingSave == old(pendingSave)
    {
      content := text;
    }

    method EditEmoluments(v: real)
      requires Valid()
      modifies this
      ensures Valid()
      ensures fees == WithEmoluments(old(fees), v)
      ensures content == old(content) && evidence == old(evidence)
      ensures isSaving == old(isSaving) && pendingSave == old(pendingSave)
    {
      fees := WithEmoluments(fees, v);
    }

    method EditTransport(v: real)
      requires Valid()
      modifies this
      ensures Valid()
      ensures fees == WithTransport(old(fees), v)
      ensures content == old(content) && evidence == old(evidence)
      ensures isSaving == old(isSaving) && pendingSave == old(pendingSave)
    {
      fees := WithTransport(fees, v);
    }

    method EditRegistration(v: real)
      requires Valid()
      modifies this
      ensures Valid()
      ensures fees == WithRegistration(old(fees), v)
      ensures content == old(content) && evidence == old(evidence)
      ensures isSaving == old(isSaving) && pendingSave == old(pendingSave)
    {
      fees := WithRegistration(fees, v);
    }

    /**
     * A file was chosen: when one is present its data URI becomes a new
     * evidence item, with the id and timestamp taken from the clock.
     */
    method AttachEvidence(file: Option<string>, nowId: string, timestamp: string)
      requires Valid()
      modifies this
      ensures Valid()
      ensures file.None? ==> evidence == old(evidence)
      ensures file.Some? ==> evidence == AppendEvidence(old(evidence), Evidence(nowId, file.value, timestamp, None))
      ensures content == old(content) && fees == old(fees)
      ensures isSaving == old(isSaving) && pendingSave == old(pendingSave)
    {
      if file.Some? {
        var item := Evidence(nowId, file.value, timestamp, None);
        evidence := AppendEvidence(evidence, item);
      }
    }

    method RemoveEvidenceItem(id: string)
      requires Valid()
      modifies this
      ensures Valid()
      ensures evidence == RemoveEvidence(old(evidence), id)
      ensures content == old(content) && fees == old(fees)
      ensures isSaving == old(isSaving) && pendingSave == old(pendingSave)
    {
      evidence := RemoveEvidence(evidence, id);
    }

    /** The save button (disabled while a save is pending) fixes the record to hand over and starts the timer. */
    method HandleSave()
      requires Valid() && !isSaving
      modifies this
      ensures Valid() && isSaving
      ensures pendingSave == Some(SavedAct(act, content, evidence, fees))
      ensures content == old(content) && evidence == old(evidence) && fees == old(fees)
    {
      isSaving := true;
      pendingSave := Some(SavedAct(act, content, evidence, fees));
    }

    /** The save timer fires: the record fixed at HandleSave goes to the save callback. */
    method SaveTimerFires() returns (saved: LegalAct)
      requires Valid() && isSaving
      modifies this
      ensures Valid() && !isSaving
      ensures saved == old(pendingSave).value
      ensures content == old(content) && evidence == old(evidence) && fees == old(fees)
    {
      saved := pendingSave.value;
      isSaving := false;
      pendingSave := None;
    }
  }
}
