/**
 * The base-fee lookup: a fixed table keyed by short act names, with 25000
 * francs CFA for every name the table does not hold.
 */
module FeeService {
  import opened Types

  const DEFAULT_FEE: int := 25000

  const BASE_FEES: map<string, int> := map[
    "Sommation" := 25000,
    "Assignation" := 75000,
    "Constat" := 35000,
    "Saisie-Mobilier" := 120000,
    "Saisie-Vente" := 150000,
    "Expulsion" := 80000,
    "Signification" := 20000
  ]

  /** The base amount for an act type; never fails. */
  function CalculateFees(actType: string): (fee: int)
    ensures actType in BASE_FEES ==> fee == BASE_FEES[actType]
    ensures actType !in BASE_FEES ==> fee == DEFAULT_FEE
  {
    if actType in BASE_FEES then BASE_FEES[actType] else DEFAULT_FEE
  }

  /** Every base amount, listed or default, lies between 20000 and 150000. */
  lemma FeeBounds(actType: string)
    ensures 20000 <= CalculateFees(actType) <= 150000
  {
    if actType in BASE_FEES {
      assert actType in BASE_FEES.Keys;
      assert actType == "Sommation" || actType == "Assignation" || actType == "Constat"
        || actType == "Saisie-Mobilier" || actType == "Saisie-Vente" || actType == "Expulsion"
        || actType == "Signification";
    }
  }

  /**
   * Of the sixteen act types the application offers, only "Constat" is a key
   * of the table: it costs 35000 and every other type falls to the default.
   */
  lemma ActTypeFees(i: nat)
    requires i < |ACT_TYPES|
    ensures ACT_TYPES[i] == "Constat" ==> CalculateFees(ACT_TYPES[i]) == 35000
    ensures ACT_TYPES[i] != "Constat" ==> CalculateFees(ACT_TYPES[i]) == DEFAULT_FEE
  {
    var t := ACT_TYPES[i];
    assert t != "Sommation" && t != "Assignation" && t != "Saisie-Mobilier" && t != "Saisie-Vente"
      && t != "Expulsion" && t != "Signification";
  }

  /** In particular a "Sommation de payer" is charged the default base fee. */
  lemma SommationDePayerFee()
    ensures CalculateFees("Sommation de payer") == 25000
  {
    ActTypeFees(12);
  }
}
