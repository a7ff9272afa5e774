/**
 * The per-type generation configuration and the backend's count-consistency check
 * (`validateConfig` in backend/controlllers/generateController.js).
 */
module ConfigValidation {
  import opened Wrappers
  import Js

  /** The two question types. */
  datatype Kind = Short | Long

  /** The name the source uses for a type (`"short"` or `"long"`). */
  function KindName(kind: Kind): string {
    match kind
    case Short => "short"
    case Long => "long"
  }

  /**
   * A JavaScript object from integer-like keys to counts, given as its entries in property
   * order. JavaScript lists integer-like keys in ascending numeric order, so a well-formed
   * value has strictly ascending keys.
   */
  type Counts = seq<(nat, int)>

  predicate KeysAscending(counts: Counts) {
    forall i, j :: 0 <= i < j < |counts| ==> counts[i].0 < counts[j].0
  }

  /** `config.short` or `config.long` of a generation request. */
  datatype GenerationConfig = GenerationConfig(
    useUnitWise: bool,
    useBtLevels: bool,
    totalCount: int,
    btLevelCounts: Counts,
    unitCounts: Counts)

  /** Keys in property order, and BT levels are positive (a level 0 is not modelled). */
  predicate WellFormed(config: GenerationConfig) {
    && KeysAscending(config.btLevelCounts)
    && KeysAscending(config.unitCounts)
    && forall i :: 0 <= i < |config.btLevelCounts| ==> config.btLevelCounts[i].0 >= 1
  }

  /** `Object.values(counts).reduce((a, b) => a + b, 0)`. */
  function Sum(counts: Counts): int {
    if counts == [] then 0 else Sum(counts[..|counts| - 1]) + counts[|counts| - 1].1
  }

  function BtMismatchMessage(kind: Kind, total: int, btTotal: int): string {
    "Total count (" + Js.IntToString(total) + ") must match sum of BT level counts ("
    + Js.IntToString(btTotal) + ") for " + KindName(kind) + " questions"
  }

  function UnitMismatchMessage(kind: Kind, unitTotal: int, btTotal: int): string {
    "Total unit-wise count (" + Js.IntToString(unitTotal) + ") must match total BT level count ("
    + Js.IntToString(btTotal) + ") for " + KindName(kind) + " questions"
  }

  /**
   * `validateConfig(config, type)`: `Fail` stands for the thrown `Error`. Only the BT-flat mode
   * and the unit-wise mode with BT levels are checked; the unit-wise mode without BT levels
   * and the flat-total mode always pass.
   */
  function ValidateConfig(config: GenerationConfig, kind: Kind): (r: Outcome)
    ensures !config.useUnitWise && config.useBtLevels ==>
              (r.Fail? <==> Sum(config.btLevelCounts) != config.totalCount)
    ensures config.useUnitWise && config.useBtLevels ==>
              (r.Fail? <==> Sum(config.unitCounts) != Sum(config.btLevelCounts))
    ensures !config.useBtLevels ==> r == Pass
    ensures r.Fail? && !config.useUnitWise ==>
              r.message == BtMismatchMessage(kind, config.totalCount, Sum(config.btLevelCounts))
    ensures r.Fail? && config.useUnitWise ==>
              r.message == UnitMismatchMessage(kind, Sum(config.unitCounts), Sum(config.btLevelCounts))
  {
    if !config.useUnitWise && config.useBtLevels && Sum(config.btLevelCounts) != config.totalCount then
      Fail(BtMismatchMessage(kind, config.totalCount, Sum(config.btLevelCounts)))
    else if config.useUnitWise && config.useBtLevels
            && Sum(config.unitCounts) != Sum(config.btLevelCounts) then
      Fail(UnitMismatchMessage(kind, Sum(config.unitCounts), Sum(config.btLevelCounts)))
    else
      Pass
  }

  /** The unit-wise total is never compared with `totalCount`, whatever the BT flag says. */
  lemma UnitWiseIgnoresTotalCount(config: GenerationConfig, total: int, kind: Kind)
    requires config.useUnitWise
    ensures ValidateConfig(config, kind) == ValidateConfig(config.(totalCount := total), kind)
  {
  }
}
