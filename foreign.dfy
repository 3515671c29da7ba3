/**
 * The numerical libraries the SDK calls into (scikit-learn scores,
 * fairlearn group metrics, pandas correlation), taken as given functions.
 * A scorer that can raise (scikit-learn on a continuous, mixed or
 * multi-class target under `average='binary'`, fairlearn on its inputs)
 * returns a `Result`. Whether fairlearn is installed is a flag, as it is
 * decided by an import.
 */
module Foreign {

  import opened Wrappers
  import opened Frames

  type Series = seq<Cell>

  datatype Externals = Externals(
    accuracy: (Series, Series) -> Result<real>,
    precision: (Series, Series) -> Result<real>,
    recall: (Series, Series) -> Result<real>,
    f1: (Series, Series) -> Result<real>,
    hasFairlearn: bool,
    /** `demographic_parity_difference(y_true, y_pred, sensitive_features)` */
    dpDifference: (Series, Series, Series) -> Result<real>,
    /** `equalized_odds_difference(y_true, y_pred, sensitive_features)` */
    eoDifference: (Series, Series, Series) -> Result<real>,
    /** `demographic_parity_ratio(...)` after `nan_to_num(nan=1.0)` */
    dpRatio: (Series, Series, Series) -> Result<real>,
    /** `Series.corr` */
    corr: (Series, Series) -> real)
}
