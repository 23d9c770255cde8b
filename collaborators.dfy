/** The routines the modelled code imports from modules that are not part of
    this model (nrobust.utils, nrobust.bootstrap_utils, sklearn.metrics), held
    as function values so that every statement about the model holds for any
    implementation of them. */
module Collaborators {
  import opened Frames

  /** simple_ols: coefficients, p-values, log-likelihood and information
      criteria, or a design it cannot fit. */
  datatype FullOls =
    | FullOls(b: seq<real>, p: seq<real>, ll: real, aic: real, bic: real, hqic: real)
    | FullSingular

  /** stripped_ols: coefficients and p-values only. */
  datatype StrippedOls = StrippedOls(b: seq<real>, p: seq<real>) | StrippedSingular

  /** group_demean keeps the table rectangular. */
  type Demean = f: (Frame, Name) -> Frame
    | forall t, g :: WellFormed(t) ==> WellFormed(f(t, g))
    witness (t: Frame, g: Name) => t

  /** The row-wise mean of the z-scored outcome columns: one value per row. */
  type Composite = f: Frame -> seq<Cell>
    | forall t :: |f(t)| == |t.rows|
    witness (t: Frame) => seq(|t.rows|, i => Missing)

  datatype Collaborators = Collaborators(
    simpleOls: (Frame, Frame) -> FullOls,        // nrobust.utils.simple_ols(y, x)
    strippedOls: (Frame, Frame) -> StrippedOls,  // nrobust.bootstrap_utils.stripped_ols(y, x)
    allSubsets: seq<Name> -> seq<seq<Name>>,     // nrobust.utils.all_subsets
    spaceSize: seq<Name> -> nat,                 // nrobust.utils.space_size
    groupDemean: Demean,                         // nrobust.utils.group_demean(df, group)
    composite: Composite,                        // (subset - mean) / std, then mean(axis=1)
    rmse: (seq<Cell>, seq<real>) -> real)        // mean_squared_error(..., squared=False)
}
