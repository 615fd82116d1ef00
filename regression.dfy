/**
 * The model-selection loop of `perform_regression`. The curve fit of each
 * catalog model is an input: `outcomes[i]` is `None` when fitting
 * `CATALOG[i]` (or computing its metrics) raised, and otherwise the fitted
 * coefficients with R², MAE, MSE and RMSE.
 */
module Regression {
  import opened Wrappers
  import opened Floats
  import opened Models
  import opened Formulas

  datatype Fit = Fit(r2: Float, params: Params, mae: Float, mse: Float, rmse: Float)

  /** One tuple `(name, r2, params, mae, mse, rmse)` of the `results` list. */
  datatype Entry = Entry(name: string, fit: Fit)

  /** The entries that the loop appends for the first `|outs|` catalog models; each names a catalog model. */
  function Successes(outs: seq<Option<Fit>>): (r: seq<Entry>)
    requires |outs| <= |CATALOG|
    ensures |r| <= |outs|
    ensures forall i :: 0 <= i < |r| ==> KindOf(r[i].name).Some?
  {
    if outs == [] then []
    else
      var n := |outs| - 1;
      Successes(outs[..n]) + match outs[n]
                             case None => []
                             case Some(f) => [Entry(Name(CATALOG[n]), f)]
  }

  // ---------------------------------------------------------------------------
  // What the loop selects

  /** No entry has an R² that compares greater than `bestR2`. */
  ghost predicate Dominates(results: seq<Entry>, bestR2: Float)
  {
    forall j :: 0 <= j < |results| ==> !Gt(results[j].fit.r2, bestR2)
  }

  /** Nothing was selected: the initial values of the four variables. */
  ghost predicate NothingSelected(bestModel: Option<string>, bestR2: Float, bestParams: Option<Params>, bestFormula: string)
  {
    bestModel == None && bestR2 == NegInf && bestParams == None && bestFormula == ""
  }

  /**
   * Entry `i` is the one selected: its R² beats the initial -inf, no earlier
   * entry has the same R², and model, R², coefficients and formula are all its.
   */
  ghost predicate SelectedAt(results: seq<Entry>, fixed4: Float -> string, i: int,
                             bestModel: Option<string>, bestR2: Float, bestParams: Option<Params>, bestFormula: string)
  {
    && 0 <= i < |results|
    && bestModel == Some(results[i].name)
    && bestR2 == results[i].fit.r2
    && Gt(bestR2, NegInf)
    && bestParams == Some(results[i].fit.params)
    && HumanFormula(results[i].name, results[i].fit.params, fixed4) == Some(bestFormula)
    && forall j :: 0 <= j < i ==> results[j].fit.r2 != bestR2
  }

  /**
   * The outcome of selecting the best of `results` by R² under Python's `>`,
   * starting from -inf, first maximum wins.
   */
  ghost predicate IsSelection(results: seq<Entry>, fixed4: Float -> string,
                              bestModel: Option<string>, bestR2: Float, bestParams: Option<Params>, bestFormula: string)
  {
    && Dominates(results, bestR2)
    && (|| NothingSelected(bestModel, bestR2, bestParams, bestFormula)
        || exists i :: SelectedAt(results, fixed4, i, bestModel, bestR2, bestParams, bestFormula))
  }

  /**
   * `perform_regression` from line 72 on: walk the catalog, skip the models
   * whose fit raised, append the others to `results`, and keep the first
   * model whose R² is strictly greater than every one before it.
   */
  method PerformRegression(outcomes: seq<Option<Fit>>, fixed4: Float -> string)
    returns (bestModel: Option<string>, bestR2: Float, bestParams: Option<Params>, bestFormula: string,
             results: seq<Entry>)
    requires |outcomes| == |CATALOG|
    ensures results == Successes(outcomes)
    ensures IsSelection(results, fixed4, bestModel, bestR2, bestParams, bestFormula)
  {
    bestModel := None;
    bestR2 := NegInf;
    bestParams := None;
    bestFormula := "";
    results := [];
    ghost var bestIndex := -1;

    for i := 0 to |CATALOG|
      invariant results == Successes(outcomes[..i])
      invariant Dominates(results, bestR2)
      invariant || (bestIndex == -1 && NothingSelected(bestModel, bestR2, bestParams, bestFormula))
                || SelectedAt(results, fixed4, bestIndex, bestModel, bestR2, bestParams, bestFormula)
    {
      assert outcomes[..i + 1][..i] == outcomes[..i];
      var name := Name(CATALOG[i]);
      match outcomes[i]
      case None =>
      case Some(fit) =>
        if Gt(fit.r2, bestR2) {
          NewBestAbove(results, fit.r2, bestR2);
        }
        results := results + [Entry(name, fit)];
        if Gt(fit.r2, bestR2) {
          GtIrreflexive(fit.r2);
          if bestIndex != -1 {
            GtTransitive(fit.r2, bestR2, NegInf);
          }
          bestR2 := fit.r2;
          bestModel := Some(name);
          bestParams := Some(fit.params);
          var formula := HumanFormula(name, fit.params, fixed4);
          if formula.Some? {
            bestFormula := formula.value;
          }
          bestIndex := |results| - 1;
        }
    }
    assert outcomes[..|CATALOG|] == outcomes;
  }

  /**
   * An R² that beats the current best beats every earlier entry, and equals
   * none of them: the earlier entries stay behind the new best.
   */
  lemma NewBestAbove(results: seq<Entry>, r2: Float, bestR2: Float)
    requires Dominates(results, bestR2) && Gt(r2, bestR2)
    ensures Dominates(results, r2)
    ensures forall j :: 0 <= j < |results| ==> results[j].fit.r2 != r2
  {
    forall j | 0 <= j < |results| ensures !Gt(results[j].fit.r2, r2) && results[j].fit.r2 != r2 {
      if Gt(results[j].fit.r2, r2) {
        GtTransitive(results[j].fit.r2, r2, bestR2);
      }
    }
  }

  // ---------------------------------------------------------------------------
  // Properties of the accumulated results

  /** An entry is in `results` exactly when its model's fit did not raise. */
  lemma {:induction false} SuccessesMembers(outs: seq<Option<Fit>>, e: Entry)
    requires |outs| <= |CATALOG|
    ensures e in Successes(outs) <==>
            exists k :: 0 <= k < |outs| && outs[k] == Some(e.fit) && e.name == Name(CATALOG[k])
  {
    if outs != [] {
      var n := |outs| - 1;
      SuccessesMembers(outs[..n], e);
      if exists k :: 0 <= k < |outs| && outs[k] == Some(e.fit) && e.name == Name(CATALOG[k]) {
        var k :| 0 <= k < |outs| && outs[k] == Some(e.fit) && e.name == Name(CATALOG[k]);
        if k < n {
          assert outs[..n][k] == outs[k];
        }
      }
      if e in Successes(outs[..n]) {
        var k :| 0 <= k < n && outs[..n][k] == Some(e.fit) && e.name == Name(CATALOG[k]);
        assert outs[k] == outs[..n][k];
      }
    }
  }

  /** The entries of the first `|outs|` models name those models, in catalog order. */
  lemma {:induction false} SuccessesInCatalogOrder(outs: seq<Option<Fit>>)
    requires |outs| <= |CATALOG|
    ensures forall i :: 0 <= i < |Successes(outs)| ==> NameRank(Successes(outs)[i].name) < |outs|
    ensures forall i, j :: 0 <= i < j < |Successes(outs)| ==>
              NameRank(Successes(outs)[i].name) < NameRank(Successes(outs)[j].name)
  {
    if outs != [] {
      var n := |outs| - 1;
      SuccessesInCatalogOrder(outs[..n]);
      CatalogNamesDistinct(n, n);
    }
  }

  /** When every fit raises, nothing is appended. */
  lemma {:induction false} AllFailedNoResults(outs: seq<Option<Fit>>)
    requires |outs| <= |CATALOG|
    requires forall k :: 0 <= k < |outs| ==> outs[k].None?
    ensures Successes(outs) == []
  {
    if outs != [] {
      AllFailedNoResults(outs[..|outs| - 1]);
    }
  }

  // ---------------------------------------------------------------------------
  // Properties of the selection

  /** With no entry at all, the selection is the initial state. */
  lemma NoResultsNothingSelected(fixed4: Float -> string, bestModel: Option<string>, bestR2: Float,
                                 bestParams: Option<Params>, bestFormula: string)
    requires IsSelection([], fixed4, bestModel, bestR2, bestParams, bestFormula)
    ensures NothingSelected(bestModel, bestR2, bestParams, bestFormula)
  {
  }

  /**
   * A model is selected exactly when some R² compares greater than -inf; a
   * list whose R² values are all NaN or -inf selects nothing although it is
   * not empty.
   */
  lemma SelectedIffSomeAboveNegInf(results: seq<Entry>, fixed4: Float -> string, bestModel: Option<string>,
                                   bestR2: Float, bestParams: Option<Params>, bestFormula: string)
    requires IsSelection(results, fixed4, bestModel, bestR2, bestParams, bestFormula)
    ensures bestModel.Some? <==> exists j :: 0 <= j < |results| && Gt(results[j].fit.r2, NegInf)
  {
    if bestModel.Some? {
      var i :| SelectedAt(results, fixed4, i, bestModel, bestR2, bestParams, bestFormula);
      assert Gt(results[i].fit.r2, NegInf);
    }
  }

  /** When every R² is a finite number and there is one, the best R² is one of them. */
  lemma FiniteScoresSelectMaximum(results: seq<Entry>, fixed4: Float -> string, bestModel: Option<string>,
                                  bestR2: Float, bestParams: Option<Params>, bestFormula: string)
    requires IsSelection(results, fixed4, bestModel, bestR2, bestParams, bestFormula)
    requires results != [] && forall j :: 0 <= j < |results| ==> results[j].fit.r2.Finite?
    ensures bestModel.Some?
    ensures exists j :: 0 <= j < |results| && results[j].fit.r2 == bestR2 && results[j].name == bestModel.value
  {
    assert Gt(results[0].fit.r2, NegInf);
    SelectedIffSomeAboveNegInf(results, fixed4, bestModel, bestR2, bestParams, bestFormula);
    var i :| SelectedAt(results, fixed4, i, bestModel, bestR2, bestParams, bestFormula);
  }

  /**
   * The selection is determined by the results: two outcomes that both meet
   * `IsSelection` agree on model, R², coefficients and formula.
   */
  lemma SelectionUnique(results: seq<Entry>, fixed4: Float -> string,
                        m1: Option<string>, r1: Float, p1: Option<Params>, f1: string,
                        m2: Option<string>, r2: Float, p2: Option<Params>, f2: string)
    requires IsSelection(results, fixed4, m1, r1, p1, f1)
    requires IsSelection(results, fixed4, m2, r2, p2, f2)
    ensures m1 == m2 && r1 == r2 && p1 == p2 && f1 == f2
  {
    if !NothingSelected(m1, r1, p1, f1) && !NothingSelected(m2, r2, p2, f2) {
      var i1 :| SelectedAt(results, fixed4, i1, m1, r1, p1, f1);
      var i2 :| SelectedAt(results, fixed4, i2, m2, r2, p2, f2);
      if r1 != r2 {
        GtTotal(r1, r2);
      }
    }
  }

  /** If every fit raises, the loop returns its initial values and no results. */
  method AllFailed(fixed4: Float -> string)
    returns (bestModel: Option<string>, bestR2: Float, bestParams: Option<Params>, bestFormula: string,
             results: seq<Entry>)
    ensures results == []
    ensures NothingSelected(bestModel, bestR2, bestParams, bestFormula)
  {
    var outcomes := [None, None, None, None];
    bestModel, bestR2, bestParams, bestFormula, results := PerformRegression(outcomes, fixed4);
    AllFailedNoResults(outcomes);
  }

  /**
   * Ties go to the earlier model: Linear and Logarithmic fit equally well,
   * Exponential raises and Power Law scores NaN, so Linear is kept.
   */
  method TieGoesToEarlier(fixed4: Float -> string, p: Params, q: Params)
    returns (bestModel: Option<string>, bestR2: Float, bestParams: Option<Params>)
    ensures bestModel == Some("Linear") && bestR2 == Finite(0.9) && bestParams == Some(p)
  {
    var zero := Finite(0.0);
    var linear, logarithmic := Fit(Finite(0.9), p, zero, zero, zero), Fit(Finite(0.9), q, zero, zero, zero);
    var powerLaw := Fit(NaN, q, zero, zero, zero);
    var outcomes := [Some(linear), None, Some(logarithmic), Some(powerLaw)];
    var bestFormula, results;
    bestModel, bestR2, bestParams, bestFormula, results := PerformRegression(outcomes, fixed4);
    assert outcomes[..1][..0] == [];
    assert Successes(outcomes[..1]) == [Entry("Linear", linear)];
    assert outcomes[..2][..1] == outcomes[..1];
    assert Successes(outcomes[..2]) == [Entry("Linear", linear)];
    assert outcomes[..3][..2] == outcomes[..2];
    assert Successes(outcomes[..3]) == [Entry("Linear", linear), Entry("Logarithmic", logarithmic)];
    assert outcomes[..3] == outcomes[..|outcomes| - 1];
    assert results == [Entry("Linear", linear), Entry("Logarithmic", logarithmic), Entry("Power Law", powerLaw)];
    assert results[0].fit.r2 == results[1].fit.r2 && results[2].fit.r2 == NaN;
    ghost var i :| SelectedAt(results, fixed4, i, bestModel, bestR2, bestParams, bestFormula);
    assert i == 0;
  }
}
