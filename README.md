# Regression model selection and formula rendering

A Dafny model of the decision and rendering logic of `regressione.py`, a
small tool that fits an (x, y) column pair to four curve families (Linear
`a*x+b`, Exponential `a*e^(b*x)`, Logarithmic `a*ln(x)+b`, Power Law `a*x^b`),
keeps the family with the best R², and shows its formula both as text and as a
spreadsheet formula. Three parts are modelled:

- **Model selection** (`perform_regression`): the loop over the fixed catalog
  of four models. Each fit either raises (the model is skipped) or gives
  coefficients and metrics, appended to `results`; the first model whose R²
  is strictly greater than the best so far (initially -inf) becomes
  `best_model`, with its coefficients and its human-readable formula.
  `Regression.PerformRegression` is that loop; it is proved against the
  declarative `IsSelection` (no R² compares greater than `best_r2`; the
  selected entry is the earliest with that R²; model, coefficients and formula
  all belong to it; nothing is selected unless some R² beats -inf) and against
  `Successes` (exactly the models that did not raise, in catalog order).
  `SelectionUnique` shows that `IsSelection` leaves only one possible answer.
- **Decimal-separator formatting** (`format_number`): under the preference
  `"Comma"` every `.` of the number's text becomes `,`; any other preference
  leaves the text as it is.
- **Formula rendering** (`get_excel_formula` and the `best_formula` branches):
  fixed templates per model name, filled with the coefficient texts. A
  decoder (`Formulas.Decode`) reads a rendered formula back into its model and
  coefficient texts; the round-trip lemmas show that rendering loses neither.

Floats are modelled by `Floats.Float` (`NaN`, `-inf`, a finite real, `+inf`)
with `Gt` as Python's `>`: NaN compares false with everything, so a NaN R²
is appended to `results` but never selected. A consequence of the code as
written: when every appended R² is NaN or -inf, `best_model` stays `None`
although `results` is not empty (`SelectedIffSomeAboveNegInf`). When every R²
is finite and some model succeeded, the best R² is one of them
(`FiniteScoresSelectMaximum`).

Inputs that stand for code outside the model:

- the outcome of fitting each catalog model (`curve_fit`, the metrics) is the
  parameter `outcomes`, one `Option<Fit>` per catalog model, in catalog order;
- `str(value)` is the parameter `repr` and `f"{value:.4f}"` the parameter
  `fixed4`, both functions from `Float` to `string`;
- the decimal-separator preference, a global Tk variable in the code, is the
  string parameter `separator`.

The code has no data cleaning (no coercion, no removal of missing or
non-positive rows, no outlier filter) and no minimum-row check. When every
model fails it raises nothing and returns `None`, `-inf`, `None`, `""` and an
empty list. `format_number` applies `str(value)`.

## Model

| member | source | states |
|---|---|---|
| Floats.Gt | regressione.py:92 | Python's `>` on floats: false whenever either side is NaN; never true of equal values, of -inf on the left or +inf on the right; every value but NaN and -inf is above -inf; finite values compare as reals |
| Models.KindOf | regressione.py:43-48 | a name selects a model exactly when it is one of the four catalog names, and then the model of that name |
| Models.Rank | regressione.py:43-48 | each model sits at its own position of the catalog order Linear, Exponential, Logarithmic, Power Law |
| Models.CatalogNamesDistinct | regressione.py:43-48 | the four catalog names are pairwise different and each gives back its catalog position |
| Formatting.Replace | regressione.py:53 | `str.replace` with one character: same length, every target character replaced, all others kept |
| Formatting.FormatNumber | regressione.py:51-55 | under "Comma" the text keeps its length, has no `.`, and differs only where a `.` stood, now `,`; under any other preference it is unchanged |
| Formatting.FormatNumberKeepsAbsent | regressione.py:51-55 | formatting adds no character except `,` |
| Formatting.CommaRoundTrip | regressione.py:52-53 | for a text without commas, turning the commas back into points recovers the text |
| Formulas.ExcelFormula | regressione.py:58-66 | a formula exactly when the name is a catalog name; then the spreadsheet template of that model filled with the formatted coefficients, starting with `=`; `None` for any other name |
| Formulas.HumanFormula | regressione.py:96-103 | a formula exactly when the name is a catalog name; then the human template of that model filled with the `:.4f` coefficients, starting with `y = ` |
| Formulas.ExcelFormulaDecodes | regressione.py:58-66 | reading the spreadsheet formula back gives its model and both formatted coefficients |
| Formulas.HumanFormulaDecodes | regressione.py:96-103 | reading the human formula back gives its model and both coefficient texts |
| Formulas.ExcelFormulaInjective | regressione.py:58-66 | two catalog models or coefficient texts that differ never render to the same spreadsheet formula |
| Formulas.DecodeFill | regressione.py:58-66 | decoding any filled template of a decodable template table gives back model and coefficient texts |
| Regression.Successes | regressione.py:79-89 | the reference definition of the `results` accumulation: for the first n catalog models, the entries of those that did not raise, in order; at most n of them, each naming a catalog model |
| Regression.PerformRegression | regressione.py:72-108 | `results` is exactly `Successes(outcomes)` and the returned best model, R², coefficients and formula are the `IsSelection` of `results` |
| Regression.SuccessesMembers | regressione.py:79-106 | an entry is in `results` exactly when its model's fit did not raise; a failed model does not keep a later one out |
| Regression.SuccessesInCatalogOrder | regressione.py:79-89 | the entries of `results` name catalog models in strictly increasing catalog order |
| Regression.AllFailedNoResults | regressione.py:77-106 | when every fit raises, `results` is empty |
| Regression.NoResultsNothingSelected | regressione.py:72-77 | with no result, `best_model`, `best_r2`, `best_params`, `best_formula` keep their initial `None`, -inf, `None`, `""` |
| Regression.AllFailed | regressione.py:72-108 | when every fit raises the loop returns `None`, -inf, `None`, `""` and an empty list |
| Regression.SelectedIffSomeAboveNegInf | regressione.py:73-93 | a model is selected exactly when some R² in `results` compares greater than -inf |
| Regression.FiniteScoresSelectMaximum | regressione.py:92-94 | with finite R² values and at least one result, some entry carries the selected name and the best R² |
| Regression.SelectionUnique | regressione.py:92-103 | the selection (maximum under `>`, first maximum wins) fixes model, R², coefficients and formula uniquely |
| Regression.TieGoesToEarlier | regressione.py:92-95 | with equal R² for Linear and Logarithmic, a failed Exponential and a NaN Power Law, Linear and its coefficients are kept |

## Left out

- The Tkinter window, menus, buttons and result text widget (regressione.py:9-20, 110-179): user interface.
- Reading the Excel file and the file dialog (regressione.py:111-124): I/O through pandas and Tk.
- `curve_fit` with `maxfev=10000` and the model functions (regressione.py:31-41, 82-83): an iterative floating-point optimiser in SciPy; its outcome is the input `outcomes`.
- `r2_score`, `mean_absolute_error`, `mean_squared_error` and `math.sqrt` (regressione.py:84-87): floating-point numerics in foreign libraries; their values are opaque `Float`s inside `Fit`, and any exception they raise is a `None` outcome.
- Python's float-to-text conversions `str(value)` and `:.4f`: modelled as the function parameters `repr` and `fixed4`, not reproduced.
- The printed message of a failed model (regressione.py:106): console output.
- The `model_formulas[best_model]` lookup and the rest of `run_regression` (regressione.py:127-150): display code, which would raise on `None` when nothing was selected.
- Formulas.ExcelFormula: the coefficient pair is a two-field value, so the `IndexError` that `params[0]`/`params[1]` would raise on a shorter array is not modelled; `curve_fit` on these two-parameter models always returns two coefficients.
- Regression.PerformRegression: an exception raised by the `:.4f` formatting (regressione.py:97-103) would come after `best_r2`, `best_model` and `best_params` were set to the new entry (regressione.py:93-95) and leave `best_formula` at its previous value (`""` or an earlier model's formula); the model assumes that formatting does not raise.
- Signed zeros and the bit-level value of a float are not distinguished; only the order under `>` is modelled.
