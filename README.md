# FreelanceCalc payout engine in Dafny

A model of the freelance payout calculator: the forward payout formula (gross from rate and
hours, a percentage service fee, VAT charged on that fee, a fixed withdrawal fee, the net
floored at zero and converted by an exchange-rate multiplier), its inverse (the hours needed
for a target net payout, with an all-zero sentinel when no hours can reach it), and the
calculator screen's state: the active tab that picks forward or inverse, the per-field input
update, the save gate, the theme toggle and the saved-calculation history.

Files:

- `wrappers.dfy` — `Option`, for the source's optional fields.
- `types.dfy` — `CalculatorInputs`, `CalculationResults`, `HistoryEntry` (from `types.ts`) and
  the screen's default inputs (from `App.tsx`).
- `calculator.dfy` — `CalculatePayout`, `CalculateTargetHours` and the lemmas about them
  (from `utils/calculator.ts`).
- `app_logic.dfy` — the pure updaters used by the screen (from `App.tsx`): mode dispatch,
  save gate, field update, theme flip, history prepend, delete-by-id and clear.
- `app.dfy` — class `PayoutApp`, whose fields are the screen's state and whose methods are its
  event handlers.

All amounts are Dafny `real`, so every identity holds exactly. In particular the round trip
target → hours → net is exact, where the JavaScript version holds only up to rounding.
`HistoryEntry` holds the results record as a field (`results`), where the TypeScript
interface extends it.

## Model

| member | source | states |
|---|---|---|
| Calculator.CalculatePayout | utils/calculator.ts:3-34 | gross is rate × hours; the service fee is gross × s/100; VAT is gross × s/100 × v/100, i.e. charged on the fee; subtotal is gross − fee − VAT, which is gross times the retention divisor; net is ≥ 0, ≥ subtotal − withdrawal fee, and equals one of the two; deductions are the nominal sum of fee, VAT and withdrawal fee; local net is net × rate, or net when the rate is 0; the withdrawal fee is echoed; no hour fields |
| Calculator.CalculateTargetHours | utils/calculator.ts:36-91 | withdrawal fee echoed in both branches; both hour fields present; net ≥ 0; when the divisor is ≤ 0 or the rate ≤ 0 the result is the all-zero sentinel |
| Calculator.EffectiveExchangeRate | utils/calculator.ts:22 | a zero rate gives the multiplier 1, any other rate is used as given, so the multiplier is never 0 |
| Calculator.NetClamp | utils/calculator.ts:16-20 | net is subtotal − withdrawal fee when that is non-negative; when the fee reaches the subtotal net is 0 and the full fee is still in the deductions |
| Calculator.DeductionsReconcile | utils/calculator.ts:19-20 | net + deductions = gross + the part of the withdrawal fee that the zero floor absorbed |
| Calculator.NetMonotoneInHours | utils/calculator.ts:13-19 | with a non-negative rate and divisor, more hours never pay out less |
| Calculator.TargetRoundTrip | utils/calculator.ts:74-89 | when the target is reachable, gross = (target + withdrawal fee)/divisor = rate × hoursRequired, subtotal = target + withdrawal fee, net = max(0, target), so net = target for a non-negative target; an absent target counts as 0 |
| Calculator.TargetAgreesWithForward | utils/calculator.ts:81-90 | the inverse breakdown equals the forward result for the solved hours |
| Calculator.TargetHoursMinimal | utils/calculator.ts:74-75 | for a positive reachable target, h hours pay out at least the target exactly when h ≥ hoursRequired |
| Calculator.HoursPerDaySplit | utils/calculator.ts:59-78 | hoursPerDay × working days = hoursRequired when there are working days, else hoursPerDay is 0 |
| Calculator.UnreachableEarnsNothing | utils/calculator.ts:56-59 | for a non-negative rate and withdrawal fee: when the guard fires (divisor ≤ 0 or rate 0), no non-negative hours pay out anything |
| Calculator.TargetGrossPositive | utils/calculator.ts:59-75 | the inverse gross is positive exactly when the guard does not fire and target + withdrawal fee > 0 |
| Calculator.ForwardExample | utils/calculator.ts:13-22 | 50/h × 40 h, 10% fee, 20% VAT, 30 withdrawal: gross 2000, fee 200, VAT 40, subtotal 1760, net 1730, local 1730 |
| Calculator.TargetExample | utils/calculator.ts:54-78 | target 1000 with the same fees: gross 12875/11, 515/22 hours, 103/22 hours a day, net 1000 |
| Calculator.FullFeeExample | utils/calculator.ts:54-71 | a 100% fee with 0% VAT gives divisor 0 and the sentinel |
| AppLogic.DisplayedResults | App.tsx:39-44 | hour fields are present exactly on the target tab; net ≥ 0; withdrawal fee echoed |
| AppLogic.CanSave | App.tsx:246 | a saveable result is never the all-zero sentinel of an unreachable target |
| AppLogic.CanSavePayout | App.tsx:246 | on the payout tab saving is enabled exactly when rate × hours > 0 |
| AppLogic.CanSaveTarget | App.tsx:246 | on the target tab saving is enabled exactly when the target is reachable and target + withdrawal fee > 0; the sentinel can never be saved |
| AppLogic.NumericValue | App.tsx:61-65 | empty text gives 0; otherwise the parsed number, or 0 when the parse fails |
| AppLogic.UpdateField | App.tsx:54-67 | the edited field holds the text (currency fields) or its numeric value; every other field is unchanged |
| AppLogic.UpdateFieldIdempotent | App.tsx:54-67 | repeating the same edit changes nothing |
| AppLogic.Toggled | App.tsx:69-71 | the toggled theme is the other one of the two themes, so light becomes dark and dark becomes light |
| AppLogic.ToggleTwice | App.tsx:69-71 | toggling twice gives back the original theme |
| AppLogic.Snapshot | App.tsx:74-79 | the entry carries the shown results, the given id and time, and the inputs |
| AppLogic.Prepend | App.tsx:80 | one more entry; the new one first; the previous entries follow in order |
| AppLogic.RemoveById | App.tsx:83-85 | the kept entries are exactly those of the history whose id differs; never longer |
| AppLogic.RemoveByIdAbsent | App.tsx:83-85 | deleting an id no entry carries leaves the history unchanged |
| AppLogic.RemoveByIdAppend | App.tsx:83-85 | delete distributes over concatenation, so kept entries keep their relative order |
| AppLogic.RemoveByIdIdempotent | App.tsx:83-85 | deleting twice equals deleting once |
| AppLogic.SaveThenDelete | App.tsx:73-85 | deleting a just-saved entry by its fresh id restores the earlier history |
| AppLogic.PrependKeepsIdsDistinct | App.tsx:76-80 | saving under a fresh id keeps ids distinct |
| AppLogic.RemoveByIdKeepsIdsDistinct | App.tsx:83-85 | deleting keeps ids distinct |
| AppLogic.ClearIfConfirmed | App.tsx:87-91 | confirmed gives the empty history, unconfirmed the unchanged one |
| App.PayoutApp.constructor | App.tsx:20-36 | light theme, payout tab, the default inputs, empty history |
| App.PayoutApp.Results | App.tsx:39-44 | hour fields present exactly on the target tab; net ≥ 0 |
| App.PayoutApp.SetField | App.tsx:54-67 | inputs become the field update of the old inputs; no other field and no other state changes |
| App.PayoutApp.SelectTab | App.tsx:127-148 | the active tab is the chosen one |
| App.PayoutApp.ToggleTheme | App.tsx:69-71 | the theme flips; nothing else changes |
| App.PayoutApp.Save | App.tsx:73-81 | the history gains the snapshot of the shown results and inputs in front; the old entries follow unchanged |
| App.PayoutApp.PressSave | components/SummaryCard.tsx:150-152 | the button saves exactly when the shown gross is positive, otherwise the history is unchanged |
| App.PayoutApp.Delete | App.tsx:83-85 | the history becomes the id-filtered old history |
| App.PayoutApp.ClearHistory | App.tsx:87-91 | empty after confirmation, unchanged otherwise |

## Left out

- Rendering and markup (the components and the JSX in `App.tsx`): display only.
- `formatCurrency`: a wrapper over the platform's number formatter.
- CSV export (`utils/csv.ts`): floating-point `toFixed`, date formatting and file download.
- Persistence of theme, tab, inputs and history in local storage: the screen starts from the
  defaults and keeps its state in the object. The hook that does it is not part of this model.
- The class added to the document root for the theme (`App.tsx:47-51`).
- `crypto.randomUUID`, `Date.now` and `window.confirm` are parameters of `Save`, `PressSave`
  and `ClearHistory` (the id, the time and the answer).
- `parseFloat` is a parameter `string -> Option<real>`; `None` stands for NaN.
- IEEE-754 behaviour (NaN, infinities, rounding): all amounts are exact reals.
- AppLogic.NumericValue: a parse result of ±Infinity is not represented.
- Unique ids: they come from `crypto.randomUUID`, so they are not an invariant of the class; `PrependKeepsIdsDistinct` states what a fresh id guarantees.
