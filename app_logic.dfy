/** The pure parts of the calculator screen: which engine function the active tab shows,
    the save gate, the per-field input update, the theme flip and the history updaters. */
module AppLogic {
  import opened Wrappers
  import opened Types
  import opened Calculator

  datatype Tab = Payout | Target
  datatype Theme = Light | Dark

  // ---------------------------------------------------------------------------------------
  // Mode dispatch and the save gate

  /** The target tab shows the inverse solve, every other tab the forward payout. */
  function DisplayedResults(tab: Tab, inputs: CalculatorInputs): (r: CalculationResults)
    ensures r.hoursRequired.Some? <==> tab == Target
    ensures r.hoursPerDay.Some? <==> tab == Target
    ensures r.net >= 0.0
    ensures r.withdrawalFee == inputs.withdrawalFee
  {
    if tab == Target then CalculateTargetHours(inputs) else CalculatePayout(inputs)
  }

  /** Saving is offered only for a positive gross; so a saveable result is never the
      all-zero sentinel of an unreachable target. */
  predicate CanSave(results: CalculationResults): (ok: bool)
    ensures ok ==> forall fee :: !IsUnreachableSentinel(results, fee)
  {
    results.gross > 0.0
  }

  /** On the payout tab a result can be saved exactly when rate times hours is positive. */
  lemma CanSavePayout(inputs: CalculatorInputs)
    ensures CanSave(DisplayedResults(Payout, inputs)) <==> inputs.hourlyRate * inputs.hoursWorked > 0.0
  {
  }

  /** On the target tab a result can be saved exactly when the target is reachable and the
      target plus the withdrawal fee is positive; so the all-zero sentinel is never saved. */
  lemma CanSaveTarget(inputs: CalculatorInputs)
    ensures CanSave(DisplayedResults(Target, inputs))
        <==> !TargetUnreachable(inputs) && TargetOf(inputs) + inputs.withdrawalFee > 0.0
    ensures TargetUnreachable(inputs) ==> !CanSave(DisplayedResults(Target, inputs))
  {
  }

  // ---------------------------------------------------------------------------------------
  // Input update

  /** The editable fields of the inputs record. */
  datatype Field =
    | HourlyRate | HoursWorked | ServiceFeeRate | VatRate | WithdrawalFee
    | ExchangeRate | Currency | TargetNet | WorkingDaysPerWeek | LocalCurrency

  /** What a field currently holds; an absent target reads as `Unset`. */
  datatype FieldValue = Number(n: real) | Text(s: string) | Unset

  /** Currency codes are stored as typed; every other field is numeric. */
  predicate IsTextField(field: Field) {
    field == Currency || field == LocalCurrency
  }

  function Get(inputs: CalculatorInputs, field: Field): FieldValue {
    match field
    case HourlyRate => Number(inputs.hourlyRate)
    case HoursWorked => Number(inputs.hoursWorked)
    case ServiceFeeRate => Number(inputs.serviceFeeRate)
    case VatRate => Number(inputs.vatRate)
    case WithdrawalFee => Number(inputs.withdrawalFee)
    case ExchangeRate => Number(inputs.exchangeRate)
    case Currency => Text(inputs.currency)
    case TargetNet => if inputs.targetNet.Some? then Number(inputs.targetNet.value) else Unset
    case WorkingDaysPerWeek => Number(inputs.workingDaysPerWeek)
    case LocalCurrency => Text(inputs.localCurrency)
  }

  /** The number typed text stands for: empty text is 0, text `parseFloat` cannot read
      (`None`, its NaN) is 0, anything else is what `parseFloat` read. */
  function NumericValue(text: string, parseFloat: string -> Option<real>): (v: real)
    ensures text == "" ==> v == 0.0
    ensures text != "" && parseFloat(text).Some? ==> v == parseFloat(text).value
    ensures v == 0.0 || parseFloat(text) == Some(v)
  {
    var parsed := if text == "" then Some(0.0) else parseFloat(text);
    if parsed.None? then 0.0 else parsed.value
  }

  /** The inputs after the user edits one field. */
  function UpdateField(prev: CalculatorInputs, field: Field, text: string,
                       parseFloat: string -> Option<real>): (r: CalculatorInputs)
    ensures IsTextField(field) ==> Get(r, field) == Text(text)
    ensures !IsTextField(field) ==> Get(r, field) == Number(NumericValue(text, parseFloat))
    ensures forall f :: f != field ==> Get(r, f) == Get(prev, f)
  {
    if IsTextField(field) then
      if field == Currency then prev.(currency := text) else prev.(localCurrency := text)
    else
      var v := NumericValue(text, parseFloat);
      match field
      case HourlyRate => prev.(hourlyRate := v)
      case HoursWorked => prev.(hoursWorked := v)
      case ServiceFeeRate => prev.(serviceFeeRate := v)
      case VatRate => prev.(vatRate := v)
      case WithdrawalFee => prev.(withdrawalFee := v)
      case ExchangeRate => prev.(exchangeRate := v)
      case TargetNet => prev.(targetNet := Some(v))
      case WorkingDaysPerWeek => prev.(workingDaysPerWeek := v)
  }

  /** Typing the same text into the same field twice changes nothing the second time. */
  lemma UpdateFieldIdempotent(prev: CalculatorInputs, field: Field, text: string,
                                                 parseFloat: string -> Option<real>)
    ensures var once := UpdateField(prev, field, text, parseFloat);
      UpdateField(once, field, text, parseFloat) == once
  {
  }

  // ---------------------------------------------------------------------------------------
  // Theme

  function Toggled(theme: Theme): (r: Theme)
    ensures r != theme
  {
    if theme == Light then Dark else Light
  }

  /** Toggling twice gives back the theme one started with. */
  lemma ToggleTwice(theme: Theme)
    ensures Toggled(Toggled(theme)) == theme
  {
  }

  // ---------------------------------------------------------------------------------------
  // History

  /** The entry a save records: the shown results, a fresh id, the time and the inputs. */
  function Snapshot(results: CalculationResults, inputs: CalculatorInputs, id: string,
                    timestamp: int): (e: HistoryEntry)
    ensures e.results == results && e.inputs == inputs && e.id == id && e.timestamp == timestamp
  {
    HistoryEntry(results, id, timestamp, inputs)
  }

  /** Saving puts the new entry in front; the older entries follow in their order. */
  function Prepend(history: seq<HistoryEntry>, entry: HistoryEntry): (r: seq<HistoryEntry>)
    ensures |r| == |history| + 1
    ensures r[0] == entry
    ensures forall i :: 0 <= i < |history| ==> r[i + 1] == history[i]
  {
    [entry] + history
  }

  /** The history without the entries that carry `id`. */
  function RemoveById(history: seq<HistoryEntry>, id: string): (r: seq<HistoryEntry>)
    ensures |r| <= |history|
    ensures forall e :: e in r <==> e in history && e.id != id
  {
    if history == [] then []
    else if history[0].id == id then RemoveById(history[1..], id)
    else [history[0]] + RemoveById(history[1..], id)
  }

  /** Deleting an id nobody carries leaves the history as it was. */
  lemma {:induction false} RemoveByIdAbsent(history: seq<HistoryEntry>, id: string)
    requires forall e :: e in history ==> e.id != id
    ensures RemoveById(history, id) == history
  {
    if history != [] {
      assert history == [history[0]] + history[1..];
      RemoveByIdAbsent(history[1..], id);
    }
  }

  /** Deleting works piecewise, so the kept entries stay in their original relative order. */
  lemma {:induction false} RemoveByIdAppend(a: seq<HistoryEntry>, b: seq<HistoryEntry>, id: string)
    ensures RemoveById(a + b, id) == RemoveById(a, id) + RemoveById(b, id)
  {
    if a == [] {
      assert a + b == b;
    } else {
      assert (a + b)[0] == a[0];
      assert (a + b)[1..] == a[1..] + b;
      RemoveByIdAppend(a[1..], b, id);
    }
  }

  /** Deleting the same id twice is the same as deleting it once. */
  lemma RemoveByIdIdempotent(history: seq<HistoryEntry>, id: string)
    ensures RemoveById(RemoveById(history, id), id) == RemoveById(history, id)
  {
  }

  /** No two entries share an id. */
  predicate IdsDistinct(history: seq<HistoryEntry>) {
    forall i, j :: 0 <= i < j < |history| ==> history[i].id != history[j].id
  }

  /** Deleting a just-saved entry by its (fresh) id restores the history before the save. */
  lemma SaveThenDelete(history: seq<HistoryEntry>, entry: HistoryEntry)
    requires forall e :: e in history ==> e.id != entry.id
    ensures RemoveById(Prepend(history, entry), entry.id) == history
  {
    assert Prepend(history, entry)[1..] == history;
    RemoveByIdAbsent(history, entry.id);
  }

  /** Saving under a fresh id keeps ids distinct. */
  lemma PrependKeepsIdsDistinct(history: seq<HistoryEntry>, entry: HistoryEntry)
    requires IdsDistinct(history)
    requires forall e :: e in history ==> e.id != entry.id
    ensures IdsDistinct(Prepend(history, entry))
  {
  }

  /** Deleting keeps ids distinct. */
  lemma {:induction false} RemoveByIdKeepsIdsDistinct(history: seq<HistoryEntry>, id: string)
    requires IdsDistinct(history)
    ensures IdsDistinct(RemoveById(history, id))
  {
    if history != [] {
      var tail := history[1..];
      assert IdsDistinct(tail) by {
        forall i, j | 0 <= i < j < |tail| ensures tail[i].id != tail[j].id {
          assert tail[i] == history[i + 1] && tail[j] == history[j + 1];
        }
      }
      RemoveByIdKeepsIdsDistinct(tail, id);
      if history[0].id != id {
        var rest := RemoveById(tail, id);
        var r := [history[0]] + rest;
        forall i, j | 0 <= i < j < |r| ensures r[i].id != r[j].id {
          if i == 0 {
            assert r[j] == rest[j - 1];
            assert r[j] in tail;
            var k :| 0 <= k < |tail| && tail[k] == r[j];
            assert history[k + 1] == r[j];
          } else {
            assert r[i] == rest[i - 1] && r[j] == rest[j - 1];
          }
        }
      }
    }
  }

  /** Clearing empties the history only once the user confirmed. */
  function ClearIfConfirmed(history: seq<HistoryEntry>, confirmed: bool): (r: seq<HistoryEntry>)
    ensures confirmed ==> r == []
    ensures !confirmed ==> r == history
  {
    if confirmed then [] else history
  }
}
