/** The calculator screen's state and its event handlers. */
module App {
  import opened Wrappers
  import opened Types
  import opened AppLogic

  class PayoutApp {
    var theme: Theme
    var activeTab: Tab
    var inputs: CalculatorInputs
    var history: seq<HistoryEntry>

    /** A fresh screen: light theme, payout tab, the default inputs and no history. */
    constructor ()
      ensures theme == Light && activeTab == Payout
      ensures inputs == DefaultInputs && history == []
    {
      theme := Light;
      activeTab := Payout;
      inputs := DefaultInputs;
      history := [];
    }

    /** The results the screen shows, recomputed from the tab and the inputs. */
    function Results(): (r: CalculationResults)
      reads this
      ensures r.hoursRequired.Some? <==> activeTab == Target
      ensures r.net >= 0.0
    {
      DisplayedResults(activeTab, inputs)
    }

    /** The user typed `value` into `field`; `parseFloat` reads a number or gives `None`. */
    method SetField(field: Field, value: string, parseFloat: string -> Option<real>)
      modifies this`inputs
      ensures inputs == UpdateField(old(inputs), field, value, parseFloat)
      ensures forall f :: f != field ==> Get(inputs, f) == Get(old(inputs), f)
    {
      inputs := UpdateField(inputs, field, value, parseFloat);
    }

    /** The user switched between the payout and the target tab. */
    method SelectTab(tab: Tab)
      modifies this`activeTab
      ensures activeTab == tab
    {
      activeTab := tab;
    }

    method ToggleTheme()
      modifies this`theme
      ensures theme == Toggled(old(theme)) && theme != old(theme)
    {
      theme := Toggled(theme);
    }

    /** Records the shown results and a copy of the inputs in front of the history. */
    method Save(id: string, timestamp: int)
      modifies this`history
      ensures history == Prepend(old(history), Snapshot(Results(), inputs, id, timestamp))
      ensures |history| == |old(history)| + 1 && history[1..] == old(history)
      ensures history[0].results == Results() && history[0].inputs == inputs
    {
      history := Prepend(history, Snapshot(Results(), inputs, id, timestamp));
    }

    /** The save button: it is disabled unless the shown gross is positive. */
    method PressSave(id: string, timestamp: int) returns (saved: bool)
      modifies this`history
      ensures saved == CanSave(Results())
      ensures saved ==> history == Prepend(old(history), Snapshot(Results(), inputs, id, timestamp))
      ensures !saved ==> history == old(history)
    {
      saved := CanSave(Results());
      if saved {
        Save(id, timestamp);
      }
    }

    /** Removes every entry carrying `id`. */
    method Delete(id: string)
      modifies this`history
      ensures history == RemoveById(old(history), id)
      ensures forall e :: e in history <==> e in old(history) && e.id != id
    {
      history := RemoveById(history, id);
    }

    /** Empties the history once the user confirmed. */
    method ClearHistory(confirmed: bool)
      modifies this`history
      ensures history == ClearIfConfirmed(old(history), confirmed)
      ensures confirmed ==> history == []
      ensures !confirmed ==> history == old(history)
    {
      history := ClearIfConfirmed(history, confirmed);
    }
  }
}
