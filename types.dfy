/** The records the calculator works on: its inputs, its results and a saved history entry. */
module Types {
  import opened Wrappers

  /** What the user types in. Amounts are base-currency units, `serviceFeeRate` and `vatRate`
      are percentages written as whole numbers (10 means 10%), `exchangeRate` is how many
      local-currency units one base unit buys. `targetNet` is only used when solving for hours. */
  datatype CalculatorInputs = CalculatorInputs(
    hourlyRate: real,
    hoursWorked: real,
    serviceFeeRate: real,
    vatRate: real,
    withdrawalFee: real,
    exchangeRate: real,
    currency: string,
    targetNet: Option<real>,
    workingDaysPerWeek: real,
    localCurrency: string
  )

  /** The payout breakdown. `hoursRequired` and `hoursPerDay` are only filled in target mode. */
  datatype CalculationResults = CalculationResults(
    gross: real,
    serviceFeeAmount: real,
    vatAmount: real,
    subtotal: real,
    withdrawalFee: real,
    totalDeductions: real,
    net: real,
    netInLocalCurrency: real,
    hoursRequired: Option<real>,
    hoursPerDay: Option<real>
  )

  /** The inputs the calculator screen starts with before the user types anything. */
  const DefaultInputs := CalculatorInputs(50.0, 40.0, 10.0, 20.0, 30.0, 1.0, "USD", Some(1000.0), 5.0, "TRY")

  /** A saved calculation: the results it showed, a unique id, the creation time in
      milliseconds and a snapshot of the inputs that produced it. */
  datatype HistoryEntry = HistoryEntry(
    results: CalculationResults,
    id: string,
    timestamp: int,
    inputs: CalculatorInputs
  )
}
