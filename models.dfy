/** The records the handlers persist (Models/CreditModels.cs,
    Models/ExpenseModels.cs, Models/CategoryModels.cs), the anonymous budget
    and analytics-group objects of Handlers/FinanceHandler.cs, and a
    proleptic-Gregorian DateTime. `decimal` is modelled as the exact `real`. */
module Models {
  import opened Text

  /** 100-nanosecond ticks in one day. */
  const TicksPerDay: int := 864_000_000_000

  /** Sum of a sequence of amounts, added left to right. */
  function Sum(xs: seq<real>): (r: real)
  {
    if xs == [] then 0.0 else Sum(xs[..|xs| - 1]) + xs[|xs| - 1]
  }

  /** A .NET DateTime: calendar date plus the ticks elapsed since midnight. */
  datatype DateTime = DateTime(year: int, month: int, day: int, tickOfDay: int)

  predicate IsLeapYear(y: int)
  {
    y % 4 == 0 && (y % 100 != 0 || y % 400 == 0)
  }

  function DaysInMonth(y: int, m: int): (r: int)
    requires 1 <= m <= 12
  {
    if m == 2 then (if IsLeapYear(y) then 29 else 28)
    else if m == 4 || m == 6 || m == 9 || m == 11 then 30
    else 31
  }

  /** A date DateTime can represent (years 1 to 9999). */
  predicate ValidDateTime(d: DateTime)
  {
    1 <= d.year <= 9999 && 1 <= d.month <= 12 && 1 <= d.day <= DaysInMonth(d.year, d.month)
    && 0 <= d.tickOfDay < TicksPerDay
  }

  datatype CreditData = CreditData(InitialAmount: real, CurrentAmount: real, LastUpdated: DateTime)

  datatype PaymentRecord = PaymentRecord(UserId: Long, Amount: real, Date: DateTime, NewBalance: real)

  datatype CategoryRecord = CategoryRecord(UserId: Long, Name: string, PlannedAmount: real, CreatedAt: DateTime)

  /** One expense. Models/Expense.cs declares a different record of the same
      name; the analytics read only Category and Amount, present in both. */
  datatype ExpenseRecord = ExpenseRecord(UserId: Long, Category: string, Amount: real, Description: string, Date: DateTime)

  /** `new { Limit = limit, Spent = 0m }`, the budget object stored by /fin_set_budget. */
  datatype Budget = Budget(Limit: real, Spent: real)

  /** `new { Category = g.Key, Sum = g.Sum(x => x.Amount) }`, one analytics group. */
  datatype CategorySum = CategorySum(Category: string, Sum: real)
}
