# Eraj services: a verified model

This Dafny project models five parts of the Eraj school-management backend and proves what they
promise: the fees ledger, the hostel (beds, mess, gate), the timetable, exam results, and amounts in
words. A last group of modules takes the transactions apart into their steps and proves what holds
however they interleave.

Money, marks and percentages are whole hundredths and credits whole tenths; a value before rounding is
an exact real. Days are proleptic Gregorian ordinals, months are counted as 12 * year + month - 1. A
`Conflict` stands for any refusal, after which the transaction is rolled back.

`dafny verify dfyconfig.toml` checks everything.

## How it is laid out

Each part has a model on values (`LedgerModel`, `MessModel`, `GateModel`, `HostelModel`,
`TimetableModel`, `ExamModel`): a state, and every service as a step from state to state. Theorems
about all runs are proved there. The classes (`FeesService.Ledger`, `MessService.MessBook`,
`GateService.Gate`, `HostelService.Hostel`, `TimetableService.Timetable`, `MarksService.Register`)
update their fields row by row, in loops, as the services do, and each method is proved to take the
step of the model, or to leave no trace when it is refused.

What a step answers is stated a second time without the model's own functions: sums over lines, counts of
days and minutes, nearest whole numbers, and the exact conditions of acceptance (`LedgerConcessions`,
`LedgerAcceptance`, `LedgerAmounts`, `MessAmounts`, `HostelAmounts`, `GateDays`, `TimetableTimes`,
`ExamTotals`, `ExamYears`, `NumWordsParts`).

| files | part |
|---|---|
| `Rounding`, `Sums`, `Text`, `Dates`, `Wrappers` | rounding, sums, keys, calendar, options |
| `NumWords`, `NumWordsParts` | amounts in words |
| `LedgerModel`, `LedgerInvariants`, `LedgerBalances`, `LedgerPayments`, `LedgerBilling`, `LedgerFines`, `LedgerFineRuns`, `LedgerSums`, `LedgerConcessions`, `LedgerAcceptance`, `LedgerAmounts`, `Ledger`, `Tally` | fees ledger and its export |
| `MessModel`, `MessCounting`, `MessBilling`, `MessRebates`, `MessJob`, `MessAmounts`, `Mess` | mess leave, bills, contractor |
| `GateModel`, `GateSafety`, `GateDays`, `Gate` | outpasses and their leave |
| `HostelModel`, `HostelSafety`, `HostelAmounts`, `Hostel` | allocation, vacating, hostel fees |
| `TimetableModel`, `TimetableSafety`, `TimetableTimes`, `Timetable`, `Grids` | placing periods, substitutes, printed grids |
| `ExamModel`, `ExamAverages`, `ExamMarks`, `ExamRanks`, `ExamResults`, `ExamCredits`, `ExamTotals`, `ExamAnnual`, `ExamYears` | marks, results, ranks, annual results |
| `ConcurrentReceipts`, `ConcurrentBeds`, `ConcurrentPeriods`, `ConcurrentPayments`, `ConcurrentRefunds` | interleaved transactions |

## What turned out not to hold

The model follows the code. Where the code falls short of its own words a lemma gives the input, and
where a condition decides, another states it for all inputs.

- `apps/fees/models.py:10` adds refunds back to what is outstanding; the code and
  `apps/fees/selectors.py:5-12` do not (`LedgerBalances.RefundReopensNothing`).
- Explicit payment and refund lines are checked one by one, so two lines on one charge can take its due
  twice (`LedgerPayments.TwoLinesOverCollect`). Over-collection happens in no other way
  (`LedgerPayments.RunCoversIffFitting`).
- Cancelling a receipt does not look at refunds, so the money paid on a charge can fall below zero
  (`LedgerPayments.CancelAfterRefundGoesNegative`, `LedgerPayments.CancelKeepsPaidIff`).
- Approving an outpass fails when the open mess membership starts after the pass ends
  (`GateSafety.ApprovalRefusedExactly`).
- `apps/exam/services.py:7` leaves out that a paper in a fail band fails the student even above its pass
  marks (`ExamResults.PassedExactly`, `ExamResults.DocumentedRuleIsNotEnough`).
- Credits are not checked to be positive. Before it is rounded, an SGPA can leave the grade scale exactly
  when two papers have credits of opposite signs, unless they are one pair that cancels
  (`ExamCredits.SgpaStaysWithinIff`, `ExamCredits.OppositeCreditsLeave`); likewise a CGPA
  (`ExamCredits.CgpaStaysWithinIff`).
- The annual overall percentage counts an exam without a row for the student as 0, the subject
  percentages skip it (`ExamAnnual.MissingExamCountsZero`, `ExamAnnual.SubjectSkipsMissing`).
- A locked section does not protect a student whom another section of the exam lists too
  (`ExamMarks.LockHoldsIff`).
- `suggest` looks at one branch, so a teacher with a period in another branch at that time can be
  confirmed (`TimetableSafety.SubstitutesFreeIff`, `TimetableSafety.SubstituteTeachingElsewhere`).
- The monthly mess job is not one transaction: a refused bill stops it and leaves the bills before it
  (`MessService.MessBook.BillMess`). Running it again changes nothing (`MessJob.JobTwiceIsJobOnce`).
- `apps/hostel/services.py:1-3` says vacating locks the room; it locks only the allocation. Beds are
  safe all the same (`ConcurrentBeds.BedsAreNeverOversold`).
- `place` locks the teacher only, so rooms are safe one transaction at a time
  (`TimetableSafety.TimetableStaysClashFree`) but not when two offices place rival periods at once, and
  only then (`ConcurrentPeriods.RoomsClashIff`, `ConcurrentPeriods.RoomsStayApart`).
- `collect` locks the charges that are live when it starts and pays those that are live when it reads
  them; posting, cancelling and deciding recompute discounts from an unlocked read. So two payments that
  find nothing to lock can both take a new charge (`ConcurrentPayments.TwoFirstPaymentsOverCollect`), a
  new charge can be cancelled under a payment (`ConcurrentPayments.MoneyOnACancelledCharge`), and a
  payment between a recompute's read and save can be over-collected
  (`ConcurrentPayments.ConcessionRacesPayment`). `ConcurrentPayments.RunNeverOverIff` says exactly when
  over-collection occurs and `ConcurrentPayments.RunStrayIff` when a cancelled charge is paid;
  `LockedPaymentsAreSafe` and `CountersNeverOverCollect` give conditions that can be kept to.
- `refund` locks the charges that are live when it starts, cancelling a receipt locks no charge: a receipt
  can be cancelled under a refund (`ConcurrentRefunds.VoidRacesRefund`), and two refunds that find nothing
  to lock can pay the same money back twice (`ConcurrentRefunds.TwoFirstRefundsOverpay`).
  `ConcurrentRefunds.RunNonNegativeIff` says exactly when more goes back than was paid.

## Model

| member | source | states |
|---|---|---|
| `Rounding.NearestTiesAway` | apps/fees/services.py:36-37 | `money` is the only whole number of paise nearest to the exact value that sends ties away from zero |
| `Rounding.Between` | apps/exam/services.py:29-30 | rounding to hundredths never leaves an interval whose ends are hundredths |
| `NumWords.PrintNumber` | apps/core/numwords.py:32-47 | the loop over crore, lakh and thousand, with `n` reduced by `divmod` and parts appended, prints the same text as the recursive definition; it terminates for every natural number |
| `NumWords.NumberRoundTrip` | apps/core/numwords.py:15-47 | a reader of the words returns n from the words for n, for every natural n, nested "Crore Crore" included |
| `NumWords.NumberInWordsInjective` | apps/core/numwords.py:32-47 | two numbers with the same words are equal |
| `NumWords.RupeesRoundTrip` | apps/core/numwords.py:50-59 | a reader returns from `rupees_in_words` the amount rounded to paise, with its sign |
| `NumWordsParts.WordsBelowTwenty` | apps/core/numwords.py:8-18 | the numbers below twenty are printed as their English words |
| `NumWordsParts.WordsOfTens` | apps/core/numwords.py:15-18 | so are the tens, with the ones after a hyphen |
| `NumWordsParts.WordsOfHundreds` | apps/core/numwords.py:21-29 | hundreds are their number, "Hundred", and the words of what is left |
| `NumWordsParts.WordsOfThousands` | apps/core/numwords.py:32-47 | likewise thousands |
| `NumWordsParts.WordsOfLakhs` | apps/core/numwords.py:32-47 | likewise lakhs |
| `NumWordsParts.WordsOfCrores` | apps/core/numwords.py:32-47 | likewise crores, any number of them |
| `NumWordsParts.WordsOfAmount` | apps/core/numwords.py:50-59 | an amount is its sign, its whole rupees, its paise if there are any, and "Only" |
| `Dates.AddMonthsMoves` | apps/hostel/dates.py:17-21 | `add_months` gives a valid date exactly n months on, for every year and any n, keeping the day or taking the month's last |
| `Dates.NextMonthStart` | apps/hostel/dates.py:5-21 | `add_months(month_start, 1)` is `month_end` plus one day |
| `Dates.NextMonthFollows` | apps/hostel/dates.py:5-14 | months follow one another without a gap or an overlap, across leap years and centuries |
| `Dates.OneMonth` | apps/hostel/dates.py:5-14 | a day lies in one month only |
| `Dates.OrdinalRoundTrip` | apps/hostel/dates.py:5-36 | valid dates and day numbers correspond one to one |
| `Dates.OrdinalOrder` | apps/hostel/dates.py:24-36 | comparing dates is comparing day numbers |
| `Dates.KnownDays` | apps/hostel/dates.py:1-36 | day numbers start on 1 January of year 1; 1 January 1970 and 2024 have their known numbers |
| `Dates.LengthsOfMonths` | apps/hostel/dates.py:9-21 | the lengths of the twelve months, with the leap years of the Gregorian calendar |
| `Dates.OverlapIsIntersection` | apps/hostel/dates.py:39-42 | a day is in `overlap` exactly when it is in both intervals, an open end included |
| `Dates.MonthsBetween` | apps/hostel/dates.py:24-29 | the generator yields each month from the first to the last once, in order, and stops; nothing when the last is earlier |
| `Dates.Days` | apps/hostel/dates.py:32-36 | the generator yields each day from start to end once, in order |
| `FeesService.Ledger.Post` | apps/fees/services.py:62-102 | posting either returns the existing live charge of the key or adds one and recomputes the discounts of its head and year; a refusal leaves everything as it was |
| `FeesService.Ledger.PostBatch` | apps/fees/services.py:161-196 | a plan run, or an enrolment's billing by a plan, posts its instalments in turn, or leaves no trace |
| `FeesService.Ledger.CancelFutureCharges` | apps/fees/services.py:106-123 | cancels the selected unpaid charges and returns how many there were |
| `FeesService.Ledger.Cancel` | apps/fees/services.py:127-139 | one charge is cancelled unless money was taken against it |
| `FeesService.Ledger.RecomputeDiscounts` | apps/fees/services.py:200-217 | every charge of the head and year gets the sum of the approved concessions, each rounded, capped by what is not yet received |
| `FeesService.Ledger.Decide` | apps/fees/services.py:221-232 | a pending concession is decided once; approval recomputes the discounts |
| `FeesService.Ledger.AllocateOldest` | apps/fees/services.py:269-280 | the loop with `remaining` and `lines` spreads an amount over the dues in the given order |
| `FeesService.Ledger.CheckLines` | apps/fees/services.py:286-296 | lines pass exactly when each is positive, on a live charge of the student and within its limit; the total is their sum |
| `FeesService.Ledger.CollectPayment` | apps/fees/services.py:253-307 | a payment takes the next number and its lines in one step, or is refused and leaves no trace, the counter included |
| `FeesService.Ledger.VoidReceipt` | apps/fees/services.py:311-324 | a live receipt is cancelled, given a reason, and keeps its number |
| `FeesService.Ledger.RefundPayment` | apps/fees/services.py:328-350 | a refund adds its row and changes nothing else, or is refused |
| `FeesService.Ledger.FineCharge` | apps/fees/services.py:368-388 | one overdue charge gets a fine, or its fine grows |
| `FeesService.Ledger.ApplyLateFines` | apps/fees/services.py:355-389 | the loop over the overdue charges of a branch |
| `LedgerInvariants.StepKeepsInv` | apps/fees/services.py:62-389 | every operation keeps: a receipt is the sum of its lines, no live receipt line lies on a cancelled charge, at most one live charge per key, numbers are gap-free |
| `LedgerInvariants.RunKeepsInv` | apps/fees/services.py:62-389 | these hold after every run; in each branch and financial year the receipts are numbered 1, 2, ... up to the counter |
| `LedgerBalances.MoneyIsConserved` | apps/fees/selectors.py:25-47 | after every run, a student's live receipts add up to what is received on the student's live charges |
| `LedgerBalances.DuesAreChargedLessReceipts` | apps/fees/selectors.py:25-69 | after every run, what a student owes is what was charged net of discounts, less the live receipts, whatever was refunded |
| `LedgerBalances.RefundReopensNothing` | apps/fees/selectors.py:5-12 | a refund changes no outstanding amount |
| `LedgerBalances.CancelReopens` | apps/fees/services.py:311-324 | cancelling a receipt gives each charge back exactly what the receipt had put on it |
| `LedgerBalances.CollectCoversIffFits` | apps/fees/services.py:286-305 | from a state without over-collection, a payment keeps it so if and only if its lines on each charge together stay within what is due there |
| `LedgerConcessions.DecisionTakesOff` | apps/fees/services.py:200-232 | a pending concession is decided once; approval gives each live positive charge of its student, head and year the sum of what the approved concessions come to, but at most what is not received; nothing else moves |
| `LedgerConcessions.ConcessionTakesOff` | apps/fees/services.py:211 | a percentage comes to the paise nearest to it, ties up, in whole numbers; a fixed concession to its value |
| `LedgerConcessions.OnlyConcessionTakesOff` | apps/fees/services.py:200-232 | the only approved concession of an account discounts each charge by what it comes to, but at most what is not received |
| `LedgerConcessions.ConcessionsStayInBounds` | apps/fees/models.py:176-213 | over every run concessions are positive, and percentages at most a hundred |
| `LedgerAcceptance.LinesAcceptedExactly` | apps/fees/services.py:253-307 | a payment of given lines is accepted exactly with cash or a reference, with some line, and with each line positive and at most the charge less its discount and live receipt lines; the row it writes |
| `LedgerAcceptance.AmountAcceptedExactly` | apps/fees/services.py:253-307 | a payment by amount is accepted exactly for a positive amount up to the sum of the student's dues; its lines add up to it, each charge once, and clear every due that falls due first |
| `LedgerAcceptance.RefundAcceptedExactly` | apps/fees/services.py:328-350 | a refund is accepted exactly when its total is positive and each line is positive, on a live charge of the student and at most the live receipt lines less earlier refund lines |
| `LedgerAcceptance.DistinctRefundKeepsPaid` | apps/fees/services.py:328-350 | a refund with at most one line for each charge never gives back more than was paid |
| `LedgerAcceptance.RefundUsesUp` | apps/fees/services.py:328-350 | what is left to give back shrinks by exactly the line |
| `LedgerAcceptance.CancelledExactly` | apps/fees/services.py:311-324 | a receipt is cancelled exactly once, with a reason, and only its mark changes |
| `LedgerAcceptance.FinancialYearIs` | apps/fees/services.py:45-47 | a day belongs to the year from 1 April to the 31 March after |
| `LedgerAmounts.PostRefusedExactly` | apps/fees/services.py:75-80 | a posting is refused exactly for a head of another branch, or below zero unless manual |
| `LedgerAmounts.PostAddsWhatIsAsked` | apps/fees/services.py:62-102 | a new charge has the student, head, date, key, year and, to the paise, the amount asked for, and its account the discounts its concessions give |
| `LedgerAmounts.CancelledChargeExactly` | apps/fees/services.py:127-139 | refused exactly on a live charge with money on it; otherwise the charge ends up cancelled and the rest of its account is discounted anew |
| `LedgerAmounts.FutureCancelledExactly` | apps/fees/services.py:106-123 | exactly the live charges of the student, source, prefix and dates without money are cancelled |
| `LedgerAmounts.PlanPostsExactly` | apps/fees/services.py:142-174 | a plan run posts exactly each instalment, on its date and for its amount, for each active enrolment of its branch, year, program and term |
| `LedgerAmounts.EnrolPostsExactly` | apps/fees/services.py:177-196 | billing an enrolment posts exactly each instalment of each plan that matches it |
| `LedgerAmounts.BillingChargesAsPlanned` | apps/fees/services.py:142-196 | afterwards each instalment whose key was free is charged for its amount, on its date, head and year |
| `LedgerAmounts.FineByDay` | apps/fees/services.py:368-375 | no fine up to the last grace day; a flat one stays, a daily one grows by a day's fine each day |
| `LedgerAmounts.OverdueExactly` | apps/fees/services.py:360-367 | a run looks at exactly the branch's live charges under a rule that are no fines and not settled |
| `LedgerAmounts.FirstFineAsRuled` | apps/fees/services.py:376-385 | a first fine is charged for the rule's amount, on the day of the run, to the charge's student and year |
| `LedgerPayments.SortedByDueCorrect` | apps/fees/services.py:273 | the charges paid are taken in (due_date, id) order, all of them and no other |
| `LedgerPayments.OldestDuesFirst` | apps/fees/services.py:266-282 | a payment by amount is accepted exactly when it is positive and at most the sum of the positive dues; its lines then add up to it, none exceeds its charge, and every due before one that is paid is cleared |
| `LedgerPayments.AmountFits` | apps/fees/services.py:266-305 | a payment by amount can never over-collect a charge |
| `LedgerPayments.StepCoversIffFitting` | apps/fees/services.py:200-389 | any operation keeps 0 <= discount, 0 <= received and received + discount <= amount on every live charge, if and only if it is not an explicit payment whose lines on one charge exceed its due |
| `LedgerPayments.RunCoversIffFitting` | apps/fees/services.py:200-389 | over every run, over-collection never occurs if and only if no such explicit payment occurs |
| `LedgerPayments.TwoLinesOverCollect` | apps/fees/services.py:286-297 | two explicit lines for the whole due of one charge are both accepted, and the charge ends up paid twice |
| `LedgerPayments.CancelKeepsPaidIff` | apps/fees/services.py:311-324 | cancelling a receipt keeps money paid at zero or more exactly when no charge on it has been refunded below its lines |
| `LedgerPayments.RefundKeepsPaidIff` | apps/fees/services.py:334-348 | a refund keeps money paid at zero or more exactly when its lines on each charge together fit what was paid |
| `LedgerPayments.RunKeepsPaidIff` | apps/fees/services.py:253-350 | over every run, money paid on a charge never falls below zero if and only if every receipt cancelled and every refund fits what was paid |
| `LedgerPayments.CancelAfterRefundGoesNegative` | apps/fees/services.py:311-350 | paying a charge, refunding it and cancelling the receipt leaves less than nothing paid |
| `LedgerBilling.AtMostOneLive` | apps/fees/models.py:151-158 | at most one live charge per student, source and non-empty key, and the key search finds it exactly when it exists |
| `LedgerBilling.PostIsIdempotent` | apps/fees/services.py:62-102 | posting leaves a live charge under its key; posting the same key again changes nothing and returns that charge |
| `LedgerBilling.BillingAgainIsNoOp` | apps/fees/services.py:161-196 | running a plan, or billing an enrolment, a second time leaves the ledger as it was |
| `LedgerBilling.ExactlyOneChargePerInstalment` | apps/fees/services.py:152-196 | after any history, a plan run or an enrolment billing leaves exactly one live charge for each instalment it covers: of every active enrolment the plan applies to, of every plan for the enrolment's branch, year and program |
| `LedgerBilling.BillingsKeepExactlyOne` | apps/fees/services.py:152-196 | any number of plan runs and enrolment billings afterwards leave it exactly one |
| `LedgerBilling.InstalmentKeysDistinct` | apps/fees/services.py:161-174 | no two instalments share a key |
| `LedgerFines.RuleGrows` | apps/fees/services.py:370-375 | a later run never asks for a smaller fine |
| `LedgerFines.RunEffect` | apps/fees/services.py:355-389 | a fine run goes through and raises the fine of each overdue charge, to the rule's value or what it already was, and of no other charge |
| `LedgerFines.FineDependsOnLatestDate` | apps/fees/services.py:355-389 | for a charge that stays unpaid with its fine left alone, the fine after any runs on any dates in any order is the rule's value at the latest date, or what the fine was before if that is more |
| `LedgerFineRuns.FinesAreNeverFined` | apps/fees/services.py:362-372 | over every run, a fine hangs on a charge that is no fine itself |
| `LedgerFineRuns.DiscountsAreBacked` | apps/fees/services.py:200-232 | over every run, no live charge has a bigger discount than its approved concessions give |
| `LedgerFineRuns.SecondFineRunIsNoOp` | apps/fees/services.py:355-389 | in every reachable state, a second run on the same date changes nothing, fines on discounted charges included |
| `Tally.GroupByLedger` | apps/fees/tally.py:58-61 | the `by_ledger` loop gives each ledger the sum of its lines and lists the ledgers used, no others |
| `Tally.SortedItems` | apps/fees/tally.py:62-64 | the ledgers come out once each in order, with their sums |
| `Tally.LedgerItems` | apps/fees/tally.py:58-64 | grouping by ledger preserves the total of the lines |
| `Tally.MoneyBalancesItems` | apps/fees/tally.py:23-31 | the money side against the ledger items adds to zero, for receipts and for payments |
| `Tally.ExportReceipt` | apps/fees/tally.py:56-66 | the voucher of a receipt balances, names the right money account and carries each ledger's share once |
| `Tally.ExportRefund` | apps/fees/tally.py:69-78 | the same for the payment voucher of a refund |
| `Tally.ReceiptVoucherIs` | apps/fees/tally.py:23-66 | a receipt debits cash or bank by its amount and credits each ledger by the lines on charges whose head has it |
| `Tally.RefundVoucherIs` | apps/fees/tally.py:23-78 | a refund debits those ledgers and credits cash or bank |
| `Tally.Export` | apps/fees/tally.py:47-85 | each live receipt and each refund of the branch and period has its voucher, once, and every voucher balances |
| `MessCounting.MonthsPartitionLeave` | apps/hostel/mess.py:92-104 | the days of a leave counted month by month over consecutive months are the days of the whole span, none twice |
| `MessCounting.ExactlyOneMonthCounts` | apps/hostel/mess.py:130-141 | each day of leave inside the membership is counted by its own month and by no other |
| `MessCounting.PrefiltersDropNothing` | apps/hostel/mess.py:237-251 | the month's prefilters of members and leaves change nothing for any day of the month |
| `MessCounting.ContractorAgreesWithHeadcount` | apps/hostel/mess.py:205-251 | on each day the contractor's `expected` is the headcount's enrolled less on leave |
| `MessCounting.EatenCountsDays` | apps/hostel/mess.py:147-149 | the `eaten` figure of per-day billing is the number of days the member is enrolled and not on leave |
| `MessCounting.ContractorServesWhatMembersEat` | apps/hostel/mess.py:230-270 | for every mess and month, `expected` summed over the days is `eaten` summed over the members |
| `MessService.ExpectedOn` | apps/hostel/mess.py:245-251 | the loop over prefiltered members counts who is expected on a day |
| `MessService.ServedPlates` | apps/hostel/mess.py:258-264 | a day's plates are the recorded count where there is one, else the expected members plus guests; days without a record are counted |
| `MessService.ContractorBill` | apps/hostel/mess.py:230-270 | one row for each meal with a rate, each the plates times the rate, and the total of the rows |
| `MessService.BilledPlatesAreEatenDays` | apps/hostel/mess.py:230-270 | with nothing recorded and no guests, the plates billed for a meal are the days the members eat |
| `MessBilling.KeyInjective` | apps/hostel/mess.py:123 | a mess key names one membership and one month |
| `MessBilling.RebatesAreFinal` | apps/hostel/mess.py:128-143 | once a month's rebates are worked out, billing adds none and the balance stays |
| `MessAmounts.BilledExactly` | apps/hostel/mess.py:109-127 | a month is billed exactly for a student with the fees module, a day of membership in it and no live charge under its key |
| `MessAmounts.MonthlyBillAddsUp` | apps/hostel/mess.py:128-164 | the charge posted and the month before's rebates, which all point at it, add up to the monthly charge times the days enrolled over the days of the month, to the nearest paise; none is posted exactly when the rebates reach that |
| `MessAmounts.FullMonthAtMonthlyCharge` | apps/hostel/mess.py:128-164 | a whole month without leave to rebate is billed at the monthly charge |
| `MessAmounts.PerDayBillIs` | apps/hostel/mess.py:146-164 | a per-day bill is the rate times the number of days enrolled and not on leave |
| `MessAmounts.NewRebatesExactly` | apps/hostel/mess.py:92-141 | exactly the leaves that are long enough, have a day in the month and no rebate for it yet get one, for the rate times those days |
| `MessAmounts.JobLeavesNothingToBill` | apps/hostel/mess.py:167-178 | when the monthly job gets to its end no member is left with anything to bill |
| `MessAmounts.RecordedExactly` | apps/hostel/mess.py:80-89 | leave is recorded exactly when it has a day inside the membership and none in common with the member's other leaves |
| `MessAmounts.KeySpelled` | apps/hostel/mess.py:123 | the key spelled out: "mess:", the member, the year and the month in two digits |
| `MessService.PlatesAddUp` | apps/hostel/mess.py:258-264 | a meal's plates are those of each day: as recorded, else the members who eat that day and the guests |
| `MessService.EstimatedCounted` | apps/hostel/mess.py:258-264 | the estimated days are those without a record |
| `MessBilling.BillAgainIsNoOp` | apps/hostel/mess.py:109-164 | billing a member's month a second time changes neither ledger nor book, after a zero bill too |
| `MessBilling.BillKeepsRebates` | apps/hostel/mess.py:109-164 | no bill, of any member and month, takes away a rebate worked out before or changes its leave, month, days or amount |
| `MessBilling.RebillKeepsRebates` | apps/hostel/mess.py:109-164 | billing a month again on any later ledger and book, for instance after the charge was cancelled, keeps every rebate and adds none while memberships and leaves stay as they are |
| `MessBilling.BillKeepsRebatesOk` | apps/hostel/models.py:286-298 | each leave has at most one rebate for a month |
| `MessRebates.RebatesTotalTheLeave` | apps/hostel/mess.py:92-164 | a monthly member billed over consecutive months has had each qualifying leave rebated for exactly its days inside the membership in the months before: none twice, none forgotten |
| `MessJob.JobTwiceIsJobOnce` | apps/hostel/mess.py:167-178 | the monthly job run twice is the job run once, also when a bill is refused on the way |
| `MessService.MessBook.Record` | apps/hostel/mess.py:80-89 | a leave is added inside the membership and apart from the member's other leaves, or refused |
| `MessService.MessBook.WorkOutRebates` | apps/hostel/mess.py:130-142 | the loop over leave dates gives the new rebates, and the total of old and new |
| `MessService.MessBook.BillMember` | apps/hostel/mess.py:109-164 | one member's month: charge, rebates and their links, or nothing at all |
| `MessService.MessBook.BillMess` | apps/hostel/mess.py:167-178 | monthly members for this month, then per-day members for last month, up to the first bill refused; the job is no transaction, so the bills before it stay |
| `HostelSafety.BestRuleIsMostSpecific` | apps/hostel/services.py:20-25 | the rule charged applies to the room and none that applies is more specific; there is none exactly when no rule applies |
| `HostelAmounts.RuleByBlockThenType` | apps/hostel/services.py:20-25 | a rule for the block comes before one for all, and among those one for the room type |
| `HostelAmounts.MayTakeExactly` | apps/hostel/services.py:53-68 | a bed may be taken exactly in a usable room of the student's branch without an open ticket, with fewer beds taken than its capacity, of a fitting gender, without a bed already |
| `HostelAmounts.AllocatedExactly` | apps/hostel/services.py:53-83 | the allocation is refused exactly when the bed may not be taken or the block's mess may not be joined |
| `HostelAmounts.AllocatedAsAsked` | apps/hostel/services.py:70-82 | the row, the student's waits for the room fulfilled, and a membership unless one is open |
| `HostelAmounts.EveryMonthAtTheRulesAmount` | apps/hostel/services.py:28-49 | every month of the stay is charged at the rule's amount, under the branch's hostel head and the check-in's academic year, due on the tenth or on a later check-in day |
| `HostelAmounts.NoFeeOutsideTheStay` | apps/hostel/services.py:28-49 | no month before check-in or after the end of the academic year is charged |
| `HostelAmounts.FirstMessBill` | apps/hostel/mess.py:38-55 | with the bed, a monthly member is billed at once for the days left of the month, a per-day member nothing yet |
| `HostelAmounts.WaitsExactly` | apps/hostel/services.py:118-126 | a student waits for a room exactly when no bed can be taken there, and once |
| `HostelAmounts.VacatedAsAsked` | apps/hostel/services.py:87-115 | vacating closes the row and offers the bed to the one who has waited longest |
| `HostelSafety.PrefixSelects` | apps/hostel/services.py:101-105 | the prefix `alloc:<id>:` begins the keys of that allocation and of no other |
| `HostelSafety.DueInItsMonth` | apps/hostel/services.py:41-47 | a month's fee falls due in that month, also in the check-in month |
| `HostelSafety.VacateCancelsExactly` | apps/hostel/services.py:87-107 | of all charges, vacating cancels exactly the live ones without money that fall after the vacate month and are the allocation's fees or bills of a membership it ends; every other charge, of any source, and every receipt stay as they were |
| `HostelSafety.VacateRefusedExactly` | apps/hostel/services.py:87-107 | vacating is refused exactly when it is done already, or on a day before the check-in or before the start of a membership it would end |
| `HostelSafety.EveryMonthChargedOnce` | apps/hostel/services.py:28-49 | a new allocation has exactly one live charge for every month from check-in to the end of the academic year |
| `HostelSafety.BedsStayWithinCapacity` | apps/hostel/services.py:53-128 | over every sequential run rooms stay within capacity, students hold one bed at most, and every hostel charge belongs to an allocation and its month |
| `HostelModel.FirstWaiting` | apps/hostel/services.py:109-112 | the bed is offered to the longest waiting entry of the room |
| `HostelService.Hostel.PostMonths` | apps/hostel/services.py:40-49 | the loop over `months_between` posts one charge per month |
| `HostelService.Hostel.Allocate` | apps/hostel/services.py:53-83 | allocation, waitlist, fees, membership and first mess bill in one step, or no trace |
| `HostelService.Hostel.EndMemberships` | apps/hostel/services.py:106-107 | the loop ends the open memberships that came with the bed |
| `HostelService.Hostel.Vacate` | apps/hostel/services.py:87-115 | check-out, cancelled fees, ended memberships and the offer in one step, or no trace |
| `GateSafety.PassesAndLeavesStayApart` | apps/hostel/gate.py:68-143 | over every run: a student's open outpasses have disjoint dates, a member's leaves are disjoint, and a leave tied to a pass stays within its dates and exists only while it is approved, out or returned |
| `GateDays.NoDayTwice` | apps/hostel/gate.py:68-143 | after any run no day lies in two open passes of a student or in two leaves of a member |
| `GateDays.RequestedExactly` | apps/hostel/gate.py:68-82 | a pass is refused exactly when it ends before it starts or shares a day with an open one |
| `GateDays.DecidedAsAsked` | apps/hostel/gate.py:86-102 | approval records leave for the days of the pass from the start of the membership, unless there is leave on some of them |
| `GateDays.ReturnedAsExpected` | apps/hostel/gate.py:117-132 | a return is late exactly after the minute expected; the leave ends on the day of an early return |
| `GateDays.CancelledWithItsLeave` | apps/hostel/gate.py:136-143 | cancelling removes the pass's leave and that leave's rebates, and no others |
| `GateSafety.LeaveOnlyShrinks` | apps/hostel/gate.py:125-130 | a leave that survives a step is unchanged, or was shortened by an early return |
| `GateSafety.ApprovalRefusedExactly` | apps/hostel/gate.py:86-99 | approving a requested pass is refused exactly when the open membership starts after the pass ends and no leave meets it |
| `GateService.Gate.RequestOutpass` | apps/hostel/gate.py:68-82 | a pass is added, or refused for reversed dates or a clash with an open pass |
| `GateService.Gate.DecideOutpass` | apps/hostel/gate.py:86-102 | the decision, and on approval the mess leave from the later of the pass and the membership start |
| `GateService.Gate.LeaveGate` | apps/hostel/gate.py:106-113 | only an approved pass goes out |
| `GateService.Gate.EnterGate` | apps/hostel/gate.py:117-132 | only a pass that is out returns; lateness is noted and an early return shortens the leave |
| `GateService.Gate.CancelOutpass` | apps/hostel/gate.py:136-143 | a requested or approved pass is cancelled and its leave removed |
| `TimetableSafety.TimetableStaysClashFree` | apps/timetable/services.py:27-92 | over every run of placing, moving and deleting: no teacher and no room has two periods that overlap on a weekday, a section uses a slot once a day, weekly and subject limits hold |
| `TimetableSafety.PlaceRefusesExactlyClashes` | apps/timetable/services.py:48-92 | on a clash-free timetable a period is refused exactly when writing it would break one of those rules; placing or moving writes its own row and no other |
| `TimetableTimes.OverlapIffShared` | apps/timetable/services.py:27-28 | periods overlap exactly when they share a minute; back to back they do not |
| `TimetableTimes.PlaceRefusedExactly` | apps/timetable/services.py:48-83 | a period is refused exactly when it does not run then, its slot is taken, another of the teacher or in the room shares a minute with it that day, or a limit is reached |
| `TimetableTimes.DeletedWithItsCover` | apps/timetable/models.py:98-102 | deleting a period takes its covers on all dates with it and nothing else |
| `TimetableTimes.RunsShareNoMinute` | apps/timetable/services.py:48-92 | after any run no two periods of a teacher or in a room share a minute of a weekday |
| `TimetableTimes.SubstituteAcceptedExactly` | apps/timetable/services.py:188-221 | a substitute is accepted exactly from the branch, present, not the period's teacher, and without a minute of it taken there |
| `TimetableTimes.WeekdaysFollow` | apps/timetable/services.py:190-191 | weekdays follow one another, from a known Monday |
| `TimetableSafety.SubstitutesNeverClash` | apps/timetable/services.py:188-221 | after any confirmations in any order, the periods a teacher covers on a date are apart from one another, and from the teacher's own in the branch covered |
| `TimetableSafety.SubstitutesFreeIff` | apps/timetable/services.py:188-221 | through any confirmations, no substitute ever covers during a period of their own, in any branch, if and only if none was accepted who teaches in another branch at that time |
| `TimetableSafety.SubstitutesFreeAtHome` | apps/timetable/services.py:188-221 | so substitutes are always free when all periods are held in their teachers' own branches |
| `TimetableSafety.SubstituteTeachingElsewhere` | apps/timetable/services.py:195-206 | an input on which a teacher is confirmed who has a period in another branch at that time |
| `TimetableService.Timetable.PlacePeriod` | apps/timetable/services.py:48-92 | the checks made one after the other, with their loops, accept exactly what the model accepts |
| `TimetableService.Timetable.Suggest` | apps/timetable/services.py:188-210 | the teachers offered are exactly those of the period's branch who are free there, with their counts in it, best first: same subject, then fewest periods, then name |
| `TimetableService.Timetable.ConfirmSubstitute` | apps/timetable/services.py:214-221 | a substitute is stored, replacing an earlier one, exactly when suggested |
| `Grids.SortBands` | apps/timetable/services.py:130 | the bands are the distinct times and labels, in order |
| `Grids.IndexBands` | apps/timetable/services.py:131 | each pair of times is filed under the last band with those times |
| `Grids.FileCells` | apps/timetable/services.py:132-134 | each period has one cell, on its day and in the band of its times |
| `Grids.GatherCells` | apps/timetable/pdf.py:15-16 | the cells dict has an entry for each band and day that occurs |
| `Grids.PrintGrid` | apps/timetable/pdf.py:6-18 | periods that do not clash are each shown in exactly one cell, and no cell shows anything else, even when one pair of times has two labels |
| `Grids.PeriodsClashFree` | apps/timetable/services.py:140-156 | the periods of one teacher, or of one room, in a clash-free timetable do not clash |
| `Grids.GridOfRun` | apps/timetable/services.py:128-156 | after any run of the timetable, the grid of any teacher and any room loses nothing |
| `ExamModel.BandForIsHighestReached` | apps/exam/models.py:33-37 | the first match in descending order is the highest band reached; there is none exactly when none is reached |
| `ExamModel.HigherNeverGetsLowerBand` | apps/exam/models.py:33-37 | a higher percentage never gets a band with a lower minimum |
| `ExamMarks.LastRowIsKept` | apps/exam/services.py:65-84 | a student's last row is what is stored; no other student's and no other paper's mark changes |
| `ExamMarks.MarksAlwaysFit` | apps/exam/services.py:68-83 | over every run, stored marks lie within the paper's maxima, and are empty for absent and exempt students |
| `ExamMarks.LockedMarksStayPut` | apps/exam/services.py:57-121 | while a section stays locked, no run changes the marks in that exam of a student listed in no other section of it |
| `ExamMarks.LockHoldsIff` | apps/exam/services.py:57-121 | some run changes a student's mark behind the lock if and only if another section of the exam lists the student too |
| `MarksService.Register.SaveMarks` | apps/exam/services.py:57-86 | all rows are written, or one bad row undoes them all |
| `MarksService.Register.Lock` | apps/exam/services.py:108-113 | locking twice is refused |
| `MarksService.Register.Unlock` | apps/exam/services.py:117-121 | unlocking what is not locked is refused |
| `ExamAverages.AverageBetween` | apps/exam/services.py:29-30 | a rounded weighted average lies between the lowest and the highest rounded rate with weight |
| `ExamResults.StudentResult` | apps/exam/services.py:151-197 | the loop over the papers with its totals and flags gives the averages, lines, pass and pending flags defined for the student's marks |
| `ExamResults.PassedExactly` | apps/exam/services.py:164-169 | a student passes exactly under the documented rule and when no paper falls in a fail band |
| `ExamTotals.ResultAddsUp` | apps/exam/services.py:151-197 | the total is the theory and practical marks of the papers sat, the maximum that of the papers not excused, the percentage the nearest hundredth of the one in the other |
| `ExamTotals.LineIs` | apps/exam/services.py:151-171 | each paper's line: its marks, maximum, band and pass, or excused |
| `ExamTotals.PaperPercentIs` | apps/exam/services.py:159-165 | a paper's percentage is the hundredth nearest to its theory and practical marks against both maxima |
| `ExamTotals.SgpaAddsUp` | apps/exam/services.py:172-196 | the SGPA is the nearest hundredth of credits times points over credits, a missing credit counting as one |
| `ExamTotals.FullMarksAreAHundred` | apps/exam/services.py:159-197 | full marks in both parts of every paper not excused give exactly a hundred per cent |
| `ExamTotals.TotalFollowsMarks` | apps/exam/services.py:151-183 | changing a paper's marks moves the total by exactly the change in either part |
| `ExamTotals.SavedExactly` | apps/exam/services.py:57-86 | rows are saved exactly for an unlocked section of the class, when each is for one of its students and within the maxima |
| `ExamResults.DocumentedRuleIsNotEnough` | apps/exam/services.py:3-11 | an input that passes the documented rule and is failed |
| `ExamResults.PaperPercentInRange` | apps/exam/services.py:159-165 | accepted marks give between 0 and 100 per cent in a paper |
| `ExamResults.OverallBetweenPapers` | apps/exam/services.py:170-183 | the overall percentage lies between the lowest and the highest percentage of the counted papers, and is 0 when none counts |
| `ExamResults.PercentagesAlwaysInRange` | apps/exam/services.py:57-183 | after any run of saving, locking and unlocking, all percentages lie between 0 and 100 |
| `ExamCredits.SgpaWithinScale` | apps/exam/services.py:172-196 | the SGPA lies between the bottom and the top grade point, 0 included, when no two papers have credits of opposite signs |
| `ExamCredits.SgpaStaysWithinIff` | apps/exam/services.py:172-196 | before rounding, the SGPA stays within the scale for all marks if and only if no two credits have opposite signs, a lone pair that cancels apart |
| `ExamCredits.OppositeCreditsLeave` | apps/exam/services.py:172-196 | given two papers with credits of opposite signs that do not cancel, marks that take the SGPA out of the scale, every other paper exempt |
| `ExamCredits.Cgpa` | apps/exam/services.py:287-299 | the loop over the terms gives the credit-weighted average, none without credits |
| `ExamCredits.CgpaBetweenTerms` | apps/exam/services.py:287-299 | the CGPA lies between the lowest and the highest SGPA of the terms with credits, when no two terms have credits of opposite signs |
| `ExamCredits.CgpaStaysWithinIff` | apps/exam/services.py:287-299 | before rounding, it does so for all SGPAs if and only if no credits have opposite signs, or they add up to nothing |
| `ExamResults.ClassResults` | apps/exam/services.py:149-207 | every row is its student's outcome; the class rank is 1 plus the number strictly above, the section rank the same within the section, and never exceeds the class rank |
| `ExamRanks.CompetitionRank` | apps/exam/services.py:125-132 | for every list, a student's rank is 1 plus the number of strictly greater percentages, at the student's lowest when listed more than once |
| `ExamRanks.AboveIgnoresOrder` | apps/exam/services.py:125-132 | that number does not depend on the order of the list |
| `ExamRanks.Ranks` | apps/exam/services.py:199-205 | ranks in the class and, grouped by section, in the section |
| `ExamRanks.SectionRankAtMostClassRank` | apps/exam/services.py:199-207 | a section rank never exceeds the class rank |
| `ExamRanks.RankingsAgreeWithinSection` | apps/exam/services.py:199-207 | within a section both rankings order students by percentage |
| `ExamAnnual.AnnualSubject` | apps/exam/services.py:259-269 | the loop over the exams gives the weighted average of those that count the subject |
| `ExamAnnual.AnnualOverall` | apps/exam/services.py:273-274 | the overall figure is the weighted average over all exams, a missing one at 0 |
| `ExamAnnual.AnnualResults` | apps/exam/services.py:240-282 | refused exactly without weighted exams or across classes; otherwise the right row for each student of the first exam, ranked |
| `ExamAnnual.SubjectBetweenExams` | apps/exam/services.py:258-270 | a subject's annual percentage lies between its lowest and highest in the exams that count it |
| `ExamAnnual.AnnualBetweenExams` | apps/exam/services.py:273-274 | the annual percentage lies between the exams' percentages, a missing one at 0 |
| `ExamYears.SubjectAddsUp` | apps/exam/services.py:258-270 | a subject's annual figure averages its nearest percentages over the exams that count it, by weight |
| `ExamYears.YearAddsUp` | apps/exam/services.py:240-282 | the overall figure is the nearest hundredth of the weighted percentages; passing needs every exam sat passed and no fail band |
| `ExamYears.CgpaAddsUp` | apps/exam/services.py:287-299 | the CGPA is the nearest hundredth of credits times points over credits |
| `ExamAnnual.MissingExamCountsZero` | apps/exam/services.py:273-274 | whatever exams a student missed, the overall figure is the points of those sat over the weights of all; it never exceeds their average, and before rounding is below it exactly when an exam with weight is missing and the student scored in another |
| `ExamAnnual.SubjectSkipsMissing` | apps/exam/services.py:258-270 | a subject's annual figure depends on the exams sat only |
| `ConcurrentReceipts.NumbersAreGapFree` | apps/fees/services.py:242-249 | under every interleaving of lock, read, save, commit and abort, the receipts of a series are numbered 1, 2, ... in order of commit |
| `ConcurrentReceipts.AloneItTakesTheNext` | apps/fees/services.py:242-249 | a transaction alone takes the number after the last, creating the counter if need be |
| `ConcurrentBeds.BedsAreNeverOversold` | apps/hostel/services.py:54-100 | under every interleaving of allocating and vacating, rooms stay within capacity and students hold one bed at most |
| `ConcurrentBeds.AloneItAllocates` | apps/hostel/services.py:54-71 | a transaction alone gives a bed exactly when there is one and the student has none |
| `ConcurrentPeriods.TeachersAreNeverDoubleBooked` | apps/timetable/services.py:60-92 | from any timetable in order, under every interleaving of placing, moving and deleting, no teacher is double-booked or over the limits, and no section uses a slot twice |
| `ConcurrentPeriods.AloneItPlaces` | apps/timetable/services.py:60-92 | the steps taken without interruption do what `place` does |
| `ConcurrentPeriods.RoomsStayApart` | apps/timetable/services.py:60-92 | rooms are never double-booked under any interleaving in which no period is begun while a rival is under way: another teacher's, not in the same section slot, at an overlapping time of the same weekday in the same room |
| `ConcurrentPeriods.RoomsAreNotSafe` | apps/timetable/services.py:60-92 | two rivals that each fit, checked by two offices before either commits, end up in one room together |
| `ConcurrentPeriods.RoomsClashIff` | apps/timetable/services.py:60-92 | two periods that each fit can be placed into a clash of rooms by some order of steps if and only if they are rivals |
| `ConcurrentPayments.RunNeverOverIff` | apps/fees/services.py:62-389 | from any account, concessions included, under every interleaving of collecting, of postings, plan runs, billings, cancellations, decisions and fine runs that commit once for all they do: nothing is ever over-collected if and only if each payment still fits when it commits, and on each charge a transaction has written the discount saved and the amount set leave room for what is received when it commits |
| `ConcurrentPayments.LockedPaymentsAreSafe` | apps/fees/services.py:62-389 | nothing is over-collected and no money lands on a cancelled charge when payments take only charges they locked, and commit none of their charges between the read and the save of another's recompute, and no fine is set below what another run made it |
| `ConcurrentPayments.CountersNeverOverCollect` | apps/fees/services.py:62-389 | nothing is over-collected either when payments take unlocked charges too, as long as each finds some live charge to lock, no charge is in a payment and in a recompute at once, and no fine is set below what another run made it; and no money lands on a cancelled charge either if none is cancelled under a payment |
| `ConcurrentPayments.TwoFirstPaymentsOverCollect` | apps/fees/services.py:262-305 | two payments that find nothing to lock both take a charge posted after they started |
| `ConcurrentPayments.MoneyOnACancelledCharge` | apps/fees/services.py:127-139 | a charge posted after the lock can be cancelled before the payment of it commits |
| `ConcurrentPayments.RunStrayIff` | apps/fees/services.py:106-305 | under every interleaving, no money lands on a cancelled charge if and only if every payment that commits names live charges only |
| `ConcurrentPayments.NoneCancelledUnderPayment` | apps/fees/services.py:106-305 | so none does when no charge is cancelled while a payment of it is under way |
| `ConcurrentPayments.ConcessionRacesPayment` | apps/fees/services.py:62-232 | a charge paid in full between the read and the save of a recompute is over-collected exactly when the recompute raises its discount, whatever the transaction has posted besides |
| `ConcurrentPayments.AloneItPays` | apps/fees/services.py:253-307 | a payment alone is taken exactly if each line is at most what its charge still asks, and adds its lines |
| `ConcurrentPayments.AloneItDiscounts` | apps/fees/services.py:200-217 | a recompute alone leaves what is wanted, but at most what is not received |
| `ConcurrentRefunds.RunNonNegativeIff` | apps/fees/services.py:253-350 | under every interleaving of payments, refunds and cancelled receipts, money paid on a charge never falls below zero if and only if each refund and each cancelled receipt is still covered by what is paid when it commits |
| `ConcurrentRefunds.RefundsNeverOverpay` | apps/fees/services.py:310-350 | it never does when each refund finds some live charge to lock and a receipt is cancelled only if what is paid covers its lines and the refunds under way; refunds then come one at a time |
| `ConcurrentRefunds.VoidRacesRefund` | apps/fees/services.py:310-350 | a receipt cancelled between a refund's read and its commit leaves less than nothing exactly when its line and the refund together exceed what was paid |
| `ConcurrentRefunds.TwoFirstRefundsOverpay` | apps/fees/services.py:328-350 | two refunds that find nothing to lock both give back what was paid after they started |
| `ConcurrentRefunds.AloneItRefunds` | apps/fees/services.py:328-350 | a refund alone is taken exactly if each line is at most what is paid on its live charge |

## Left out

- FeesService.Ledger.PostBatch: billing an enrolment is one transaction for each plan, so a refusal leaves the charges of the plans before it; in the model that is a run of billings by one plan each, and a billing by several plans stands for one in which none is refused.
- LedgerFines.FineDependsOnLatestDate: speaks of runs in which the charge is still unpaid at every fine run of its branch and its fine is not cancelled; a cancelled fine starts again from nothing.
- LedgerFineRuns.FinesAreNeverFined: assumes that only the fine run posts charges with the late-fine source, as in the repository.
- HostelSafety.BedsStayWithinCapacity: assumes that only the hostel posts charges with the hostel source; room capacity stays as it is during a run.
- ExamMarks.LockedMarksStayPut: speaks of students whom no other section of the exam lists; for the others it is false (`ExamMarks.LockHoldsIff`).
- TimetableSafety.SubstitutesNeverClash: the timetable holds still between the confirmations; `place` can later move a period under a substitute.
- ConcurrentPayments.RunNeverOverIff: a payment names each charge once; two lines on one charge are the subject of `LedgerPayments.RunCoversIffFitting`.
- ConcurrentRefunds.RunNonNegativeIff: payments add their receipts in one step, as their own locks are the subject of `ConcurrentPayments`; payments and refunds name each charge once.
- Configuration holds still during a run: fee heads and rules, room capacity, bell slots, teacher loads, paper maxima, grade scales, enrolments.
- Views, serializers, permissions, migrations and the frontend.
- Audit records, notifications, and the descriptions, narrations and notes on rows.
- Receipt and voucher number texts and prefixes, voucher order, the XML envelope and its escaping.
- PDF and HTML rendering; of the printed timetable only the rows of teacher and room grids, not the section grid.
- Clock times: a gate return is a day and a count within it, a bell time a number of minutes; the time zone is not modelled.
- The licence for the fees module is a fixed flag.
- Visitors, waitlist withdrawal, repair tickets, guest-meal charges, mess complaints and menus; guest plates enter the contractor bill as counts.
- The number of charges reported back by plan and fine runs.
- Filters that only choose what to show: the section filter and sort order of result rows, the exam analysis, registers of substitutions. With a section chosen, annual ranks are over that section's rows.
- Which exams a student has sat, as a query; the terms given to `Cgpa` are that query's result.
- Deadlocks, savepoints and isolation beyond this: a row lock or an uncommitted insert is held to commit, and a read sees what is committed and one's own writes. Outpass cancelling, which takes no lock, is modelled one transaction at a time.
- Decimal's 28 digits and the year 9999 as limits.
- Attendance, library, inventory, transport, payroll, imports, tenancy and roles.
