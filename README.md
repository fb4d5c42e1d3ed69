# TopstepX analytics: fee table, round-trip conversion and trade analytics

This project models the computational core of a small trading-journal application for
TopstepX futures accounts, and proves properties of the model. It covers three pieces.

- **The fee configuration.** This is the exchange-fee and point-value tables and the
  lookups over them. The NFA fee is 0.04 per round turn, an unknown contract pays an
  exchange fee of 2.76 and has a point value of 1. The symbol normaliser
  `extract_base_symbol` maps a contract id to a table key.
- **The converters in the data collector.** The first one pairs raw half-turn fills into
  round trips, first in first out, per contract. The second sweeps filled orders against
  per-contract positions, splitting a fill across several entries. A third step aggregates
  the stored trades into daily statistics.
- **The analytics service.** This covers the derived data-frame columns (Tokyo time, the CME
  trading date, net P&L, win and loss flags, the weekday name) and the summary metrics. It
  also covers the daily, weekday, holding-time and monthly-calendar breakdowns, and the
  duration formatter.

The model follows the code:

- `extract_base_symbol` has no route for three-segment `F.US.<BASE>` ids. Such an id does
  not start with `CON.F.`, so its base is the first two characters, `"F."`.
- The `ENQ`→`NQ` and `EMD`→`ES` aliases apply only to the fourth segment of a `CON.F.`
  id, never to a table match.
- There are no per-contract fee overrides.
- The order converter adjusts P&L by the literal multipliers ×2 for ids containing `MNQ`
  and ×20 for other ids containing `NQ`. Every other contract's P&L stays in price points.
  The point-value table is not used there.
- The CME session starts at 07:00 JST in months 3 to 10 and at 08:00 otherwise.
- `best_day_pct` is at most 100 (`Analytics.BestDayPctBounds`). A day's net P&L can never
  exceed the gross profit of all winning trades. It can be negative.
- `short_pct` is `100 - long_pct`, so a side that is neither `LONG` nor `SHORT` counts as
  short. For an empty frame both shares are 0.

Modules, one file each:

| Module | What it holds |
|---|---|
| `Wrappers` | the `Option` type |
| `Text` | ASCII `upper()`, Python `strip()`, `split`/`join`, `startswith`, `in`, integer rendering |
| `Tally` | group counts and keys in first-seen order |
| `Sorting` | Python's stable `sorted(key=…)` as an insertion sort |
| `Columns` | mask selection, group selection, sums and means of a data frame |
| `Fees` | the fee configuration |
| `Calendar` | proleptic Gregorian dates, UTC→JST, the CME trading date |
| `Trades` | sides, timestamps, the round-trip record, whole-second durations |
| `Matching` | `_convert_to_roundtrips` |
| `Orders` | `_convert_orders_to_roundtrips` |
| `OrderStamps` | where orders without a timestamp sort |
| `OrderPositions` | the position a filled order leaves behind |
| `DailyStats` | `_update_daily_stats` |
| `Analytics` | `_prepare_dataframe`, `get_summary_metrics`, `_empty_metrics` |
| `Breakdowns` | `get_daily_stats`, `get_day_of_week_stats`, `get_monthly_calendar` |
| `Durations` | `get_duration_analysis` and `format_duration` |

The converters and the daily-stats aggregation are loops over mutable dictionaries in the
source, so they are modelled as methods with loops. Each method is proved equal to a
specification function, and the properties are then proved about those functions: the
replay of the fills or orders, and the per-day fold. Everything in the analytics service
is a pandas expression, so it is modelled with functions and lemmas.

## Model

| member | source | states |
|---|---|---|
| `Fees.ExtractBaseSymbol` | config/fees.py:153-190 | computes the base symbol; its properties are stated by the `BaseSymbol…`, `…KeyWins`, `…Id` and `Example…` lemmas below |
| `Fees.LookupFinds` | config/fees.py:122 | `dict.get` finds a key exactly when the key is in the table, and a table whose values are all at least `lo` returns at least `lo` |
| `Fees.ExchangeFeesAtLeast` | config/fees.py:13-56 | every exchange fee in the table is at least 0.48 |
| `Fees.PointValuesAtLeast` | config/fees.py:62-105 | every point value in the table is at least 0.5 |
| `Fees.FeeKeysByGroup` | config/fees.py:13-56 | the fee table's keys are its five contract groups' keys, in dictionary order |
| `Fees.FeeKeysShort` | config/fees.py:13-56 | every fee-table key has two or three characters, and a three-character key starts with `M`, `R` or `S` |
| `Fees.NotThreeCharacterKey` | config/fees.py:13-56 | no three-character string starting with another letter is a fee-table key |
| `Fees.KnownSymbolsOrdered` | config/fees.py:180 | `known_symbols` holds exactly the fee-table keys, longest first |
| `Fees.LongerFirstSorted` | config/fees.py:180 | sorting by length in reverse keeps every key and orders them longest first |
| `Fees.FirstPrefixFindsLongest` | config/fees.py:182-184 | the loop returns a listed key the symbol starts with, returns nothing exactly when no listed key is a prefix, and over a longest-first list returns the longest such key |
| `Fees.SymbolAlias` | config/fees.py:173-177 | `ENQ` maps to `NQ`, `EMD` to `ES`, anything else to itself |
| `Fees.Fallback` | config/fees.py:186-190 | the fallback is a prefix of the symbol: three characters for an `M…` symbol of length three or more, otherwise two, or the whole symbol when it is shorter |
| `Fees.BaseSymbolDotted` | config/fees.py:168-177 | a `CON.F.` id with at least four segments yields its fourth segment after the alias map |
| `Fees.BaseSymbolLongestKey` | config/fees.py:179-184 | when some fee key is a prefix of the normalised symbol, the result is the longest such key |
| `Fees.BaseSymbolFallback` | config/fees.py:186-190 | when no fee key is a prefix, the result is the two- or three-character fallback |
| `Fees.BaseSymbolIsShortPrefix` | config/fees.py:179-190 | outside the `CON.F.` route the result is a prefix of the normalised symbol and at most three characters long |
| `Fees.BaseSymbolIgnoresCaseAndPadding` | config/fees.py:165 | case changes and surrounding whitespace do not change the base symbol |
| `Fees.NormalizeUnchanged` | config/fees.py:165 | `upper().strip()` leaves an upper-case, unpadded symbol unchanged |
| `Fees.ThreeCharacterKeyWins` | config/fees.py:179-184 | a three-character fee key that prefixes the symbol is the result |
| `Fees.TwoCharacterKeyWins` | config/fees.py:179-184 | a two-character fee key that prefixes the symbol is the result when the symbol's first three characters are not a key |
| `Fees.ThreeCharacterId` | config/fees.py:179-184 | a bare id whose first three characters are a fee key yields that key |
| `Fees.TwoCharacterId` | config/fees.py:179-184 | a bare id not starting with `C`, `M`, `R` or `S` whose first two characters are a fee key yields that key |
| `Fees.DottedSegments` | config/fees.py:168-171 | `CON.F.<exchange>.<base>.<rest>` starts with `CON.F.`, splits into at least four parts, and its fourth part is `<base>` |
| `Fees.DottedContractBase` | config/fees.py:168-177 | such an id yields the alias of `<base>` |
| `Fees.NotDotted` | config/fees.py:168 | a symbol not starting with `C` never takes the `CON.F.` route |
| `Fees.ExampleDottedMicroNasdaq` | config/fees.py:158 | `CON.F.US.MNQ.H26` yields `MNQ` |
| `Fees.ExampleDottedNasdaqAlias` | config/fees.py:159 | `CON.F.US.ENQ.H26` yields `NQ` |
| `Fees.ExampleMicroSp` | config/fees.py:160 | `MESZ4` yields `MES` |
| `Fees.ExampleMicroNasdaqSpaced` | config/fees.py:161 | `MNQ DEC24` yields `MNQ` |
| `Fees.ExampleSp` | config/fees.py:162 | `ESH5` yields `ES` |
| `Fees.ExampleNasdaq` | config/fees.py:163 | `NQZ24` yields `NQ` |
| `Fees.ExampleMicroSilver` | config/fees.py:179-184 | `SILH5` yields the three-character key `SIL`, not `SI` |
| `Fees.FeePerRoundTurn` | config/fees.py:111-123 | the fee is the table fee of the base symbol plus 0.04, or 2.80 for an unknown base, and never below 0.52 |
| `Fees.FeePerSide` | config/fees.py:140-150 | the fee per side is half the round-turn fee, so at least 0.26 |
| `Fees.PointValue` | config/fees.py:126-137 | the point value is the table value of the base symbol, or 1 for an unknown base, and always positive |
| `Calendar.DaysInMonth` | services/analytics.py:244 | a month has 28 to 31 days, and February has 29 exactly in a leap year |
| `Calendar.NextPrevInverse` | services/analytics.py:69-72 | the next day and the previous day undo each other |
| `Calendar.YearLength` | services/analytics.py:69-72 | a year has 366 days exactly when it is a leap year, otherwise 365 |
| `Calendar.NextDayNumber` | services/analytics.py:69-72 | the next day's ordinal is one more |
| `Calendar.PrevDayNumber` | services/analytics.py:69-72 | the previous day's ordinal is one less |
| `Calendar.Weekday` | services/analytics.py:42 | the weekday number is within 0 to 6 |
| `Calendar.NextDayWeekday` | services/analytics.py:42 | the weekday advances by one, modulo 7, from each day to the next |
| `Calendar.WeekdayNewYear2024` | services/analytics.py:42 | 1 January 2024 is a Monday, weekday 0 |
| `Calendar.AddHours` | services/analytics.py:26 | adding hours keeps a valid time and leaves minutes, seconds and microseconds unchanged |
| `Calendar.AddHoursMicros` | services/analytics.py:26 | adding `h` hours adds exactly `h` hours of microseconds on the absolute time line |
| `Calendar.SessionStartHour` | services/analytics.py:63-66 | the session starts at 07:00 in months 3 to 10 and at 08:00 otherwise |
| `Calendar.CmeTradingDate` | services/analytics.py:48-72 | before the session start the trading date is the previous calendar day, otherwise the same day, and its ordinal reflects that |
| `Calendar.TradingDateFromUtc` | services/analytics.py:24-28 | the `date` column is the CME trading date of the entry time converted to JST |
| `Calendar.ExampleEarlyJuly` | services/analytics.py:63-72 | 06:59 JST on 15 July 2025 belongs to 14 July |
| `Calendar.ExampleEarlyDecember` | services/analytics.py:63-72 | 07:30 JST on 1 December 2025 belongs to 30 November |
| `Calendar.ExampleMorningJuly` | services/analytics.py:63-72 | 07:30 JST on 15 July 2025 belongs to 15 July |
| `Calendar.ExampleNewYear` | services/analytics.py:63-72 | 03:00 JST on 1 January 2025 belongs to 31 December 2024 |
| `Trades.SideOfCode` | services/data_collector.py:88 | side code 0 is `Long` and every other code is `Short` |
| `Trades.WholeSeconds` | services/data_collector.py:118 | `int()` of a duration truncates toward zero |
| `Trades.ElapsedSeconds` | services/data_collector.py:103-105 | whole seconds of `exit_time - entry_time`, or no duration when a timestamp does not parse; `WholeSeconds`, `ElapsedNonNegative` and `ElapsedWholeSeconds` state its properties |
| `Trades.ElapsedNonNegative` | services/data_collector.py:103-105 | a chronologically ordered entry and exit give a non-negative duration |
| `Trades.ElapsedWholeSeconds` | services/data_collector.py:105 | an exact whole number of seconds between entry and exit is the duration |
| `Matching.Step` | services/data_collector.py:86-128 | one fill of the loop; `StepFifo` states its effect on the queues and `StepPairs` its effect on the pairs |
| `Matching.Roundtrips` | services/data_collector.py:75-130 | the records of the replay of the sorted fills; `RoundtripsShape`, `RoundtripsParsed` and `RoundtripsClosingRecorded` state their properties |
| `Matching.ConvertToRoundtrips` | services/data_collector.py:75-130 | the loop returns what the replay of the timestamp-sorted fills returns, including failure on an unparsable timestamp |
| `Matching.ReplayFifo` | services/data_collector.py:86-128 | per contract, the openings paired so far followed by the open queue are exactly the contract's opening fills in order |
| `Matching.StepFifo` | services/data_collector.py:96-128 | per contract, the consumed openings followed by the queue grow by the fill's opening and by nothing else; that a closing fill pairs with the head is `StepPairs` |
| `Matching.StepPairs` | services/data_collector.py:96-119 | a closing fill meeting a non-empty queue appends exactly one pair, of the queue's head, itself and the whole seconds between them; any other fill leaves the pairs unchanged |
| `Matching.ReplayPairsClose` | services/data_collector.py:96-100 | every pair's closing fill is a fill of the input that carries a P&L |
| `Matching.OpeningsFromFills` | services/data_collector.py:120-128 | every queued opening comes from an opening fill of its contract |
| `Matching.ReplayEntriesPrecedeExits` | services/data_collector.py:84-111 | over sorted fills, every pair's entry is no later than its exit |
| `Matching.OpeningBefore` | services/data_collector.py:84 | in sorted fills, every opening queued before the last fill is no later than it |
| `Matching.ReplayParsedSucceeds` | services/data_collector.py:103-105 | when every timestamp parses, the replay succeeds |
| `Matching.ReplayFailureSticks` | services/data_collector.py:103-105 | an exception on a prefix aborts the whole conversion |
| `Matching.ReplayPairsAtMostClosings` | services/data_collector.py:96-100 | there are no more round trips than closing fills |
| `Matching.ReplayCountBounds` | services/data_collector.py:96-128 | there are no more round trips than closing fills and no more than opening fills |
| `Matching.RecordsElements` | services/data_collector.py:107-119 | the i-th record carries the i-th pair's contract, entry side, times, prices, closing size, P&L, both fees and duration |
| `Matching.RoundtripsShape` | services/data_collector.py:75-130 | a successful conversion has at most as many records as closing fills and as opening fills, each entered no later than it exited |
| `Matching.RoundtripsParsed` | services/data_collector.py:103-105 | with parsable timestamps the conversion never fails |
| `Matching.ReplayPairsGrow` | services/data_collector.py:96-119 | the pairs made over a prefix of the fills are a prefix of the pairs made over all of them, and a run that succeeds succeeds on every prefix |
| `Matching.ReplayClosingPaired` | services/data_collector.py:96-119 | every closing fill that arrives while its contract's queue is non-empty is the closing of a pair whose opening is that queue's head |
| `Matching.RoundtripsClosingRecorded` | services/data_collector.py:96-119 | every such closing fill has a record in the result, with the entry side, time and price of the oldest queued opening of its contract |
| `Orders.OrderSide` | services/data_collector.py:147 | an order is `Long` exactly when its side code is 0 |
| `Orders.MultiplierCases` | services/data_collector.py:185-188 | the tick multiplier is 2 for ids containing `MNQ`, 20 for other ids containing `NQ`, otherwise 1 |
| `Orders.MultiplierMicroNasdaq` | services/data_collector.py:185-186 | `CON.F.US.MNQ.H26` gets the ×2 multiplier |
| `Orders.AdjustForTickValue` | services/data_collector.py:184-188 | the adjusted P&L is the gross P&L times the contract's multiplier |
| `Orders.Close` | services/data_collector.py:164-213 | the closing sweep; `CloseConservation`, `ClosePositive`, `CloseFront` and `CloseRecords` state its properties |
| `Orders.After` | services/data_collector.py:150-226 | the order's contract's position after one order; `ApplyBalanced`, `AfterStampsAtMost` and `OrderPositions.AfterFlip` state what it keeps |
| `OrderPositions.AfterFlip` | services/data_collector.py:215-226 | a fill larger than the opposite-side position closes every open unit, and its leftover re-opens the position on the fill's side as one entry at the fill's price, timestamp and leftover size |
| `Orders.Apply` | services/data_collector.py:150-226 | one order's step of the replay; `ApplyBalanced` and `ApplyQuantityOther` state what it keeps |
| `Orders.OrderRoundtrips` | services/data_collector.py:140-226 | the records of the replay of the sorted orders; `OrderRoundtripsShape` and `OrderRoundtripsPositive` state their properties |
| `OrderStamps.SortedUnstampedFirst` | services/data_collector.py:140 | in the sorted orders, every order without a timestamp precedes every order with one |
| `Orders.CloseEntries` | services/data_collector.py:164-213 | the `while` loop produces exactly the records, remaining entries and leftover size of the closing sweep |
| `Orders.ApplyOrder` | services/data_collector.py:150-226 | one iteration of the order loop leaves the positions and records of one replay step |
| `Orders.ConvertOrdersToRoundtrips` | services/data_collector.py:132-228 | the loop returns the records of the replay of the orders sorted by timestamp |
| `Orders.ReplayPrefix` | services/data_collector.py:142-226 | each order extends the replay of the orders before it by one step |
| `Orders.CloseConservation` | services/data_collector.py:164-213 | a sweep's records all carry the contract; closed quantity plus leftover is the fill size; open size left plus closed quantity is the open size before; and a leftover remains only once no entry is open |
| `Orders.ClosePositive` | services/data_collector.py:164-213 | over positive entries, a sweep closes only positive quantities and leaves positive entries |
| `Orders.CloseFront` | services/data_collector.py:164-213 | the sweep closes the oldest entry first: wholly when the fill covers it, otherwise partly, leaving the rest of that entry at the front |
| `Orders.CloseRecords` | services/data_collector.py:170-205 | each record is priced from its entry and the fill, so P&L, fee and duration are determined, and no entry is younger than the fill's bound |
| `Orders.ReplayConsistent` | services/data_collector.py:153-154 | every position is flat exactly when it holds no entries |
| `Orders.ApplyBalancedOther` | services/data_collector.py:150 | an order leaves every other contract's position and quantity balanced |
| `Orders.ApplyQuantityOther` | services/data_collector.py:193-205 | an order adds no quantity to another contract's records |
| `Orders.ApplyBalancedEntry` | services/data_collector.py:152-159 | an order on the position's side, or on a flat contract, adds its whole size to the signed open size |
| `Orders.EntryBalanced` | services/data_collector.py:152-159 | the new entry keeps signed open size equal to signed volume and open size plus twice the closed quantity equal to volume |
| `Orders.ApplyBalancedExit` | services/data_collector.py:160-226 | an opposite-side order keeps the balance, whether it closes part of the position, all of it, or flips it |
| `Orders.ExitBalanced` | services/data_collector.py:208-226 | after a sweep the position left, or the flipped remainder, keeps both balance equations |
| `Orders.ReplayBalanced` | services/data_collector.py:142-226 | with positive fill sizes, after any orders every contract's position is consistent and positive, its signed open size is the signed sum of its fills, and open size plus twice the closed quantity is its fill volume |
| `Orders.ApplyBalanced` | services/data_collector.py:150-226 | one order keeps every contract balanced |
| `Orders.ReplayStampsAtMost` | services/data_collector.py:140-159 | open entries come from orders no later than the orders seen |
| `Orders.AfterStampsAtMost` | services/data_collector.py:152-226 | an order no later than a bound leaves its contract's entries no later than that bound |
| `Orders.ReplayRecords` | services/data_collector.py:170-205 | every record is priced from its own entry and exit, and over sorted orders each entry is no later than its exit |
| `Orders.OrderRoundtripsShape` | services/data_collector.py:140-205 | every returned record is priced from its own entry and exit and entered no later than it exited |
| `Orders.ReplayQuantitiesPositive` | services/data_collector.py:162-208 | with positive fill sizes every record closes a positive quantity |
| `Orders.OrderRoundtripsPositive` | services/data_collector.py:191-201 | with positive fill sizes every returned record closes a positive quantity and pays at least 0.52 per contract in fees |
| `Orders.PricedFeesAtLeast` | services/data_collector.py:191 | a record charged the round-turn fee per contract pays at least 0.52 per contract |
| `Orders.FeeAtLeast` | services/data_collector.py:191 | a rate of at least `lo` charged on `q` contracts costs at least `lo * q` |
| `DailyStats.Prefix10` | services/data_collector.py:243 | `[:10]` keeps the first ten characters, or all of a shorter string |
| `DailyStats.AddTradeWellFormed` | services/data_collector.py:244-254 | adding a trade counts one more trade and keeps net P&L equal to gross profit minus gross loss, with wins plus losses at most trades |
| `DailyStats.DayOfWellFormed` | services/data_collector.py:241-254 | every day's row is well formed and counts exactly the dated trades with that day's prefix |
| `DailyStats.DayCountsAddUp` | services/data_collector.py:241-247 | the days' trade counts add up to the number of dated trades |
| `DailyStats.DayOfAbsent` | services/data_collector.py:241-243 | a day that no trade is dated on has the empty row |
| `DailyStats.DaysPrefix` | services/data_collector.py:241-254 | a trade adds its day to the list of days the first time the day is seen, and changes only its own day's row |
| `DailyStats.DailyMapRows` | services/data_collector.py:241-254 | the defaultdict holds exactly the days seen, each with its row |
| `DailyStats.DailyStep` | services/data_collector.py:241-254 | one loop step updates the defaultdict as the fold does |
| `DailyStats.UpdateDailyStats` | services/data_collector.py:230-259 | one well-formed row is written per day, in first-seen order, each being that day's fold of the trades |
| `Analytics.PrepareRow` | services/analytics.py:22-44 | a row gets the trading date of its entry time, net P&L as P&L minus fees with missing values as 0, and win and loss flags that never both hold |
| `Analytics.PrepareDataframe` | services/analytics.py:18-46 | the frame has one prepared row per trade, in order: its trading date and net P&L as derived, and the trade's symbol, side, quantity, duration, entry and exit times and entry and exit prices |
| `Analytics.WinningDays` | services/analytics.py:110 | there are no more winning days than days |
| `Analytics.BestDayPnl` | services/analytics.py:132 | the best day's P&L is the P&L of one of the days and at least every day's P&L |
| `Analytics.BestIndex` | services/analytics.py:115 | `idxmax` picks the first row of maximal net P&L |
| `Analytics.WorstIndex` | services/analytics.py:116 | `idxmin` picks the first row of minimal net P&L |
| `Analytics.TimestampText` | services/analytics.py:157 | the exit time renders as 19 characters |
| `Analytics.TimestampTextFields` | services/analytics.py:157 | the rendering reads back as year, month, day, hour, minute and second in `YYYY-MM-DD HH:MM:SS` layout |
| `Analytics.PercentBounds` | services/analytics.py:90 | a count of a part of a whole is between 0 and 100 percent |
| `Analytics.RatioNonNegative` | services/analytics.py:97 | a guarded ratio of a non-negative figure is non-negative |
| `Analytics.WinLossCounts` | services/analytics.py:80-87 | wins and losses together are at most all trades |
| `Analytics.NetDecomposition` | services/analytics.py:83-102 | total net P&L is gross profit minus gross loss, both non-negative |
| `Analytics.MeanSign` | services/analytics.py:93-94 | the mean of positive values is positive and the mean of negative values negative |
| `Analytics.AveragesNonNegative` | services/analytics.py:93-94 | average win and average loss are non-negative, and positive when there are wins or losses |
| `Analytics.DayPnlAtMostGrossProfit` | services/analytics.py:131-133 | no day's net P&L exceeds the gross profit |
| `Analytics.DayCounts` | services/analytics.py:108-111 | a non-empty frame has between one and as many days as trades, and at most that many winning days |
| `Analytics.RatioAtLeastOne` | services/analytics.py:112 | a ratio of a number to a positive smaller one is at least 1 |
| `Analytics.SummaryMetrics` | services/analytics.py:74-172 | computes the summary; its properties are stated by `SummaryCounts`, `SummaryMoney`, `SummaryBestDay`, `SummaryExtremes` and `SummaryEmpty` |
| `Analytics.EmptyMetrics` | services/analytics.py:256-268 | the all-zero metrics with empty best and worst trades; `SummaryEmpty` states their values |
| `Analytics.BestDayPct` | services/analytics.py:131-133 | computes `best_day_pct`; `BestDayPctBounds` and `SummaryBestDay` state its bounds |
| `Analytics.SummaryCounts` | services/analytics.py:74-172 | a summary counts every trade; wins plus losses at most trades; win rate, long share and day win share within 0 to 100; short share 100 minus long share; days between one and the trade count; trades per day at least 1 |
| `Analytics.SummaryEmpty` | services/analytics.py:256-268 | an empty frame reports zero trades, money and days, empty best and worst trades, and 0 for both side shares |
| `Analytics.SummaryMoney` | services/analytics.py:83-102 | net P&L is gross profit minus gross loss; gross figures, averages and both ratios are non-negative; each ratio is 0 when its denominator is |
| `Analytics.SummaryBestDay` | services/analytics.py:131-133 | the best-day share is 0 without gross profit and never above 100 |
| `Analytics.BestDayPctBounds` | services/analytics.py:131-133 | the best day's share of gross profit is at most 100, and 0 without profit |
| `Analytics.BestDayShare` | services/analytics.py:133 | a part no larger than a positive whole is at most 100 percent of it |
| `Analytics.SummaryExtremes` | services/analytics.py:114-165 | the best and worst trades are trades of the frame, bounding every trade's net P&L from above and below |
| `Breakdowns.DailyStats` | services/analytics.py:174-186 | computes the daily rows; `DailyStatsOrdered`, `DailyStatsCovers`, `DailyStatsWitnessed` and `DailyStatsTotal` state their properties |
| `Breakdowns.DayOfWeekStats` | services/analytics.py:188-202 | computes the weekday rows; `DayOfWeekStatsRows`, `DayOfWeekStatsPresent` and `DayOfWeekStatsTotal` state their properties |
| `Breakdowns.MonthlyCalendar` | services/analytics.py:235-254 | computes the month's entries; the `MonthlyCalendar…` lemmas state their properties |
| `Breakdowns.DateKeyOrder` | services/analytics.py:176-177 | the sort key of a date is injective and orders dates by year, month, day |
| `Breakdowns.DayRowOfDate` | services/analytics.py:176-184 | a daily row carries the date, the day's net P&L, its trade count, the number of its winning and of its losing trades (together at most the trade count), and the running total plus the day's P&L |
| `Breakdowns.DailyRowsGroups` | services/analytics.py:176-184 | one row per date, each holding that date's net P&L, trade count, winning-trade count and losing-trade count |
| `Breakdowns.DailyRowsRunning` | services/analytics.py:185 | each cumulative P&L is the previous one plus the day's P&L, and the last is the sum over all the days |
| `Breakdowns.SortedDatesFacts` | services/analytics.py:176-177 | the dates are exactly the trading days, distinct and strictly ascending |
| `Breakdowns.DailyStatsOrdered` | services/analytics.py:174-186 | there is one row per trading day, in strictly ascending date order |
| `Breakdowns.DailyStatsCovers` | services/analytics.py:174-186 | every trade's date has a row |
| `Breakdowns.DailyStatsWitnessed` | services/analytics.py:174-186 | every row's date has at least one trade |
| `Breakdowns.DailyStatsTotal` | services/analytics.py:185 | the last cumulative P&L is the total net P&L of the frame |
| `Breakdowns.DowRowForOf` | services/analytics.py:196-201 | a weekday row counts the day's trades, sums their net P&L and has a win rate between 0 and 100 |
| `Breakdowns.DowRowsGroups` | services/analytics.py:193-201 | every reported weekday is a listed name with a non-empty group and its figures |
| `Breakdowns.DowRowsPresent` | services/analytics.py:193-195 | every listed name with trades is reported |
| `Breakdowns.DowRowsOrder` | services/analytics.py:193 | reported weekdays keep the order of the list |
| `Breakdowns.WeekdayNames` | services/analytics.py:192 | the five listed names are the names of weekdays 0 to 4, and names identify weekdays |
| `Breakdowns.DayNameCounts` | services/analytics.py:195 | grouping by name counts the same trades as grouping by weekday number |
| `Breakdowns.DayOfWeekStatsRows` | services/analytics.py:188-202 | rows follow Monday to Friday; each counts that weekday's trades, has at least one and a win rate within 0 to 100 |
| `Breakdowns.DayOfWeekStatsPresent` | services/analytics.py:193-195 | a weekday is reported exactly when it has trades |
| `Breakdowns.DayOfWeekStatsTotal` | services/analytics.py:188-202 | the rows' trade counts add up to the number of Monday-to-Friday trades |
| `Breakdowns.CalendarRowsEntries` | services/analytics.py:243-252 | every calendar entry is a valid day of the month with trades, its count and its P&L |
| `Breakdowns.CalendarRowsPresent` | services/analytics.py:243-252 | every valid day with trades gets an entry |
| `Breakdowns.CalendarRowsOrder` | services/analytics.py:242 | entries follow the day numbers in ascending order |
| `Breakdowns.MonthlyCalendarEntries` | services/analytics.py:235-254 | entries ascend by day, are valid days with trades, and number at most 31 |
| `Breakdowns.MonthlyCalendarPresent` | services/analytics.py:235-254 | a day has an entry exactly when it is a valid date of the month with trades |
| `Breakdowns.MonthlyCalendarInvalid` | services/analytics.py:243-246 | a month or year outside the date range yields no entries |
| `Breakdowns.DayCountInMonth` | services/analytics.py:240-248 | counting a day within the month's trades counts that date's trades |
| `Breakdowns.MonthlyCalendarTotal` | services/analytics.py:235-254 | the entries' trade counts add up to the month's trade count |
| `Durations.DurationAnalysis` | services/analytics.py:204-233 | computes the bucket rows; the `DurationAnalysis…` lemmas state their properties |
| `Durations.FormatDuration` | services/analytics.py:271-282 | renders a duration; `FormatSeconds`, `FormatNegative`, `FormatMinutes` and `FormatHours` state its text |
| `Durations.BucketTable` | services/analytics.py:209-221 | the eleven buckets, their labels and their bounds in seconds |
| `Durations.BucketOfUnique` | services/analytics.py:225 | a duration lies in exactly one bucket, the one found by lower bound, and in none when it is negative |
| `Durations.BucketExamplesLow` | services/analytics.py:209-211 | -1 is in no bucket, 0 and 14 in the first, 15 in the second |
| `Durations.BucketExamplesMiddle` | services/analytics.py:211-213 | 44 in the second, 45 and 59 in the third, 60 in the fourth |
| `Durations.BucketExamplesHigh` | services/analytics.py:219-221 | 14399 in the tenth bucket, 14400 and above in the last |
| `Durations.BucketRowsGroup` | services/analytics.py:225 | the mask of a bucket selects the group of its label |
| `Durations.DurationRowForOf` | services/analytics.py:226-232 | a bucket row counts its trades, with a win rate within 0 to 100 and the bucket's net P&L |
| `Durations.FilledMembers` | services/analytics.py:227 | a bucket is reported exactly when it holds trades |
| `Durations.FilledOrder` | services/analytics.py:223 | reported buckets keep the table's order |
| `Durations.DurationAnalysisRows` | services/analytics.py:204-233 | the analysis reports the non-empty buckets in table order, each with its figures |
| `Durations.DurationAnalysisFilled` | services/analytics.py:223-227 | a bucket is reported exactly when it holds trades |
| `Durations.DurationAnalysisTotal` | services/analytics.py:204-233 | the bucket counts add up to the number of trades with a non-negative duration |
| `Durations.Truncate` | services/analytics.py:274 | `int()` truncates toward zero |
| `Durations.FloorDiv` | services/analytics.py:276 | `//` is floor division |
| `Durations.FloorMod` | services/analytics.py:277 | `%` by a positive number is in its range |
| `Durations.ShowSplit` | services/analytics.py:278 | the text `"<a> <u> <b> <v>"` splits back into its four words and the numbers read back |
| `Durations.FormatSeconds` | services/analytics.py:273-274 | under a minute the text is the whole seconds then `sec` |
| `Durations.FormatNegative` | services/analytics.py:273-274 | a negative duration prints as truncated toward zero, such as `0 sec` or `-5 sec` |
| `Durations.FormatMinutes` | services/analytics.py:275-278 | under an hour the text is minutes then seconds, within range, making up the whole seconds |
| `Durations.FormatHours` | services/analytics.py:279-282 | from an hour on, the text is hours then minutes, making up the whole minutes |
| `Text.StripIsTrimmedSlice` | config/fees.py:165 | `strip()` is a slice with whitespace on both sides removed and no whitespace at either end |
| `Text.StripPadding` | config/fees.py:165 | whitespace padding on either side does not change `strip()` |
| `Text.Upper` | config/fees.py:165 | `upper()` keeps the length and maps each character on its own |
| `Text.UpperIdempotent` | config/fees.py:165 | `upper()` applied twice is `upper()` once |
| `Text.SplitPieces` | config/fees.py:169 | `split` gives one more part than separators, none containing the separator |
| `Text.JoinSplit` | config/fees.py:169 | joining the parts of `split` with the separator gives the string back |
| `Text.ContainsOccurs` | services/data_collector.py:185 | `in` holds exactly when the substring occurs at some position |
| `Text.ParseNatToString` | services/analytics.py:274 | the decimal rendering of a number reads back as that number |
| `Sorting.SortBySortedPermutation` | services/data_collector.py:84 | `sorted` returns a sorted permutation of its input |
| `Sorting.SortByStable` | services/data_collector.py:140 | `sorted` keeps the input order of records with equal keys |
| `Columns.PartitionSum` | services/analytics.py:108 | group sums over keys covering every row add up to the column's sum |
| `Columns.SelectSplitSum` | services/analytics.py:83-101 | a column's sum splits over two disjoint masks when every other row contributes 0 |
| `Columns.GroupCountBounds` | services/analytics.py:109 | a non-empty frame has between one and as many groups as rows |
| `Tally.KeysInOrder` | services/analytics.py:109 | the group keys are distinct and include the key of every row |
| `Tally.PartitionCount` | services/analytics.py:109 | group sizes over distinct keys covering every row add up to the row count |

## Left out

- Reading and writing: the API client, the repository, `sync_trades` and the database calls are not modelled. The converters take the fetched fills or orders as a parameter, and `_update_daily_stats` returns the rows it would write.
- Floating point: money is modelled as exact reals.
- `Orders.ConvertOrdersToRoundtrips`: `round(pnl, 2)` and `round(fee, 2)` (services/data_collector.py:202-203) are not modelled; the records carry exact P&L and fees.
- Timestamps: a timestamp is modelled by its rank in text order plus, when it parses, its absolute time in microseconds. The model takes ISO text order to agree with time order. Comparing raw strings is not modelled beyond that rank.
- `Trades.ElapsedSeconds`: every parsed timestamp is taken to carry a UTC offset, so any two parsed timestamps can be subtracted. Python raises `TypeError` when an offset-aware and a naive datetime are subtracted. That error would abort `_convert_to_roundtrips` (services/data_collector.py:103-105) and would give duration 0 in `_convert_orders_to_roundtrips` (services/data_collector.py:171-176). Neither outcome is modelled.
- `Matching.ConvertToRoundtrips`: `datetime.fromisoformat` raising on an unparsable timestamp is modelled as the whole conversion returning `None`.
- `Orders.ConvertOrdersToRoundtrips`: `datetime.fromisoformat` failing inside its `try` gives duration 0, as in the source. A missing timestamp is the empty text at rank 0. It sorts before every present timestamp when present timestamps rank above 0 (`OrderStamps.SortedUnstampedFirst`).
- `Trades.RoundTrip` has no `account_id` field. Both converters stamp the account id passed in on every record (services/data_collector.py:108 and 193); it is the same for every record of one call, so the model leaves it out.
- `Analytics.PrepareDataframe`: `pd.to_datetime` raising on unreadable times is modelled by taking only readable trades.
- `Analytics.PrepareDataframe`: an empty or missing `entry_time` does not raise; pandas reads it as `NaT`. Such a row has no trading date, so `groupby('date')` and the calendar comparison drop it, while the trade counts and totals keep it. The model admits only trades with a readable entry time, so every row has a date. For that reason `Analytics.SummaryCounts` (`active_days >= 1` and `avg_trades_per_day >= 1`) and `Breakdowns.DailyStatsTotal` (the last cumulative P&L equals the total net P&L) do not cover frames that hold `NaT` rows.
- `Analytics.PrepareDataframe`: `errors='coerce'` is not modelled. The duration column is always present and numeric.
- `Analytics.SummaryMetrics`: the `'quantity' in df.columns` and `'duration_seconds' in df.columns` guards are not modelled; those columns are always present and contain no `NaN`.
- `Text.Upper`: `str.upper()` is modelled on ASCII letters only. Other characters are left unchanged, and no Unicode case mapping is modelled.
- Result dictionaries are modelled as sequences in their insertion order.
- `format_duration`: `float('inf')` and `NaN` are not modelled.
- `DailyStats.UpdateDailyStats`: `date.fromisoformat` on the ten-character prefix in the write-back is not modelled; the row keeps the prefix text.
- The Flask or Streamlit dashboard, the CLI and `sync_accounts` are outside this model.
