# Casino bot: ledger, slot machine and economy commands

This project is a Dafny model of the core of a Discord casino bot. It covers:

- **The ledger** (`DataManager`): user ids mapped to account records.
  - A record is created lazily with 500 coins and zeroed slot counters.
  - Balance updates are clamped at zero.
  - A statistic accumulates when the stored value and the new value are both integers; otherwise it is overwritten.
  - Single fields are overwritten.
- **The slot machine**: nine weighted symbols and a payout table. A Wild adds itself to every symbol except the Scatter. A draw of three symbols resolves to a multiplier and a pattern text.
- **The amount parser**: reads text such as `1k`, `2.5m` or `-3` as a whole number of coins. It lower-cases and trims the text (the Kelvin sign lower-cases to `k`, as the runtime's Unicode lower-casing does), applies the suffix letters k … y (10^3 … 10^24), and truncates toward zero.
- **The economy commands**:
  - `daily`: 100 coins with a 24-hour cooldown.
  - `vote`: eight reward tiers with milestones at 21, 42, 63 and 84.
  - `give`: a confirmed transfer between users.
  - `leaderboard`: a server's ten richest members.
- **The `slot` command**: bet validation, the spin, settlement of the bet and the winnings, and the slot statistics.

## How the model is organised

Modules:

- `Values`: Python numbers as `Num = Int | Float`.
- `SlotMachine`
- `NumberParser`
- `Ledger`: the `DataManager` class plus pure functions over `Store`.
- `Economy`
- `Gambling`

The ledger's `Store` keeps the ids in insertion order, as the runtime's dictionaries do. That order matters for leaderboard ties, because the sort is stable.

Each command is written twice:

- a step function from the ledger before the command to the ledger after it and the reply (`DailyStep`, `VoteStep`, `GiveStep`, `SlotStep`);
- a method that runs the handler's sequence of `DataManager` calls.

Each method is proved to follow its step function, and the lemmas state the command's properties about the step function. The loops of the slot machine are methods proved equal to their specification functions: the weighted draw, the payout scan and the pattern scan.

Behaviour of the code worth knowing:

- **Wild counts itself twice.** Wild is not the Scatter, so its effective count is its raw count plus the number of Wilds. One Wild therefore pays 3 on its own, and two cherries with a Wild pay 3, not the cherry three-count 0.5 (`SlotMachine.CherriesWithWild`).
- **Winnings are not rounded.** The code credits `bet * multiplier` unrounded, so a bet of 10 on three lemons credits 7.5 (`Gambling.FractionalWinnings`). Winnings keep the kind of the multiplier: an integer multiplier gives integer winnings, and a fractional one gives a float.
- **A new record carries counters.** It starts with the statistics `slots_played` and `slots_won` at 0.
- **The highest win accumulates.** The slot command stores a new highest win with `update_stats`, which adds it to an integer highest win (see Findings). The command is modelled as written; the corrected statistics update is modelled beside it.

## Model

| member | source | states |
|---|---|---|
| Values.Times | cogs/gambling.py:86 | the winnings are bet × multiplier in value, and an integer exactly when the multiplier is an integer |
| SlotMachine.DrawSymbol | utils/slot_machine.py:54-70 | the weighted draw loop returns the symbol `Drawn(r)` |
| SlotMachine.DrawnInterval | utils/slot_machine.py:61-67 | a draw value in (Cumulative(k), Cumulative(k+1)] selects the k-th symbol, so each symbol owns an interval as long as its weight |
| SlotMachine.DrawnOutsideIntervals | utils/slot_machine.py:25-35 | the weights sum to 114, and only a draw value above 114 reaches the cherry fallback |
| SlotMachine.CalculatePayout | utils/slot_machine.py:92-127 | the counting loop and the running-maximum loop return `Multiplier(d)` |
| SlotMachine.MultiplierIsMaximum | utils/slot_machine.py:102-127 | the multiplier is at least 0 and at least the exact-count payout of every symbol with effective count ≥ 2; it is one of those payouts, or 0 when none qualifies |
| SlotMachine.WinnerIsFirstBest | utils/slot_machine.py:159-166 | ties go to the earliest symbol in table order: the winner pays the multiplier and every earlier qualifying symbol pays strictly less; there is no winner exactly when the multiplier is 0 |
| SlotMachine.PayoutInRange | utils/slot_machine.py:38-48 | every payout table entry is between 0 and 500 |
| SlotMachine.MultiplierIsConfigured | utils/slot_machine.py:114-127 | the multiplier is 0 or a configured payout value, hence between 0 and 500 |
| SlotMachine.WildsPay | utils/slot_machine.py:104-125 | in three symbols, one Wild pays at least 3, two Wilds at least 25 (the seven reaches count 2), and three Wilds exactly 500 |
| SlotMachine.GetWinningPattern | utils/slot_machine.py:129-187 | the pattern loops return `Pattern(d)` |
| SlotMachine.PatternAgreesWithMultiplier | utils/slot_machine.py:159-187 | the pattern is empty exactly when the multiplier is 0; otherwise the winner's payout at its effective count is the multiplier, and the text is "own x S + wilds x Wild (Wild)" with Wild help, else "count x S" with " (Scatter)" for the Scatter; the Scatter-with-Wild text is never produced |
| SlotMachine.Spin | utils/slot_machine.py:72-90 | a spin holds exactly the three symbols drawn from the draw values, their multiplier and their pattern |
| SlotMachine.ThreeSevens | utils/slot_machine.py:39 | three sevens pay 500 with pattern "3x 7" |
| SlotMachine.CherriesWithWild | utils/slot_machine.py:104-111 | two cherries and a Wild: the cherry effective count is 3, yet the multiplier is 3, paid by the Wild counted twice |
| SlotMachine.ThreeLemons | utils/slot_machine.py:45 | three lemons pay the fractional multiplier 0.75 |
| SlotMachine.NoMatch | utils/slot_machine.py:168-170 | bell, orange and lemon pay 0 with an empty pattern |
| NumberParser.ParseAmount | utils/number_parser.py:4-49 | empty text is None; otherwise the lower-cased, trimmed text is split off a final suffix letter when something precedes it, read as a signed decimal and truncated toward zero after scaling; its properties are the lemmas below |
| NumberParser.ParseNormalizedSound | utils/number_parser.py:34-49 | every trimmed text the suffix and number rules accept (and so, through `ParseAmount`'s contract, every accepted input) is, once lower-cased and trimmed, an optional sign and digits with at most one point and at least one digit, optionally followed (after whitespace) by one suffix letter |
| NumberParser.InnerLetterRejected | utils/number_parser.py:38-49 | a letter anywhere but in last place gives None ("abck") |
| NumberParser.TwoPointsRejected | utils/number_parser.py:38-49 | two points give None ("1.2.3k") |
| NumberParser.NoDigitRejected | utils/number_parser.py:38-49 | text without a digit gives None ("-k", ".") |
| NumberParser.EmptyIsNotANumber | utils/number_parser.py:46-49 | text that trims to nothing is not a number |
| NumberParser.ParseIgnoresCaseAndSpace | utils/number_parser.py:19 | the result depends only on the lower-cased, trimmed text; lower-casing covers ASCII capitals and the Kelvin sign, the only other character whose lower-case form the parser reads |
| NumberParser.NormalizeIdempotent | utils/number_parser.py:19 | normalising twice is normalising once |
| NumberParser.TruncateTowardZero | utils/number_parser.py:38-47 | the integer result differs from the exact scaled value by less than one, toward zero, for either sign |
| NumberParser.ParseUnsignedSound | utils/number_parser.py:40-47 | an accepted unsigned number is non-empty, made of digits and at most one point |
| NumberParser.ParseIntToString | utils/number_parser.py:46-49 | every integer's decimal text, including 0 and negatives, parses back to that integer: no sign or range check |
| NumberParser.ParseIntWithSuffix | utils/number_parser.py:22-41 | an integer followed by a suffix letter parses to the integer times that letter's power of ten |
| NumberParser.ParsePointWithSuffix | utils/number_parser.py:34-41 | "whole.fraction" plus a suffix letter parses to the exact decimal times the scale, truncated toward zero |
| NumberParser.ParsePoint | utils/number_parser.py:46-47 | "whole.fraction" without a suffix parses to the decimal truncated toward zero |
| NumberParser.ParseNegativePoint | utils/number_parser.py:46-47 | "-whole.fraction" parses to the negative decimal truncated toward zero, not floored |
| NumberParser.LeadingLetter | utils/number_parser.py:46-49 | text that starts with a letter and ends in a non-suffix character gives None, in the exact-decimal grammar ("inf" is the exception, see "## Left out") |
| NumberParser.LoneSuffix | utils/number_parser.py:34-49 | a lone suffix letter skips the suffix rule and then fails as a plain number |
| NumberParser.PlainExamples | utils/number_parser.py:15-49 | "" is not a number and "10" is 10 |
| NumberParser.ThousandExample | utils/number_parser.py:22-41 | "1k" is 1000 |
| NumberParser.ParseSignedPointWithSuffix | utils/number_parser.py:34-41 | "-whole.fraction" or "+whole.fraction" plus a suffix letter parses to the signed exact decimal times the scale, truncated toward zero |
| NumberParser.NegativePointSuffixExample | utils/number_parser.py:34-41 | "-2.5k" is -2500 |
| NumberParser.PlusPointSuffixExample | utils/number_parser.py:34-41 | "+1.5m" is 1500000 |
| NumberParser.KelvinExample | utils/number_parser.py:19-41 | "1" followed by the Kelvin sign (U+212A) lower-cases to "1k" and is 1000 |
| NumberParser.NegativeThousandsExample | utils/number_parser.py:22-41 | "-5k" is -5000: the sign is not checked here |
| NumberParser.TruncationExamples | utils/number_parser.py:40-47 | 2.5 × 10^6 is exactly 2500000, and 2.9 and -2.9 truncate to 2 and -2 |
| Ledger.Clamp | utils/data_manager.py:97-101 | the new balance is balance + amount, or 0 when that is negative; never negative |
| Ledger.DataManager.constructor | utils/data_manager.py:21-27 | the manager starts from the records loaded at start-up |
| Ledger.DataManager.GetUserData | utils/data_manager.py:53-74 | the store becomes `Touch(old, id)`, and the returned record is the one now stored |
| Ledger.DataManager.GetAllData | utils/data_manager.py:76-83 | returns the whole store, well formed |
| Ledger.DataManager.UpdateBalance | utils/data_manager.py:85-104 | the store becomes `BalanceUpdated(old, id, amount)`; the returned balance is the stored one and is not negative |
| Ledger.DataManager.UpdateStats | utils/data_manager.py:106-128 | the store becomes `StatsUpdated(old, id, name, value)` |
| Ledger.DataManager.UpdateUserData | utils/data_manager.py:130-141 | the store becomes `FieldUpdated(old, id, field)` |
| Ledger.TouchSpec | utils/data_manager.py:63-74 | lazy creation adds id with 500 coins and zeroed counters when it is new, and changes no existing record |
| Ledger.MutatorSpec | utils/data_manager.py:96-140 | each mutator adds at most id, rewrites id's record (clamped balance, one statistic, or one field) and keeps every other record |
| Ledger.AddStatRule | utils/data_manager.py:118-126 | a missing map starts empty; integer plus integer accumulates, anything else overwrites; other statistics are kept |
| Ledger.SetFieldRule | utils/data_manager.py:139-140 | writing a field changes that field alone |
| Ledger.TouchValid | utils/data_manager.py:64-74 | lazy creation keeps every id listed once, and a second touch changes nothing |
| Ledger.MutatorsValid | utils/data_manager.py:85-141 | every mutator keeps the store well formed |
| Ledger.MutatorsOnlyAdd | utils/data_manager.py:64-74 | the ids only grow: a mutator leaves exactly the old ids plus its own, with a new id appended last |
| Ledger.MutatorsKeepNonNegative | utils/data_manager.py:99-101 | no mutator makes a balance negative |
| Ledger.ApplyAllIsClampedSum | utils/data_manager.py:96-104 | after any run of balance updates the balance is not negative and is at least the plain sum; when no running total dips below zero, it equals that sum |
| Ledger.IncrementCounts | utils/data_manager.py:122-123 | adding 1 n times to an integer statistic adds n |
| Ledger.UnknownStartsFromDefault | utils/data_manager.py:96-115 | mutating an unknown id starts from the default record |
| Economy.SplitTime | cogs/economy.py:93-95 | hours·3600 + minutes·60 + seconds is the time left, with minutes and seconds below 60 |
| Economy.Daily | cogs/economy.py:80-108 | the handler's calls leave the store and reply of `DailyStep` |
| Economy.DailyRule | cogs/economy.py:84-105 | a claim is refused exactly when the cooldown applies, and a refusal only creates the record; the reported wait is the time left (at most 24 hours unless the clock went back); a claim adds 100 (clamped), records the time and changes nothing else |
| Economy.DailyOncePerDay | cogs/economy.py:91-105 | after a claim at a non-zero time, every claim within 86400 seconds is refused, and one at 86400 seconds or later succeeds |
| Economy.DailyAtZeroNeverBlocks | cogs/economy.py:91 | a claim recorded at time 0 reads as no claim |
| Economy.FirstMatch | cogs/economy.py:213-218 | the index found holds n, and no earlier tier does |
| Economy.FindTier | cogs/economy.py:212-222 | the loop returns `TierFor(n)`: the first tier that holds n, or the last tier when none does |
| Economy.RewardIsMultiplied | cogs/economy.py:17-26 | every tier's reward is 100000 × its multiplier |
| Economy.TiersPartition | cogs/economy.py:17-26 | the tier ranges are consecutive and cover exactly votes 1 to 84 |
| Economy.TableAgrees | cogs/economy.py:17-26 | each tier agrees with the closed-form schedule, and holds a milestone of the list at line 266 exactly when it holds a single vote |
| Economy.TierClosedForm | cogs/economy.py:212-222 | every vote from 1 to 84 gets the tier that holds it, with multiplier ⌊n/21⌋+1, or 3·(n/21) on a multiple of 21 |
| Economy.MilestonesAreSingleTiers | cogs/economy.py:17-26 | in 1..84, the milestone votes (line 266) are exactly the votes with a tier of their own |
| Economy.TierBeyond | cogs/economy.py:220-222 | every vote above 84 pays the last tier, 12× and 1,200,000 coins |
| Economy.MilestoneTriples | cogs/economy.py:18-25 | each milestone pays three times the vote before it |
| Economy.Vote | cogs/economy.py:190-238 | the handler's calls leave the store and reply of `VoteStep` |
| Economy.VoteRule | cogs/economy.py:199-235 | a vote is refused exactly when n < 1 or n is already claimed, and then only the record is created; an accepted vote credits the tier reward (clamped), appends n to the claimed votes and changes nothing else |
| Economy.VoteOnce | cogs/economy.py:206-235 | claiming the same vote again is refused and changes nothing |
| Economy.Give | cogs/economy.py:308-373 | the handler's calls leave the store and reply of `GiveStep` on the parsed amount |
| Economy.GiveRefusalsMoveNothing | cogs/economy.py:318-365 | a refused or cancelled gift changes no record; only the sender's record is created, and only once the amount has been checked |
| Economy.GiveMovesAmount | cogs/economy.py:341-373 | a completed gift has a positive amount covered by the sender's balance; the sender loses exactly the amount and the receiver is credited it; the sum of the two balances is unchanged when the receiver's balance is not negative; nothing else changes |
| Economy.Leaderboard | cogs/economy.py:131-155 | the server's records in store order, stably sorted by balance from highest, cut to the first ten; its properties are the lemmas below |
| Economy.SortByBalanceCorrect | cogs/economy.py:144-149 | the sort is a permutation into descending balance, and stable: entries of equal balance keep their order |
| Economy.EntriesOfMembers | cogs/economy.py:135-142 | an entry is listed exactly when its id has a record and belongs to the server, and it shows that record's balance |
| Economy.LeaderboardSorted | cogs/economy.py:144-152 | the board is the first min(10, n) of the server's n entries, sorted by balance, highest first |
| Economy.LeaderboardShowsMembers | cogs/economy.py:137-152 | each line is a server member's record with its balance |
| Economy.LeaderboardIsTop | cogs/economy.py:144-152 | no server record left off the board is richer than one shown |
| Economy.LeaderboardEmpty | cogs/economy.py:152-155 | the board is empty exactly when no server member has a record |
| Gambling.Slot | cogs/gambling.py:17-118 | the handler's calls leave the store and reply of `SlotStep` on the parsed bet; a new highest win goes through update_stats as written |
| Gambling.PlaySpin | cogs/gambling.py:59-118 | an accepted bet's calls leave the store and reply of `Play`: the money settled, the statistics recorded as written, the balance read back |
| Gambling.SettleBet | cogs/gambling.py:59-90 | the debit, the spin and the credit of a win leave the store, spin and winnings of `Settle` |
| Gambling.UpdateSlotStats | cogs/gambling.py:93-99 | the statistics calls, as written, leave `RecordSpinAsWritten(old, id, winnings)` |
| Gambling.UpdateSlotStatsCorrected | cogs/gambling.py:93-99 | the statistics calls with the highest win written back whole leave the corrected `RecordSpin(old, id, winnings)` |
| Gambling.SlotRefusals | cogs/gambling.py:26-57 | an unparsable bet and a bet below 10 are refused with no ledger call; a bet above the balance is refused once the record exists; each refusal holds exactly in its case |
| Gambling.BetDefaults | cogs/gambling.py:27-41 | no bet means 10; a bet text is read by the amount parser, and "" is refused |
| Gambling.SlotPays | cogs/gambling.py:54-86 | a played spin holds the three drawn symbols and their multiplier; the winnings are bet × multiplier, between 0 and 500 × bet |
| Gambling.SlotSettles | cogs/gambling.py:60-118 | the final balance is the old balance − bet + winnings, since the clamp never applies, and is the one reported; no other record changes |
| Gambling.FractionalWinnings | cogs/gambling.py:86 | a bet of 10 on three lemons wins 7.5, unrounded |
| Gambling.RecordSpinKeepsBalances | cogs/gambling.py:93-99 | recording statistics, as written or corrected, changes no balance, no other record and no id |
| Gambling.SlotCounters | cogs/gambling.py:94-97 | every spin adds 1 to slots_played, and a spin adds 1 to slots_won exactly when the winnings are positive |
| Gambling.HighestWinAsWritten | cogs/gambling.py:96-99 | as written, in every case: no win, or a win that does not beat the stored highest win, leaves it; a beating win is added to a stored integer highest win when both are integers, and otherwise stored as it is |
| Gambling.HighestWinAccumulates | cogs/gambling.py:98-99 | as written, a win w that beats an integer highest win h stores h + w; with the value replaced it stores w |
| Gambling.SlotAccumulatesHighestWin | cogs/gambling.py:82-99 | the command as written: a spin whose integer winnings w beat a stored integer highest win h leaves h + w |
| Gambling.CorrectionOnlyTouchesHighestWin | cogs/gambling.py:93-99 | the corrected statistics differ from the ones as written in the player's record alone: the same ids in the same order, every other record the same |
| Gambling.CorrectionKeepsCounters | cogs/gambling.py:93-99 | within the player's record, the correction keeps the balance, slots_played and slots_won |
| Gambling.HighestWinIsMaximum | cogs/gambling.py:98-99 | with the value replaced, the highest win after a spin is the old one or the winnings, and is at least both |

## Findings

| source | as written | input that shows it | evidently intended | confidence | as-written member | corrected member |
|---|---|---|---|---|---|---|
| cogs/gambling.py:98-99 | a new highest win is stored with `update_stats`, which adds an integer value to an integer stat | stored highest_win 100, integer winnings 200: the record becomes 300 | the new highest win replaces the old one (200) | high; not executed | Gambling.HighestWinAccumulates, Gambling.HighestWinAsWritten, Gambling.SlotAccumulatesHighestWin | Gambling.RecordSpin, Gambling.HighestWinIsMaximum |

`SlotStep`, `Play`, `Slot`, `PlaySpin` and `UpdateSlotStats` model the command as written, through `RecordSpinAsWritten`. The corrected `RecordSpin`, and `UpdateSlotStatsCorrected` which writes the new statistics map back through `update_user_data`, stand beside it; `CorrectionOnlyTouchesHighestWin` and `CorrectionKeepsCounters` show that the correction changes nothing else.

## Left out

- Persistence: loading and saving the JSON file, and the fallback to an empty store on error. The records loaded at start-up are the constructor's parameter. Every loaded record is assumed to carry a balance.
- Concurrency:
  - the `asyncio.Lock`, which is never taken;
  - the separate `DataManager` instance held by each cog, with lost updates between them;
  - the per-user slot cooldown and its reset.
- Randomness: each of the three draw values is a parameter (`random.random() * 114` in the source). The animation spins are display only.
- Time: `datetime.now()` is an integer number of seconds passed in, so fractional timestamps are not modelled.
- Confirmation: the 30-second confirmation wait is a boolean `confirmed`. A "no" and a timeout are the same refusal.
- Float arithmetic:
  - Balances and payouts are exact reals.
  - Float rounding is not modelled for any amount, small or large: the parser computes with exact decimals. For example, "1.001k" is 1001 here, where the source's float product 1000.9999999999999 truncates to 1000; "2.99999999999999999" is 2 here, where the source's float is 3.0 and gives 3; and "1y" is exactly 10^24 here.
  - Python float syntax beyond plain decimals is not modelled. Exponent forms ("1e5", "1e5k") and underscores between digits ("1_000") are numbers in the source and None here; so are non-ASCII digits. Other non-ASCII capitals are not lower-cased here; the runtime's lower-case forms of them are none of the characters the parser reads, so the result is None either way. "nan", "nank" and "infinity" give None in the source (the conversion to an integer, or float("infinit") before the final `y`, raises the caught ValueError), as here.
  - Overflow is not modelled: text whose float value is infinite ("inf", "-inf", "infk", "1e400", a digit string beyond about 1.8 × 10^308) makes the source raise an uncaught OverflowError at utils/number_parser.py:41 or :47. The model gives None for the first kinds and the exact integer for long digit strings.
- NumberParser.ParseNormalizedSound, NumberParser.InnerLetterRejected, NumberParser.NoDigitRejected and NumberParser.LeadingLetter hold for the exact-decimal grammar only: the source reads exponent and underscore forms as numbers, and for "inf" (which LeadingLetter and NoDigitRejected cover) it raises OverflowError instead of returning None.
- NumberParser.ParseIntToString and NumberParser.ParseIntWithSuffix hold for every integer here; in the source an integer above 2^53 comes back rounded through the float, and one beyond the float range raises OverflowError.
- Statistics of other kinds: string statistic values, and `update_user_data` keys other than `last_daily`, `claimed_votes` and `stats`. The handlers write no others.
- Server members: the member list is a set of ids.
- Presentation: embeds, message texts, comma formatting, and the balance, votes, symbols and odds display commands.
- Aliasing: the handlers' live record dictionaries are modelled by reading the record again after each update. That read gives the same values the live dictionary would show.
- Bot setup, the web front-end and the database model are not part of this model.
