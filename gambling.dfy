/**
 * The slot command: bet validation, the spin, settlement of the bet and
 * the winnings, and the slot statistics kept in the player's record.
 *
 * The step function SlotStep is the specification; the Slot method runs
 * the same steps against a DataManager.  The three draw values of the
 * spin are parameters.
 */
module Gambling {
  import opened Values
  import opened Ledger
  import NumberParser
  import SlotMachine

  const MinimumBet: int := 10

  datatype SlotOutcome =
    | InvalidBet
    | BelowMinimum
    | InsufficientFunds(balance: real)
    | Played(bet: int, spin: SlotMachine.SpinOutcome, winnings: Num, balance: real)

  /** The bet: the minimum when none is given, otherwise the parser's reading of the text. */
  function BetOf(betText: Option<string>): Option<int> {
    if betText.None? then Some(MinimumBet) else NumberParser.ParseAmount(betText.value)
  }

  /** The stored value of a statistic, the integer 0 when there is none. */
  function Counter(a: Account, name: string): Num {
    if a.stats.Some? && name in a.stats.value then a.stats.value[name] else Int(0)
  }

  /** The stored highest win, the integer 0 when there is none. */
  function HighestWin(a: Account): Num {
    Counter(a, "highest_win")
  }

  /**
   * The statistics after a spin, as the command is written: one more game
   * played; for a win, one more game won and, when the win beats the
   * stored highest win, update_stats with the win -- which adds the win to
   * an integer highest win instead of replacing it.
   */
  function RecordSpinAsWritten(st: Store, id: string, winnings: Num): Store {
    var played := StatsUpdated(st, id, "slots_played", Int(1));
    if winnings.Value() > 0.0 then
      var won := StatsUpdated(played, id, "slots_won", Int(1));
      if winnings.Value() > HighestWin(won.accounts[id]).Value() then
        StatsUpdated(won, id, "highest_win", winnings)
      else
        won
    else
      played
  }

  /**
   * The statistics after a spin, with the highest win replaced by a win
   * that beats it (written back through update_user_data) rather than
   * added to it.
   */
  function RecordSpin(st: Store, id: string, winnings: Num): Store {
    var played := StatsUpdated(st, id, "slots_played", Int(1));
    if winnings.Value() > 0.0 then
      var won := StatsUpdated(played, id, "slots_won", Int(1));
      var a := won.accounts[id];
      if winnings.Value() > HighestWin(a).Value() then
        FieldUpdated(won, id, Stats(a.stats.value["highest_win" := winnings]))
      else
        won
    else
      played
  }

  /** The slot command as a function of the ledger, the parsed bet and the three draw values. */
  function SlotStep(st: Store, id: string, bet: Option<int>, r1: real, r2: real, r3: real): (Store, SlotOutcome) {
    if bet.None? then (st, InvalidBet)
    else if bet.value < MinimumBet then (st, BelowMinimum)
    else
      var t := Touch(st, id);
      var amount := bet.value;
      if t.accounts[id].balance < amount as real then (t, InsufficientFunds(t.accounts[id].balance))
      else Play(t, id, amount, r1, r2, r3)
  }

  /**
   * The money part of an accepted bet: the bet is taken, the reels spin
   * and a win is credited; gives the ledger, the spin and the winnings.
   */
  function Settle(st: Store, id: string, amount: int, r1: real, r2: real, r3: real)
    : (Store, SlotMachine.SpinOutcome, Num)
  {
    var debited := BalanceUpdated(st, id, -(amount as real));
    var symbols := [SlotMachine.Drawn(r1), SlotMachine.Drawn(r2), SlotMachine.Drawn(r3)];
    var spin := SlotMachine.SpinOutcome(symbols, SlotMachine.Multiplier(symbols), SlotMachine.Pattern(symbols));
    var winnings := Times(amount, spin.multiplier);
    var credited := if winnings.Value() > 0.0 then BalanceUpdated(debited, id, winnings.Value()) else debited;
    (credited, spin, winnings)
  }

  /**
   * An accepted bet: the money is settled, the statistics are recorded
   * and the balance is read back.
   */
  function Play(st: Store, id: string, amount: int, r1: real, r2: real, r3: real): (Store, SlotOutcome)
  {
    var (credited, spin, winnings) := Settle(st, id, amount, r1, r2, r3);
    var r := RecordSpinAsWritten(credited, id, winnings);
    (r, Played(amount, spin, winnings, r.accounts[id].balance))
  }

  method Slot(dm: DataManager, id: string, betText: Option<string>, r1: real, r2: real, r3: real)
    returns (outcome: SlotOutcome)
    requires dm.Valid()
    modifies dm
    ensures dm.Valid()
    ensures (dm.data, outcome) == SlotStep(old(dm.data), id, BetOf(betText), r1, r2, r3)
  {
    var bet: int;
    if betText.None? {
      bet := MinimumBet;
    } else {
      var parsed := NumberParser.ParseAmount(betText.value);
      if parsed.None? {
        return InvalidBet;
      }
      bet := parsed.value;
    }
    if bet < MinimumBet {
      return BelowMinimum;
    }
    var user := dm.GetUserData(id);
    if user.balance < bet as real {
      return InsufficientFunds(user.balance);
    }
    outcome := PlaySpin(dm, id, bet, r1, r2, r3);
  }

  /** The accepted-bet part of the command. */
  method PlaySpin(dm: DataManager, id: string, bet: int, r1: real, r2: real, r3: real)
    returns (outcome: SlotOutcome)
    requires dm.Valid() && id in dm.data.accounts
    modifies dm
    ensures dm.Valid()
    ensures (dm.data, outcome) == Play(old(dm.data), id, bet, r1, r2, r3)
  {
    var spin, winnings := SettleBet(dm, id, bet, r1, r2, r3);
    ghost var credited := dm.data;
    UpdateSlotStats(dm, id, winnings);
    assert dm.data == RecordSpinAsWritten(credited, id, winnings);
    var user := dm.GetUserData(id);
    outcome := Played(bet, spin, winnings, user.balance);
  }

  /** The money part of an accepted bet. */
  method SettleBet(dm: DataManager, id: string, bet: int, r1: real, r2: real, r3: real)
    returns (spin: SlotMachine.SpinOutcome, winnings: Num)
    requires dm.Valid()
    modifies dm
    ensures dm.Valid()
    ensures (dm.data, spin, winnings) == Settle(old(dm.data), id, bet, r1, r2, r3)
  {
    var _ := dm.UpdateBalance(id, -(bet as real));
    spin := SlotMachine.Spin(r1, r2, r3);
    ghost var symbols := [SlotMachine.Drawn(r1), SlotMachine.Drawn(r2), SlotMachine.Drawn(r3)];
    assert spin == SlotMachine.SpinOutcome(symbols, SlotMachine.Multiplier(symbols), SlotMachine.Pattern(symbols));
    winnings := Times(bet, spin.multiplier);
    if winnings.Value() > 0.0 {
      var _ := dm.UpdateBalance(id, winnings.Value());
    }
  }

  /**
   * The statistics part of the command, as written: a new highest win goes
   * through update_stats.  The command holds the live record, so the
   * highest win it compares against is the one stored after the two
   * counters were updated.
   */
  method UpdateSlotStats(dm: DataManager, id: string, winnings: Num)
    requires dm.Valid()
    modifies dm
    ensures dm.Valid()
    ensures dm.data == RecordSpinAsWritten(old(dm.data), id, winnings)
    ensures id in dm.data.accounts
  {
    var _ := dm.GetUserData(id);
    dm.UpdateStats(id, "slots_played", Int(1));
    if winnings.Value() > 0.0 {
      dm.UpdateStats(id, "slots_won", Int(1));
      var user := dm.GetUserData(id);
      if winnings.Value() > HighestWin(user).Value() {
        dm.UpdateStats(id, "highest_win", winnings);
      }
    }
  }

  /**
   * The statistics part with the highest win replaced: the new statistics
   * map is written back through update_user_data.
   */
  method UpdateSlotStatsCorrected(dm: DataManager, id: string, winnings: Num)
    requires dm.Valid()
    modifies dm
    ensures dm.Valid()
    ensures dm.data == RecordSpin(old(dm.data), id, winnings)
  {
    var _ := dm.GetUserData(id);
    dm.UpdateStats(id, "slots_played", Int(1));
    if winnings.Value() > 0.0 {
      dm.UpdateStats(id, "slots_won", Int(1));
      var user := dm.GetUserData(id);
      if winnings.Value() > HighestWin(user).Value() {
        dm.UpdateUserData(id, Stats(user.stats.value["highest_win" := winnings]));
      }
    }
  }

  // ---------------------------------------------------------------------
  // Properties
  // ---------------------------------------------------------------------

  /**
   * A bet that does not parse or is below the minimum is refused before
   * the ledger is read; a bet above the balance is refused once the record
   * exists.
   */
  lemma SlotRefusals(st: Store, id: string, bet: Option<int>, r1: real, r2: real, r3: real)
    ensures var (r, o) := SlotStep(st, id, bet, r1, r2, r3);
      && (o.InvalidBet? <==> bet.None?)
      && (o.BelowMinimum? <==> bet.Some? && bet.value < MinimumBet)
      && (o.InvalidBet? || o.BelowMinimum? ==> r == st)
      && (o.InsufficientFunds? <==>
            bet.Some? && bet.value >= MinimumBet && Lookup(st, id).balance < bet.value as real)
      && (o.InsufficientFunds? ==> r == Touch(st, id) && o.balance == Lookup(st, id).balance)
  {
  }

  /** With no bet given the minimum is played; a given bet is the parser's reading of it. */
  lemma BetDefaults(text: string)
    ensures BetOf(None) == Some(MinimumBet)
    ensures BetOf(Some(text)) == NumberParser.ParseAmount(text)
    ensures BetOf(Some("")) == None
  {
    NumberParser.EmptyIsNotANumber();
  }

  /**
   * A played spin shows the three drawn symbols and their multiplier, and
   * pays bet times the multiplier: an integer exactly when the multiplier
   * is, and at most 500 times the bet.
   */
  lemma SlotPays(st: Store, id: string, bet: Option<int>, r1: real, r2: real, r3: real)
    requires SlotStep(st, id, bet, r1, r2, r3).1.Played?
    ensures var o := SlotStep(st, id, bet, r1, r2, r3).1;
      && bet == Some(o.bet) && o.bet >= MinimumBet && Lookup(st, id).balance >= o.bet as real
      && o.spin.symbols == [SlotMachine.Drawn(r1), SlotMachine.Drawn(r2), SlotMachine.Drawn(r3)]
      && o.spin.multiplier == SlotMachine.Multiplier(o.spin.symbols)
      && o.winnings == Times(o.bet, o.spin.multiplier)
      && (o.winnings.Int? <==> o.spin.multiplier.Int?)
      && 0.0 <= o.winnings.Value() <= 500.0 * o.bet as real
  {
    var symbols := [SlotMachine.Drawn(r1), SlotMachine.Drawn(r2), SlotMachine.Drawn(r3)];
    var o := SlotStep(st, id, bet, r1, r2, r3).1;
    assert o.bet == bet.value && o.spin.symbols == symbols;
    var m := SlotMachine.Multiplier(symbols);
    assert o.spin.multiplier == m && o.winnings == Times(o.bet, m);
    WinningsBound(o.bet, symbols);
  }

  /** A stake times the multiplier of any three symbols lies between 0 and 500 times the stake. */
  lemma WinningsBound(amount: int, symbols: seq<SlotMachine.Symbol>)
    requires amount >= 0
    ensures 0.0 <= Times(amount, SlotMachine.Multiplier(symbols)).Value() <= 500.0 * amount as real
  {
    var x := SlotMachine.Multiplier(symbols).Value();
    SlotMachine.MultiplierIsConfigured(symbols);
    assert 0.0 <= x <= 500.0;
    assert amount as real * x <= amount as real * 500.0;
  }

  /**
   * A played spin leaves the balance at the old balance minus the bet plus
   * the winnings, never clamped, and reports that balance; no other record
   * changes.
   */
  lemma SlotSettles(st: Store, id: string, bet: Option<int>, r1: real, r2: real, r3: real)
    requires SlotStep(st, id, bet, r1, r2, r3).1.Played?
    ensures var (r, o) := SlotStep(st, id, bet, r1, r2, r3);
      && o.balance == r.accounts[id].balance == Lookup(st, id).balance - o.bet as real + o.winnings.Value()
      && r.accounts.Keys == st.accounts.Keys + {id}
      && (forall k :: k in st.accounts && k != id ==> r.accounts[k] == st.accounts[k])
  {
    var o := SlotStep(st, id, bet, r1, r2, r3).1;
    SlotPays(st, id, bet, r1, r2, r3);
    var t := Touch(st, id);
    var debited := BalanceUpdated(t, id, -(o.bet as real));
    var credited := if o.winnings.Value() > 0.0 then BalanceUpdated(debited, id, o.winnings.Value()) else debited;
    TouchSpec(st, id);
    MutatorSpec(t, id, -(o.bet as real), "", Int(0), LastDaily(0));
    MutatorSpec(debited, id, o.winnings.Value(), "", Int(0), LastDaily(0));
    RecordSpinKeepsBalances(credited, id, o.winnings);
  }

  /** Winnings are not rounded: a bet of 10 on three lemons wins 7.5. */
  lemma FractionalWinnings()
    ensures Times(10, SlotMachine.Multiplier([SlotMachine.Lemon, SlotMachine.Lemon, SlotMachine.Lemon])) == Float(7.5)
  {
    SlotMachine.ThreeLemons();
  }

  /** Recording the statistics changes no balance and no other record, and adds no id but id. */
  lemma RecordSpinKeepsBalances(st: Store, id: string, winnings: Num)
    requires id in st.accounts
    ensures var r := RecordSpinAsWritten(st, id, winnings);
      && r.accounts.Keys == st.accounts.Keys
      && r.accounts[id].balance == st.accounts[id].balance
      && (forall k :: k in st.accounts && k != id ==> r.accounts[k] == st.accounts[k])
  {
  }

  /**
   * Every spin counts one game played and every win one game won (counters
   * missing from the record start at 0); a loss leaves the won counter.
   */
  lemma SlotCounters(st: Store, id: string, winnings: Num)
    ensures var before := Lookup(st, id);
      var after := RecordSpinAsWritten(st, id, winnings).accounts[id];
      && (Counter(before, "slots_played").Int? ==>
            Counter(after, "slots_played") == Int(Counter(before, "slots_played").i + 1))
      && (Counter(before, "slots_won").Int? ==>
            Counter(after, "slots_won") ==
              Int(Counter(before, "slots_won").i + (if winnings.Value() > 0.0 then 1 else 0)))
  {
    PlayedCounter(st, id, winnings);
    WonCounter(st, id, winnings);
  }

  lemma PlayedCounter(st: Store, id: string, winnings: Num)
    ensures var before := Lookup(st, id);
      var after := RecordSpinAsWritten(st, id, winnings).accounts[id];
      Counter(before, "slots_played").Int? ==>
        Counter(after, "slots_played") == Int(Counter(before, "slots_played").i + 1)
  {
    TouchSpec(st, id);
  }

  lemma WonCounter(st: Store, id: string, winnings: Num)
    ensures var before := Lookup(st, id);
      var after := RecordSpinAsWritten(st, id, winnings).accounts[id];
      Counter(before, "slots_won").Int? ==>
        Counter(after, "slots_won") ==
          Int(Counter(before, "slots_won").i + (if winnings.Value() > 0.0 then 1 else 0))
  {
    TouchSpec(st, id);
  }

  /**
   * As written, in every case: no win, or a win that does not beat the
   * stored highest win, leaves it alone; a beating win is added to a stored
   * integer highest win when it is an integer too, and is stored as it is
   * otherwise (a float, or no highest win stored yet).
   */
  lemma HighestWinAsWritten(st: Store, id: string, w: Num)
    ensures var a := Lookup(st, id);
      var h := HighestWin(a);
      var after := HighestWin(RecordSpinAsWritten(st, id, w).accounts[id]);
      && (w.Value() <= 0.0 || w.Value() <= h.Value() ==> after == h)
      && (w.Value() > 0.0 && w.Value() > h.Value() ==>
            if w.Int? && h.Int? && a.stats.Some? && "highest_win" in a.stats.value
            then after == Int(h.i + w.i)
            else after == w)
  {
    TouchSpec(st, id);
  }

  /**
   * As written, a win that beats an integer highest win h is added to it:
   * the record then holds h + w, more than any single win; a record at 100
   * that wins 200 stores 300.  Replacing the value stores w.
   */
  lemma HighestWinAccumulates(st: Store, id: string, h: int, w: int)
    requires Lookup(st, id).stats.Some? && "highest_win" in Lookup(st, id).stats.value
    requires Lookup(st, id).stats.value["highest_win"] == Int(h)
    requires 0 < h < w
    ensures HighestWin(RecordSpinAsWritten(st, id, Int(w)).accounts[id]) == Int(h + w)
    ensures HighestWin(RecordSpin(st, id, Int(w)).accounts[id]) == Int(w)
  {
    TouchSpec(st, id);
  }

  /**
   * The command as written: a played spin whose integer winnings w beat a
   * stored integer highest win h leaves h + w in the record.
   */
  lemma SlotAccumulatesHighestWin(st: Store, id: string, bet: Option<int>, r1: real, r2: real, r3: real, h: int)
    requires SlotStep(st, id, bet, r1, r2, r3).1.Played?
    requires Lookup(st, id).stats.Some? && "highest_win" in Lookup(st, id).stats.value
    requires Lookup(st, id).stats.value["highest_win"] == Int(h) && 0 < h
    requires SlotStep(st, id, bet, r1, r2, r3).1.winnings.Int?
    requires SlotStep(st, id, bet, r1, r2, r3).1.winnings.i > h
    ensures var (r, o) := SlotStep(st, id, bet, r1, r2, r3);
      HighestWin(r.accounts[id]) == Int(h + o.winnings.i)
  {
    var o := SlotStep(st, id, bet, r1, r2, r3).1;
    var t := Touch(st, id);
    var debited := BalanceUpdated(t, id, -(o.bet as real));
    var credited := if o.winnings.Value() > 0.0 then BalanceUpdated(debited, id, o.winnings.Value()) else debited;
    TouchSpec(st, id);
    MutatorSpec(t, id, -(o.bet as real), "", Int(0), LastDaily(0));
    MutatorSpec(debited, id, o.winnings.Value(), "", Int(0), LastDaily(0));
    assert Lookup(credited, id).stats == Lookup(st, id).stats;
    HighestWinAccumulates(credited, id, h, o.winnings.i);
  }

  /**
   * The corrected record differs from the one as written in id's record
   * alone: the same ids in the same order, every other record the same.
   */
  lemma CorrectionOnlyTouchesHighestWin(st: Store, id: string, winnings: Num)
    ensures var w := RecordSpinAsWritten(st, id, winnings);
      var c := RecordSpin(st, id, winnings);
      && c.order == w.order
      && c.accounts.Keys == w.accounts.Keys
      && (forall k :: k in w.accounts && k != id ==> c.accounts[k] == w.accounts[k])
  {
    var played := StatsUpdated(st, id, "slots_played", Int(1));
    if winnings.Value() > 0.0 {
      var won := StatsUpdated(played, id, "slots_won", Int(1));
      MutatorSpec(played, id, 0.0, "slots_won", Int(1), LastDaily(0));
      var a := won.accounts[id];
      if winnings.Value() > HighestWin(a).Value() {
        var f := Stats(a.stats.value["highest_win" := winnings]);
        MutatorSpec(won, id, 0.0, "highest_win", winnings, f);
        MutatorsOnlyAdd(won, id, 0.0, "highest_win", winnings, f);
      }
    }
  }

  /** Within id's record, the correction keeps the balance and both counters. */
  lemma CorrectionKeepsCounters(st: Store, id: string, winnings: Num)
    ensures var w := RecordSpinAsWritten(st, id, winnings).accounts[id];
      var c := RecordSpin(st, id, winnings).accounts[id];
      && c.balance == w.balance
      && Counter(c, "slots_played") == Counter(w, "slots_played")
      && Counter(c, "slots_won") == Counter(w, "slots_won")
  {
    var played := StatsUpdated(st, id, "slots_played", Int(1));
    if winnings.Value() > 0.0 {
      var won := StatsUpdated(played, id, "slots_won", Int(1));
      MutatorSpec(played, id, 0.0, "slots_won", Int(1), LastDaily(0));
      var a := won.accounts[id];
      if winnings.Value() > HighestWin(a).Value() {
        var f := Stats(a.stats.value["highest_win" := winnings]);
        MutatorSpec(won, id, 0.0, "highest_win", winnings, f);
        AddStatRule(a.stats, "highest_win", winnings);
        SetFieldRule(a, f);
      }
    }
  }

  /**
   * With the highest win replaced, the stored highest win after a spin is
   * the larger of the one before and the spin's winnings: it is one of the
   * two, and no smaller than either (winnings of 0 leave it alone).
   */
  lemma HighestWinIsMaximum(st: Store, id: string, winnings: Num)
    ensures var before := HighestWin(Lookup(st, id));
      var after := HighestWin(RecordSpin(st, id, winnings).accounts[id]);
      && (after == before || after == winnings)
      && after.Value() >= before.Value()
      && (winnings.Value() > 0.0 ==> after.Value() >= winnings.Value())
  {
    TouchSpec(st, id);
  }
}
