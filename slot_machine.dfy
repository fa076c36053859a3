/**
 * The slot machine: nine weighted symbols, a payout table for matches of
 * two and three, a Wild that adds itself to every non-Scatter symbol, and
 * the resolution of a three-symbol draw into a multiplier and a pattern
 * text.
 */
module SlotMachine {
  import opened Values

  datatype Symbol = Seven | Diamond | Wild | Scatter | Bell | Orange | Lemon | Heart | Cherry

  /** The machine's symbols in table order; every scan below visits them in this order. */
  const Table: seq<Symbol> := [Seven, Diamond, Wild, Scatter, Bell, Orange, Lemon, Heart, Cherry]

  const TotalWeight: nat := 114

  /** How each symbol is displayed. */
  function Glyph(s: Symbol): string {
    match s
    case Seven => "7\U{FE0F}\U{20E3}"       // keycap seven
    case Diamond => "\U{1F48E}"
    case Wild => "\U{1F3B0}"                // slot machine
    case Scatter => "*\U{FE0F}\U{20E3}"     // keycap asterisk
    case Bell => "\U{1F514}"
    case Orange => "\U{1F34A}"
    case Lemon => "\U{1F34B}"
    case Heart => "\U{2764}\U{FE0F}"
    case Cherry => "\U{1F352}"
  }

  /** Selection weight: the chance of a symbol is its weight over TotalWeight. */
  function Weight(s: Symbol): nat {
    match s
    case Seven => 1
    case Diamond => 3
    case Wild => 5
    case Scatter => 8
    case Bell => 12
    case Orange => 18
    case Lemon => 20
    case Heart => 22
    case Cherry => 25
  }

  /** Payout table of a symbol: match count to multiplier, integers and floats as written. */
  function Payouts(s: Symbol): map<int, Num> {
    match s
    case Seven => map[2 := Int(25), 3 := Int(500)]
    case Diamond => map[2 := Int(10), 3 := Int(25)]
    case Wild => map[2 := Int(3), 3 := Int(5)]
    case Scatter => map[2 := Int(2), 3 := Int(3)]
    case Bell => map[2 := Int(1), 3 := Int(2)]
    case Orange => map[2 := Int(1), 3 := Int(1)]
    case Lemon => map[2 := Int(1), 3 := Float(0.75)]
    case Heart => map[2 := Float(0.75), 3 := Float(0.5)]
    case Cherry => map[2 := Float(0.25), 3 := Float(0.5)]
  }

  /** The table entry for an exact count, the integer 0 when there is none. */
  function Payout(s: Symbol, count: int): Num {
    if count in Payouts(s) then Payouts(s)[count] else Int(0)
  }

  // ---------------------------------------------------------------------
  // Drawing a symbol
  // ---------------------------------------------------------------------

  /** Sum of the weights of the first n symbols of the table. */
  function Cumulative(n: nat): nat
    requires n <= |Table|
  {
    if n == 0 then 0 else Cumulative(n - 1) + Weight(Table[n - 1])
  }

  /**
   * The draw from position i on, with v what is left of the draw value:
   * subtract each weight in turn and stop at the first symbol that brings
   * it to zero or below; past the end of the table the result is Cherry.
   */
  function DrawFrom(v: real, i: nat): Symbol
    requires i <= |Table|
    decreases |Table| - i
  {
    if i == |Table| then Cherry
    else if v - Weight(Table[i]) as real <= 0.0 then Table[i]
    else DrawFrom(v - Weight(Table[i]) as real, i + 1)
  }

  /** The symbol selected by draw value r (the source's `random() * 114`). */
  function Drawn(r: real): Symbol {
    DrawFrom(r, 0)
  }

  method DrawSymbol(r: real) returns (s: Symbol)
    ensures s == Drawn(r)
  {
    var v := r;
    var i := 0;
    while i < |Table|
      invariant 0 <= i <= |Table|
      invariant v == r - Cumulative(i) as real
      invariant i > 0 ==> r > Cumulative(i) as real
    {
      var symbol := Table[i];
      v := v - Weight(symbol) as real;
      if v <= 0.0 {
        DrawnInterval(r, i);
        return symbol;
      }
      i := i + 1;
    }
    DrawFromBeyond(r, 0);
    s := Cherry;
  }

  lemma {:induction false} CumulativeMonotone(a: nat, b: nat)
    requires a <= b <= |Table|
    ensures Cumulative(a) <= Cumulative(b)
    decreases b - a
  {
    if a < b {
      CumulativeMonotone(a, b - 1);
    }
  }

  lemma {:induction false} DrawFromInterval(v: real, i: nat, k: nat)
    requires i <= k < |Table|
    requires i == k || (Cumulative(k) - Cumulative(i)) as real < v
    requires v <= (Cumulative(k + 1) - Cumulative(i)) as real
    ensures DrawFrom(v, i) == Table[k]
    decreases k - i
  {
    if i < k {
      CumulativeMonotone(i + 1, k);
      DrawFromInterval(v - Weight(Table[i]) as real, i + 1, k);
    }
  }

  /**
   * The draw selects the first symbol in table order whose cumulative
   * weight reaches r: a value in (Cumulative(k), Cumulative(k+1)] selects
   * the k-th symbol (any value up to Cumulative(1) selects the first), so
   * each symbol owns an interval as long as its weight.
   */
  lemma DrawnInterval(r: real, k: nat)
    requires k < |Table|
    requires k == 0 || Cumulative(k) as real < r
    requires r <= Cumulative(k + 1) as real
    ensures Drawn(r) == Table[k]
  {
    DrawFromInterval(r, 0, k);
  }

  lemma {:induction false} DrawFromBeyond(v: real, i: nat)
    requires i <= |Table|
    requires v > (Cumulative(|Table|) - Cumulative(i)) as real
    ensures DrawFrom(v, i) == Cherry
    decreases |Table| - i
  {
    if i < |Table| {
      CumulativeMonotone(i + 1, |Table|);
      DrawFromBeyond(v - Weight(Table[i]) as real, i + 1);
    }
  }

  /**
   * The weights add up to TotalWeight, and only a draw value beyond the
   * total reaches the Cherry fallback.
   */
  lemma DrawnOutsideIntervals(r: real)
    ensures Cumulative(|Table|) == TotalWeight
    ensures r > TotalWeight as real ==> Drawn(r) == Cherry
  {
    assert Cumulative(1) == 1 && Cumulative(2) == 4 && Cumulative(3) == 9;
    assert Cumulative(4) == 17 && Cumulative(5) == 29 && Cumulative(6) == 47;
    assert Cumulative(7) == 67 && Cumulative(8) == 89 && Cumulative(9) == 114;
    if r > TotalWeight as real {
      DrawFromBeyond(r, 0);
    }
  }

  // ---------------------------------------------------------------------
  // Counting and the multiplier
  // ---------------------------------------------------------------------

  /** Occurrences of s in the draw. */
  function Count(d: seq<Symbol>, s: Symbol): nat {
    if d == [] then 0 else Count(d[..|d| - 1], s) + (if d[|d| - 1] == s then 1 else 0)
  }

  /** Wilds that count towards s: all of them, unless s is the Scatter. */
  function WildHelp(d: seq<Symbol>, s: Symbol): nat {
    if s != Scatter then Count(d, Wild) else 0
  }

  /**
   * Effective count of s: its own occurrences plus the Wilds that help it.
   * Wild is not the Scatter, so it is helped by itself and its effective
   * count is twice its raw count.
   */
  function EffectiveCount(d: seq<Symbol>, s: Symbol): nat {
    Count(d, s) + WildHelp(d, s)
  }

  /** Best payout so far and the symbol that holds it. */
  datatype Best = Best(payout: Num, winner: Option<Symbol>)

  /**
   * The running maximum over the first n symbols of the table: a symbol
   * with effective count at least 2 replaces the best only when its
   * payout is strictly greater.
   */
  function Scan(d: seq<Symbol>, n: nat): Best
    requires n <= |Table|
  {
    if n == 0 then Best(Int(0), None)
    else
      var b := Scan(d, n - 1);
      var s := Table[n - 1];
      var c := EffectiveCount(d, s);
      if c >= 2 && Payout(s, c).Value() > b.payout.Value() then Best(Payout(s, c), Some(s)) else b
  }

  /** The multiplier of a draw. */
  function Multiplier(d: seq<Symbol>): Num {
    Scan(d, |Table|).payout
  }

  /** The symbol whose payout is the multiplier, if any pays. */
  function Winner(d: seq<Symbol>): Option<Symbol> {
    Scan(d, |Table|).winner
  }

  method CalculatePayout(d: seq<Symbol>) returns (m: Num)
    ensures m == Multiplier(d)
  {
    var counts: map<Symbol, nat> := map[];
    var i := 0;
    while i < |Table|
      invariant 0 <= i <= |Table|
      invariant forall s :: s in counts <==> s in Table[..i]
      invariant forall s :: s in counts ==> counts[s] == EffectiveCount(d, s)
    {
      var s := Table[i];
      counts := counts[s := Count(d, s)];
      if s != Scatter {
        counts := counts[s := counts[s] + Count(d, Wild)];
      }
      i := i + 1;
    }
    m := Int(0);
    var j := 0;
    while j < |Table|
      invariant 0 <= j <= |Table|
      invariant m == Scan(d, j).payout
    {
      var s := Table[j];
      assert s in Table[..|Table|];
      var c := counts[s];
      if c >= 2 {
        var p := Payout(s, c);
        if p.Value() > m.Value() {
          m := p;
        }
      }
      j := j + 1;
    }
  }

  // ---------------------------------------------------------------------
  // Properties of the multiplier
  // ---------------------------------------------------------------------

  lemma {:induction false} ScanIsMaximum(d: seq<Symbol>, n: nat)
    requires n <= |Table|
    ensures Scan(d, n).payout.Value() >= 0.0
    ensures forall k :: 0 <= k < n && EffectiveCount(d, Table[k]) >= 2 ==>
              Payout(Table[k], EffectiveCount(d, Table[k])).Value() <= Scan(d, n).payout.Value()
  {
    if n > 0 {
      ScanIsMaximum(d, n - 1);
    }
  }

  lemma {:induction false} ScanWitness(d: seq<Symbol>, n: nat)
    requires n <= |Table|
    ensures Scan(d, n).winner == None <==> Scan(d, n).payout == Int(0)
    ensures Scan(d, n).winner == None ==>
              forall k :: 0 <= k < n && EffectiveCount(d, Table[k]) >= 2 ==>
                Payout(Table[k], EffectiveCount(d, Table[k])).Value() <= 0.0
    ensures Scan(d, n).winner.Some? ==>
              exists j :: 0 <= j < n && Table[j] == Scan(d, n).winner.value
                && EffectiveCount(d, Table[j]) >= 2
                && Payout(Table[j], EffectiveCount(d, Table[j])) == Scan(d, n).payout
                && Scan(d, n).payout.Value() > 0.0
                && forall k :: 0 <= k < j && EffectiveCount(d, Table[k]) >= 2 ==>
                     Payout(Table[k], EffectiveCount(d, Table[k])).Value() < Scan(d, n).payout.Value()
  {
    if n > 0 {
      ScanWitness(d, n - 1);
      ScanIsMaximum(d, n - 1);
      var b := Scan(d, n - 1);
      var s := Table[n - 1];
      var c := EffectiveCount(d, s);
      if c >= 2 && Payout(s, c).Value() > b.payout.Value() {
        assert Table[n - 1] == Scan(d, n).winner.value;
      }
    }
  }

  lemma TableHasAll(s: Symbol)
    ensures exists k :: 0 <= k < |Table| && Table[k] == s
  {
    match s
    case Seven => assert Table[0] == s;
    case Diamond => assert Table[1] == s;
    case Wild => assert Table[2] == s;
    case Scatter => assert Table[3] == s;
    case Bell => assert Table[4] == s;
    case Orange => assert Table[5] == s;
    case Lemon => assert Table[6] == s;
    case Heart => assert Table[7] == s;
    case Cherry => assert Table[8] == s;
  }

  /**
   * The multiplier is the maximum, over the symbols with effective count
   * at least 2, of the payout for that exact count (a missing entry
   * counting as 0), and 0 when no symbol qualifies.
   */
  lemma MultiplierIsMaximum(d: seq<Symbol>)
    ensures Multiplier(d).Value() >= 0.0
    ensures forall s :: EffectiveCount(d, s) >= 2 ==> Payout(s, EffectiveCount(d, s)).Value() <= Multiplier(d).Value()
    ensures Multiplier(d) == Int(0) || exists s :: EffectiveCount(d, s) >= 2 && Payout(s, EffectiveCount(d, s)) == Multiplier(d)
  {
    ScanIsMaximum(d, |Table|);
    ScanWitness(d, |Table|);
    forall s | EffectiveCount(d, s) >= 2
      ensures Payout(s, EffectiveCount(d, s)).Value() <= Multiplier(d).Value()
    {
      TableHasAll(s);
    }
  }

  /**
   * Ties go to the earliest symbol in table order: the winner pays the
   * multiplier, and every symbol before it pays strictly less.
   */
  lemma WinnerIsFirstBest(d: seq<Symbol>)
    ensures Winner(d) == None <==> Multiplier(d).Value() == 0.0
    ensures Winner(d) == None ==> Multiplier(d) == Int(0)
    ensures Winner(d).Some? ==>
              exists j :: 0 <= j < |Table| && Table[j] == Winner(d).value
                && EffectiveCount(d, Table[j]) >= 2
                && Payout(Table[j], EffectiveCount(d, Table[j])) == Multiplier(d)
                && forall k :: 0 <= k < j && EffectiveCount(d, Table[k]) >= 2 ==>
                     Payout(Table[k], EffectiveCount(d, Table[k])).Value() < Multiplier(d).Value()
  {
    ScanWitness(d, |Table|);
  }

  /** Every table entry lies between 0 and 500. */
  lemma PayoutInRange(s: Symbol, count: int)
    ensures 0.0 <= Payout(s, count).Value() <= 500.0
  {
  }

  /** The multiplier is 0 or a configured payout, hence between 0 and 500. */
  lemma MultiplierIsConfigured(d: seq<Symbol>)
    ensures Multiplier(d) == Int(0) || exists s, c :: c in Payouts(s) && Payouts(s)[c] == Multiplier(d)
    ensures 0.0 <= Multiplier(d).Value() <= 500.0
  {
    MultiplierIsMaximum(d);
    if Multiplier(d) != Int(0) {
      var s :| EffectiveCount(d, s) >= 2 && Payout(s, EffectiveCount(d, s)) == Multiplier(d);
      var c := EffectiveCount(d, s);
      PayoutInRange(s, c);
      assert c in Payouts(s);
    }
  }

  /** A Wild in a draw of three always pays: at least 3 with one, at least 25 with two, 500 with three. */
  lemma WildsPay(d: seq<Symbol>)
    requires |d| == 3
    ensures Count(d, Wild) >= 1 ==> Multiplier(d).Value() >= 3.0
    ensures Count(d, Wild) >= 2 ==> Multiplier(d).Value() >= 25.0
    ensures Count(d, Wild) == 3 ==> Multiplier(d) == Int(500)
  {
    MultiplierIsMaximum(d);
    CountBound(d, Seven, Wild);
    if Count(d, Wild) == 1 {
      assert EffectiveCount(d, Wild) == 2;
    } else if Count(d, Wild) >= 2 {
      assert 2 <= EffectiveCount(d, Seven) <= 3;
      if Count(d, Wild) == 3 {
        assert EffectiveCount(d, Seven) == 3;
        MultiplierIsConfigured(d);
      }
    }
  }

  lemma {:induction false} CountBound(d: seq<Symbol>, s: Symbol, t: Symbol)
    ensures Count(d, s) <= |d|
    ensures s != t ==> Count(d, s) + Count(d, t) <= |d|
  {
    if d != [] {
      CountBound(d[..|d| - 1], s, t);
    }
  }

  // ---------------------------------------------------------------------
  // The winning pattern
  // ---------------------------------------------------------------------

  /** Counts kept for a symbol in the pattern scan: total, own and Wild help. */
  datatype Counts = Counts(total: nat, regular: nat, wild: nat)

  function CountsOf(d: seq<Symbol>, s: Symbol): Counts {
    Counts(EffectiveCount(d, s), Count(d, s), WildHelp(d, s))
  }

  /** The pattern text for a winning symbol with the given counts. */
  function Describe(s: Symbol, c: Counts): string {
    if c.wild > 0 then
      if s == Scatter then NatToString(c.total) + "x " + Glyph(s) + " (Scatter)"
      else NatToString(c.regular) + "x " + Glyph(s) + " + " + NatToString(c.wild) + "x " + Glyph(Wild) + " (Wild)"
    else
      var special := if s == Wild then " (Wild)" else if s == Scatter then " (Scatter)" else "";
      NatToString(c.total) + "x " + Glyph(s) + special
  }

  /** The winning pattern of a draw: empty when nothing pays. */
  function Pattern(d: seq<Symbol>): string {
    match Winner(d)
    case None => ""
    case Some(s) => if Multiplier(d).Value() == 0.0 then "" else Describe(s, CountsOf(d, s))
  }

  method GetWinningPattern(d: seq<Symbol>) returns (p: string)
    ensures p == Pattern(d)
  {
    var counts: map<Symbol, Counts> := map[];
    var i := 0;
    while i < |Table|
      invariant 0 <= i <= |Table|
      invariant forall s :: s in counts <==> s in Table[..i] && EffectiveCount(d, s) >= 2
      invariant forall s :: s in counts ==> counts[s] == CountsOf(d, s)
    {
      var s := Table[i];
      var symbolCount := Count(d, s);
      var wildCount := 0;
      if s != Scatter {
        wildCount := Count(d, Wild);
      }
      var total := symbolCount + wildCount;
      if total >= 2 {
        counts := counts[s := Counts(total, symbolCount, wildCount)];
      }
      i := i + 1;
    }
    var maxPayout := Int(0);
    var winning: Option<Symbol> := None;
    var winningCounts := Counts(0, 0, 0);
    var j := 0;
    while j < |Table|
      invariant 0 <= j <= |Table|
      invariant Best(maxPayout, winning) == Scan(d, j)
      invariant winning.Some? ==> winningCounts == CountsOf(d, winning.value)
    {
      var s := Table[j];
      if s in counts && counts[s].total >= 2 {
        var payout := Payout(s, counts[s].total);
        if payout.Value() > maxPayout.Value() {
          maxPayout := payout;
          winning := Some(s);
          winningCounts := counts[s];
        }
      } else {
        assert s in Table[..|Table|];
      }
      j := j + 1;
    }
    if winning == None || maxPayout.Value() == 0.0 {
      return "";
    }
    p := Describe(winning.value, winningCounts);
  }

  /**
   * The pattern is empty exactly when the multiplier is 0.  Otherwise it
   * describes the winner at its effective count: "<own>x S + <wilds>x
   * Wild (Wild)" when Wilds helped, else "<count>x S" with " (Scatter)"
   * for the Scatter.  The Scatter-with-Wild text and the " (Wild)" suffix
   * without Wild help are never produced.
   */
  lemma PatternAgreesWithMultiplier(d: seq<Symbol>)
    ensures Pattern(d) == "" <==> Multiplier(d).Value() == 0.0
    ensures Winner(d).Some? ==>
              var s := Winner(d).value;
              && Payout(s, EffectiveCount(d, s)) == Multiplier(d)
              && Pattern(d) == (if s != Scatter && Count(d, Wild) > 0
                                then NatToString(Count(d, s)) + "x " + Glyph(s) + " + "
                                     + NatToString(Count(d, Wild)) + "x " + Glyph(Wild) + " (Wild)"
                                else NatToString(EffectiveCount(d, s)) + "x " + Glyph(s)
                                     + (if s == Scatter then " (Scatter)" else ""))
  {
    WinnerIsFirstBest(d);
    if Winner(d).Some? {
      var s := Winner(d).value;
      if s == Wild {
        assert Count(d, Wild) > 0 by {
          var j :| 0 <= j < |Table| && Table[j] == s && EffectiveCount(d, Table[j]) >= 2;
        }
      }
    }
  }

  // ---------------------------------------------------------------------
  // A spin
  // ---------------------------------------------------------------------

  datatype SpinOutcome = SpinOutcome(symbols: seq<Symbol>, multiplier: Num, pattern: string)

  /** Three draws with the given draw values, then the multiplier and the pattern of the result. */
  method Spin(r1: real, r2: real, r3: real) returns (o: SpinOutcome)
    ensures |o.symbols| == 3
    ensures o.symbols == [Drawn(r1), Drawn(r2), Drawn(r3)]
    ensures o.multiplier == Multiplier(o.symbols)
    ensures o.pattern == Pattern(o.symbols)
  {
    var a := DrawSymbol(r1);
    var b := DrawSymbol(r2);
    var c := DrawSymbol(r3);
    var symbols := [a, b, c];
    var m := CalculatePayout(symbols);
    var p := GetWinningPattern(symbols);
    o := SpinOutcome(symbols, m, p);
  }

  // ---------------------------------------------------------------------
  // Worked draws
  // ---------------------------------------------------------------------

  lemma CountOfThree(a: Symbol, b: Symbol, c: Symbol, s: Symbol)
    ensures Count([a, b, c], s) == (if a == s then 1 else 0) + (if b == s then 1 else 0) + (if c == s then 1 else 0)
  {
    assert [a, b, c][..2] == [a, b];
    assert [a, b][..1] == [a];
    assert [a][..0] == [];
    assert Count([a], s) == (if a == s then 1 else 0);
    assert Count([a, b], s) == Count([a], s) + (if b == s then 1 else 0);
  }

  /** Three sevens pay 500. */
  lemma ThreeSevens()
    ensures Multiplier([Seven, Seven, Seven]) == Int(500)
    ensures Pattern([Seven, Seven, Seven]) == "3x " + Glyph(Seven)
  {
    var d := [Seven, Seven, Seven];
    forall s { CountOfThree(Seven, Seven, Seven, s); }
    MultiplierIsMaximum(d);
    WinnerIsFirstBest(d);
    PatternAgreesWithMultiplier(d);
    assert EffectiveCount(d, Seven) == 3;
    assert Winner(d) == Some(Seven);
  }

  /**
   * Two cherries and a Wild pay 3, not the cherry three-count 0.5: the
   * Wild reaches effective count 2 by itself and outranks the cherries.
   */
  lemma CherriesWithWild()
    ensures EffectiveCount([Cherry, Cherry, Wild], Cherry) == 3
    ensures Multiplier([Cherry, Cherry, Wild]) == Int(3)
    ensures Pattern([Cherry, Cherry, Wild]) == "1x " + Glyph(Wild) + " + 1x " + Glyph(Wild) + " (Wild)"
  {
    var d := [Cherry, Cherry, Wild];
    forall s { CountOfThree(Cherry, Cherry, Wild, s); }
    assert EffectiveCount(d, Wild) == 2;
    assert forall s :: EffectiveCount(d, s) >= 2 ==> s == Wild || s == Cherry;
    assert Multiplier(d) == Int(3) by {
      MultiplierIsMaximum(d);
    }
    assert Winner(d) == Some(Wild) by {
      WinnerIsFirstBest(d);
    }
    PatternAgreesWithMultiplier(d);
  }

  /** Three lemons pay the fractional multiplier 0.75. */
  lemma ThreeLemons()
    ensures Multiplier([Lemon, Lemon, Lemon]) == Float(0.75)
  {
    var d := [Lemon, Lemon, Lemon];
    forall s { CountOfThree(Lemon, Lemon, Lemon, s); }
    MultiplierIsMaximum(d);
    assert forall s :: EffectiveCount(d, s) >= 2 ==> s == Lemon;
    assert EffectiveCount(d, Lemon) == 3;
  }

  /** Bell, orange and lemon match nothing: multiplier 0, empty pattern. */
  lemma NoMatch()
    ensures Multiplier([Bell, Orange, Lemon]) == Int(0)
    ensures Pattern([Bell, Orange, Lemon]) == ""
  {
    var d := [Bell, Orange, Lemon];
    forall s { CountOfThree(Bell, Orange, Lemon, s); }
    WinnerIsFirstBest(d);
    PatternAgreesWithMultiplier(d);
    assert forall s :: EffectiveCount(d, s) <= 1;
  }
}
