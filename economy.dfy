/**
 * The economy commands: the daily reward, vote rewards with their tiers,
 * transfers between users, and the per-server leaderboard.
 *
 * Each command is specified by a step function from the ledger before the
 * command to the ledger after it and the reply; the methods run the same
 * steps against a DataManager and are proved to follow the step function.
 * The clock, the guild's member list, the target's bot flag and the answer
 * to the confirmation prompt are parameters.
 */
module Economy {
  import opened Values
  import opened Ledger
  import NumberParser

  // ---------------------------------------------------------------------
  // Daily reward
  // ---------------------------------------------------------------------

  const DailyAmount: real := 100.0

  /** Seconds that must pass between two daily claims. */
  const DailyCooldown: int := 86400

  /** A duration shown as hours, minutes and seconds. */
  datatype Clock = Clock(hours: nat, minutes: nat, seconds: nat)

  /** The two divmods that turn a number of seconds into a Clock. */
  function SplitTime(t: nat): (c: Clock)
    ensures c.hours * 3600 + c.minutes * 60 + c.seconds == t
    ensures c.minutes < 60 && c.seconds < 60
  {
    Clock(t / 3600, (t % 3600) / 60, (t % 3600) % 60)
  }

  /**
   * The cooldown applies when a claim time is recorded, is not zero (a
   * zero time counts as no claim), and less than a day has passed since.
   */
  predicate OnCooldown(a: Account, now: int) {
    a.lastDaily.Some? && a.lastDaily.value != 0 && now - a.lastDaily.value < DailyCooldown
  }

  datatype DailyOutcome = AlreadyClaimed(wait: Clock) | DailyClaimed(balance: real)

  /** The daily command as a function of the ledger and the current time. */
  function DailyStep(st: Store, id: string, now: int): (Store, DailyOutcome) {
    var t := Touch(st, id);
    var a := t.accounts[id];
    if OnCooldown(a, now) then
      (t, AlreadyClaimed(SplitTime(DailyCooldown - (now - a.lastDaily.value))))
    else
      var r := FieldUpdated(BalanceUpdated(t, id, DailyAmount), id, LastDaily(now));
      (r, DailyClaimed(r.accounts[id].balance))
  }

  method Daily(dm: DataManager, id: string, now: int) returns (outcome: DailyOutcome)
    requires dm.Valid()
    modifies dm
    ensures dm.Valid()
    ensures (dm.data, outcome) == DailyStep(old(dm.data), id, now)
  {
    var user := dm.GetUserData(id);
    if OnCooldown(user, now) {
      var left := DailyCooldown - (now - user.lastDaily.value);
      outcome := AlreadyClaimed(SplitTime(left));
      return;
    }
    var _ := dm.UpdateBalance(id, DailyAmount);
    dm.UpdateUserData(id, LastDaily(now));
    user := dm.GetUserData(id);
    outcome := DailyClaimed(user.balance);
  }

  /**
   * A claim is refused exactly when the cooldown applies; a refusal only
   * creates the record and reports the time left (at most a day once the
   * clock has not gone back); a claim adds 100 coins, records the time and
   * changes nothing else.
   */
  lemma DailyRule(st: Store, id: string, now: int)
    ensures var (r, o) := DailyStep(st, id, now);
      && (o.AlreadyClaimed? <==> OnCooldown(Lookup(st, id), now))
      && (o.AlreadyClaimed? ==>
            && r == Touch(st, id)
            && (var last := Lookup(st, id).lastDaily.value;
                && o.wait.hours * 3600 + o.wait.minutes * 60 + o.wait.seconds == DailyCooldown - (now - last) > 0
                && (now >= last ==> o.wait.hours <= 24)))
      && (o.DailyClaimed? ==>
            && r.accounts.Keys == st.accounts.Keys + {id}
            && r.accounts[id] == Lookup(st, id).(balance := Clamp(Lookup(st, id).balance, DailyAmount), lastDaily := Some(now))
            && o.balance == r.accounts[id].balance
            && (Lookup(st, id).balance >= 0.0 ==> o.balance == Lookup(st, id).balance + 100.0)
            && (forall k :: k in st.accounts && k != id ==> r.accounts[k] == st.accounts[k]))
  {
    var (r, o) := DailyStep(st, id, now);
    if o.AlreadyClaimed? {
      var last := Lookup(st, id).lastDaily.value;
      if now >= last {
        assert o.wait.hours * 3600 <= 86400;
      }
    }
  }

  /**
   * A successful claim at a non-zero time blocks every further claim for
   * a day, and the next claim a day or more later succeeds.
   */
  lemma DailyOncePerDay(st: Store, id: string, now: int, later: int)
    requires DailyStep(st, id, now).1.DailyClaimed?
    ensures var r := DailyStep(st, id, now).0;
      && (now != 0 && now <= later < now + DailyCooldown ==> DailyStep(r, id, later).1.AlreadyClaimed?)
      && (later >= now + DailyCooldown ==> DailyStep(r, id, later).1.DailyClaimed?)
  {
    var r := DailyStep(st, id, now).0;
    assert Touch(r, id) == r;
    assert r.accounts[id].lastDaily == Some(now);
  }

  /** A claim recorded at time zero reads as no claim, so it never blocks the next one. */
  lemma DailyAtZeroNeverBlocks(st: Store, id: string, later: int)
    requires DailyStep(st, id, 0).1.DailyClaimed?
    ensures DailyStep(DailyStep(st, id, 0).0, id, later).1.DailyClaimed?
  {
    var r := DailyStep(st, id, 0).0;
    assert Touch(r, id) == r;
    assert r.accounts[id].lastDaily == Some(0);
  }

  // ---------------------------------------------------------------------
  // Vote rewards
  // ---------------------------------------------------------------------

  /** Votes low..high (inclusive) pay reward coins, shown as the given multiplier. */
  datatype Tier = Tier(low: int, high: int, multiplier: nat, reward: nat)

  const VoteTiers: seq<Tier> := [
    Tier(1, 20, 1, 100000),
    Tier(21, 21, 3, 300000),
    Tier(22, 41, 2, 200000),
    Tier(42, 42, 6, 600000),
    Tier(43, 62, 3, 300000),
    Tier(63, 63, 9, 900000),
    Tier(64, 83, 4, 400000),
    Tier(84, 84, 12, 1200000)
  ]

  /** The votes announced as milestones. */
  const Milestones: seq<int> := [21, 42, 63, 84]

  predicate Holds(t: Tier, n: int) {
    t.low <= n <= t.high
  }

  /** The index of the first tier that holds n, or |tiers| when none does. */
  function FirstMatch(tiers: seq<Tier>, n: int): (k: nat)
    ensures k <= |tiers|
    ensures k < |tiers| ==> Holds(tiers[k], n)
    ensures forall j :: 0 <= j < k ==> !Holds(tiers[j], n)
    decreases |tiers|
  {
    if tiers == [] then 0
    else if Holds(tiers[0], n) then 0
    else 1 + FirstMatch(tiers[1..], n)
  }

  /** The tier of vote n: the first that holds it, and the last tier when none does. */
  function TierFor(n: int): Tier {
    var k := FirstMatch(VoteTiers, n);
    if k < |VoteTiers| then VoteTiers[k] else VoteTiers[|VoteTiers| - 1]
  }

  /** The search loop of the vote command: first tier in order, falling back to the last. */
  method FindTier(n: int) returns (t: Tier)
    ensures t == TierFor(n)
    ensures t in VoteTiers
    ensures Holds(t, n) || (t == VoteTiers[|VoteTiers| - 1] && forall u :: u in VoteTiers ==> !Holds(u, n))
  {
    var i := 0;
    while i < |VoteTiers| && !Holds(VoteTiers[i], n)
      invariant 0 <= i <= |VoteTiers|
      invariant forall j :: 0 <= j < i ==> !Holds(VoteTiers[j], n)
    {
      i := i + 1;
    }
    if i < |VoteTiers| {
      t := VoteTiers[i];
    } else {
      t := VoteTiers[|VoteTiers| - 1];
    }
  }

  /** A vote's reward is the base reward of 100,000 coins times its multiplier. */
  lemma RewardIsMultiplied(n: int)
    ensures TierFor(n).reward == 100000 * TierFor(n).multiplier
  {
    assert forall t :: t in VoteTiers ==> t.reward == 100000 * t.multiplier;
  }

  /** The tiers are consecutive ranges covering exactly the votes 1 to 84. */
  lemma TiersPartition()
    ensures VoteTiers[0].low == 1 && VoteTiers[|VoteTiers| - 1].high == 84
    ensures forall k :: 0 <= k < |VoteTiers| ==> VoteTiers[k].low <= VoteTiers[k].high
    ensures forall k :: 0 <= k < |VoteTiers| - 1 ==> VoteTiers[k + 1].low == VoteTiers[k].high + 1
  {
  }

  /**
   * The schedule in closed form: the votes of the n-th block of 21 share
   * multiplier n, and the multiple of 21 that ends the block pays three
   * times that.
   */
  function ClosedMultiplier(n: int): int {
    if n % 21 == 0 then 3 * (n / 21) else n / 21 + 1
  }

  /**
   * Each tier agrees with the closed form on the votes it holds, and holds
   * a milestone exactly when it holds a single vote.
   */
  lemma TableAgrees(k: nat, n: int)
    requires k < |VoteTiers| && Holds(VoteTiers[k], n)
    ensures ClosedMultiplier(n) == VoteTiers[k].multiplier
    ensures n in Milestones <==> VoteTiers[k].low == VoteTiers[k].high
  {
  }

  /** Every vote from 1 to 84 has a tier of its own. */
  lemma Covered(n: int)
    requires 1 <= n <= 84
    ensures FirstMatch(VoteTiers, n) < |VoteTiers|
  {
    assert exists k :: 0 <= k < |VoteTiers| && Holds(VoteTiers[k], n) by {
      assert Holds(VoteTiers[0], n) || Holds(VoteTiers[1], n) || Holds(VoteTiers[2], n) || Holds(VoteTiers[3], n)
        || Holds(VoteTiers[4], n) || Holds(VoteTiers[5], n) || Holds(VoteTiers[6], n) || Holds(VoteTiers[7], n);
    }
  }

  /** Votes 1 to 84 are paid by the tier that holds them, at the closed-form multiplier. */
  lemma TierClosedForm(n: int)
    requires 1 <= n <= 84
    ensures Holds(TierFor(n), n)
    ensures TierFor(n).multiplier == ClosedMultiplier(n)
  {
    Covered(n);
    TableAgrees(FirstMatch(VoteTiers, n), n);
  }

  /** Within 1..84, the milestones are exactly the votes with a tier of their own. */
  lemma MilestonesAreSingleTiers(n: int)
    requires 1 <= n <= 84
    ensures n in Milestones <==> TierFor(n).low == TierFor(n).high
  {
    Covered(n);
    TableAgrees(FirstMatch(VoteTiers, n), n);
  }

  /** Every vote after the 84th is paid at the 84th vote's rate. */
  lemma TierBeyond(n: int)
    requires n > 84
    ensures TierFor(n) == VoteTiers[|VoteTiers| - 1] == Tier(84, 84, 12, 1200000)
  {
  }

  /** Each milestone pays three times the vote before it. */
  lemma MilestoneTriples(n: int)
    requires n in Milestones
    ensures TierFor(n).multiplier == 3 * TierFor(n - 1).multiplier
  {
    assert ClosedMultiplier(n) == 3 * ClosedMultiplier(n - 1) by {
      assert n == 21 || n == 42 || n == 63 || n == 84;
    }
    TierClosedForm(n);
    TierClosedForm(n - 1);
  }

  datatype VoteOutcome =
    | InvalidVote
    | AlreadyVoted
    | VoteClaimed(multiplier: nat, reward: nat, balance: real, milestone: bool)

  /** The votes recorded as claimed; none when the record has no list. */
  function ClaimedOf(a: Account): seq<int> {
    if a.claimedVotes.Some? then a.claimedVotes.value else []
  }

  /** The vote command as a function of the ledger. */
  function VoteStep(st: Store, id: string, n: int): (Store, VoteOutcome) {
    var t := Touch(st, id);
    var a := t.accounts[id];
    if n < 1 then (t, InvalidVote)
    else if n in ClaimedOf(a) then (t, AlreadyVoted)
    else
      var tier := TierFor(n);
      var r := FieldUpdated(BalanceUpdated(t, id, tier.reward as real), id, ClaimedVotes(ClaimedOf(a) + [n]));
      (r, VoteClaimed(tier.multiplier, tier.reward, r.accounts[id].balance, n in Milestones))
  }

  method Vote(dm: DataManager, id: string, n: int) returns (outcome: VoteOutcome)
    requires dm.Valid()
    modifies dm
    ensures dm.Valid()
    ensures (dm.data, outcome) == VoteStep(old(dm.data), id, n)
  {
    var user := dm.GetUserData(id);
    if n < 1 {
      return InvalidVote;
    }
    var claimed := ClaimedOf(user);
    if n in claimed {
      return AlreadyVoted;
    }
    var tier := FindTier(n);
    var _ := dm.UpdateBalance(id, tier.reward as real);
    if user.claimedVotes.None? {
      assert claimed + [n] == [n];
      dm.UpdateUserData(id, ClaimedVotes([n]));
    } else {
      dm.UpdateUserData(id, ClaimedVotes(claimed + [n]));
    }
    user := dm.GetUserData(id);
    outcome := VoteClaimed(tier.multiplier, tier.reward, user.balance, n in Milestones);
  }

  /**
   * A vote is refused exactly when its number is below 1 or already
   * claimed, and then only the record is created; an accepted vote pays
   * its tier's reward, appends its number to the claimed list and changes
   * nothing else.
   */
  lemma VoteRule(st: Store, id: string, n: int)
    ensures var (r, o) := VoteStep(st, id, n);
      && (o.InvalidVote? <==> n < 1)
      && (o.AlreadyVoted? <==> n >= 1 && n in ClaimedOf(Lookup(st, id)))
      && (!o.VoteClaimed? ==> r == Touch(st, id))
      && (o.VoteClaimed? ==>
            && o.reward == TierFor(n).reward == 100000 * o.multiplier
            && r.accounts.Keys == st.accounts.Keys + {id}
            && r.accounts[id].balance == Clamp(Lookup(st, id).balance, o.reward as real) == o.balance
            && ClaimedOf(r.accounts[id]) == ClaimedOf(Lookup(st, id)) + [n]
            && r.accounts[id].stats == Lookup(st, id).stats
            && r.accounts[id].lastDaily == Lookup(st, id).lastDaily
            && (forall k :: k in st.accounts && k != id ==> r.accounts[k] == st.accounts[k]))
  {
    RewardIsMultiplied(n);
  }

  /** Each vote number pays once: claiming it again is refused and changes nothing. */
  lemma VoteOnce(st: Store, id: string, n: int)
    requires VoteStep(st, id, n).1.VoteClaimed?
    ensures var r := VoteStep(st, id, n).0;
      VoteStep(r, id, n) == (r, AlreadyVoted)
  {
    var r := VoteStep(st, id, n).0;
    assert Touch(r, id) == r;
    assert n in ClaimedOf(r.accounts[id]);
  }

  // ---------------------------------------------------------------------
  // Transfers
  // ---------------------------------------------------------------------

  datatype GiveOutcome =
    | TargetIsBot
    | InvalidAmount
    | NotPositive
    | SelfTransfer
    | Insufficient(balance: real)
    | Cancelled
    | Completed(amount: int, senderBalance: real, receiverBalance: real)

  /**
   * The give command as a function of the ledger.  The checks run in the
   * command's order; only after they pass is the sender's record read (and
   * created), and only a confirmed transfer moves coins.  A prompt that is
   * answered "no" and one that times out are both `confirmed == false`.
   * The amount is the parser's reading of the text the user typed.
   */
  function GiveStep(st: Store, sender: string, receiver: string, receiverIsBot: bool,
                    parsed: Option<int>, confirmed: bool): (Store, GiveOutcome)
  {
    if receiverIsBot then (st, TargetIsBot)
    else if parsed.None? then (st, InvalidAmount)
    else if parsed.value <= 0 then (st, NotPositive)
    else if receiver == sender then (st, SelfTransfer)
    else
      var t := Touch(st, sender);
      var amount := parsed.value;
      if t.accounts[sender].balance < amount as real then (t, Insufficient(t.accounts[sender].balance))
      else if !confirmed then (t, Cancelled)
      else
        var r := BalanceUpdated(BalanceUpdated(t, sender, -(amount as real)), receiver, amount as real);
        (r, Completed(amount, r.accounts[sender].balance, r.accounts[receiver].balance))
  }

  method Give(dm: DataManager, sender: string, receiver: string, receiverIsBot: bool,
              amountText: string, confirmed: bool) returns (outcome: GiveOutcome)
    requires dm.Valid()
    modifies dm
    ensures dm.Valid()
    ensures (dm.data, outcome) == GiveStep(old(dm.data), sender, receiver, receiverIsBot, NumberParser.ParseAmount(amountText), confirmed)
  {
    var parsed := NumberParser.ParseAmount(amountText);
    if receiverIsBot {
      return TargetIsBot;
    }
    if parsed.None? {
      return InvalidAmount;
    }
    var amount := parsed.value;
    if amount <= 0 {
      return NotPositive;
    }
    if receiver == sender {
      return SelfTransfer;
    }
    var senderData := dm.GetUserData(sender);
    if senderData.balance < amount as real {
      return Insufficient(senderData.balance);
    }
    if !confirmed {
      return Cancelled;
    }
    ghost var t := dm.data;
    var _ := dm.UpdateBalance(sender, -(amount as real));
    var _ := dm.UpdateBalance(receiver, amount as real);
    ghost var r := dm.data;
    assert r == BalanceUpdated(BalanceUpdated(t, sender, -(amount as real)), receiver, amount as real);
    assert sender in r.accounts && receiver in r.accounts;
    senderData := dm.GetUserData(sender);
    var receiverData := dm.GetUserData(receiver);
    outcome := Completed(amount, senderData.balance, receiverData.balance);
  }

  /**
   * A refused or cancelled transfer moves no coins: the ledger is unchanged,
   * except that the sender's record exists once the amount has been checked.
   */
  lemma GiveRefusalsMoveNothing(st: Store, sender: string, receiver: string, receiverIsBot: bool,
                                parsed: Option<int>, confirmed: bool)
    ensures var (r, o) := GiveStep(st, sender, receiver, receiverIsBot, parsed, confirmed);
      && (o.TargetIsBot? || o.InvalidAmount? || o.NotPositive? || o.SelfTransfer? ==> r == st)
      && (o.Insufficient? || o.Cancelled? ==> r == Touch(st, sender))
      && (!o.Completed? ==> forall k :: k in st.accounts ==> r.accounts[k] == st.accounts[k])
      && (o.TargetIsBot? <==> receiverIsBot)
      && (o.SelfTransfer? ==> sender == receiver)
      && (o.Insufficient? ==> o.balance == Lookup(st, sender).balance)
  {
  }

  /**
   * A completed transfer moves the parsed amount, which is positive and
   * covered by the sender's balance, from the sender to a different
   * receiver (created with 500 coins when new); no other record changes,
   * and when the receiver's balance is not negative no coin is created or
   * lost.
   */
  lemma GiveMovesAmount(st: Store, sender: string, receiver: string, receiverIsBot: bool,
                        parsed: Option<int>, confirmed: bool)
    requires GiveStep(st, sender, receiver, receiverIsBot, parsed, confirmed).1.Completed?
    ensures var (r, o) := GiveStep(st, sender, receiver, receiverIsBot, parsed, confirmed);
      var before := Lookup(st, sender).balance;
      var receiverBefore := Lookup(st, receiver).balance;
      && !receiverIsBot && confirmed && sender != receiver
      && parsed == Some(o.amount)
      && 0 < o.amount && o.amount as real <= before
      && r.accounts.Keys == st.accounts.Keys + {sender, receiver}
      && o.senderBalance == r.accounts[sender].balance == before - o.amount as real
      && o.receiverBalance == r.accounts[receiver].balance == Clamp(receiverBefore, o.amount as real)
      && (receiverBefore >= 0.0 ==> o.senderBalance + o.receiverBalance == before + receiverBefore)
      && (forall k :: k in st.accounts && k != sender && k != receiver ==> r.accounts[k] == st.accounts[k])
  {
    var t := Touch(st, sender);
    assert Lookup(t, receiver) == Lookup(st, receiver);
  }

  // ---------------------------------------------------------------------
  // Leaderboard
  // ---------------------------------------------------------------------

  /** One leaderboard line: a user and the balance shown for them. */
  datatype Entry = Entry(id: string, balance: real)

  /** The records of the listed ids that belong to the server's members, in list order. */
  function EntriesOf(order: seq<string>, accounts: map<string, Account>, members: set<string>): seq<Entry>
    requires forall k :: 0 <= k < |order| ==> order[k] in accounts
    decreases |order|
  {
    if order == [] then []
    else
      (if order[0] in members then [Entry(order[0], accounts[order[0]].balance)] else [])
      + EntriesOf(order[1..], accounts, members)
  }

  /** The server's records in the ledger's insertion order. */
  function ServerEntries(st: Store, members: set<string>): seq<Entry>
    requires st.Valid()
  {
    EntriesOf(st.order, st.accounts, members)
  }

  /** Insert e before the first entry whose balance is not above e's. */
  function Insert(e: Entry, s: seq<Entry>): seq<Entry>
    decreases |s|
  {
    if s == [] || s[0].balance <= e.balance then [e] + s else [s[0]] + Insert(e, s[1..])
  }

  /** Sort by balance, highest first, keeping entries of equal balance in their input order. */
  function SortByBalance(s: seq<Entry>): seq<Entry>
    decreases |s|
  {
    if s == [] then [] else Insert(s[0], SortByBalance(s[1..]))
  }

  const LeaderboardSize: nat := 10

  /** The leaderboard command: the server's ten richest records, richest first. */
  function Leaderboard(st: Store, members: set<string>): (lb: seq<Entry>)
    requires st.Valid()
    ensures var all := ServerEntries(st, members);
      && |lb| == (if |all| <= LeaderboardSize then |all| else LeaderboardSize)
      && Descending(lb)
      && multiset(lb) <= multiset(all)
  {
    SortByBalanceCorrect(ServerEntries(st, members));
    var sorted := SortByBalance(ServerEntries(st, members));
    if |sorted| <= LeaderboardSize then sorted
    else
      assert sorted == sorted[..LeaderboardSize] + sorted[LeaderboardSize..];
      sorted[..LeaderboardSize]
  }

  ghost predicate Descending(s: seq<Entry>) {
    forall i, j :: 0 <= i < j < |s| ==> s[i].balance >= s[j].balance
  }

  /** The entries of s with balance b, in order. */
  function WithBalance(s: seq<Entry>, b: real): seq<Entry>
    decreases |s|
  {
    if s == [] then [] else (if s[0].balance == b then [s[0]] else []) + WithBalance(s[1..], b)
  }

  lemma {:induction false} WithBalanceAppend(a: seq<Entry>, c: seq<Entry>, b: real)
    ensures WithBalance(a + c, b) == WithBalance(a, b) + WithBalance(c, b)
    decreases |a|
  {
    if a == [] {
      assert a + c == c;
    } else {
      assert (a + c)[0] == a[0];
      assert (a + c)[1..] == a[1..] + c;
      WithBalanceAppend(a[1..], c, b);
    }
  }

  /** Insertion adds exactly e. */
  lemma {:induction false} InsertElements(e: Entry, s: seq<Entry>)
    ensures multiset(Insert(e, s)) == multiset(s) + multiset{e}
    ensures |Insert(e, s)| == |s| + 1
    decreases |s|
  {
    if s != [] && s[0].balance > e.balance {
      InsertElements(e, s[1..]);
      assert s == [s[0]] + s[1..];
    }
  }

  lemma ConsDescending(h: Entry, r: seq<Entry>)
    requires Descending(r)
    requires forall x :: x in r ==> x.balance <= h.balance
    ensures Descending([h] + r)
  {
    forall i, j | 0 <= i < j < |[h] + r| ensures ([h] + r)[i].balance >= ([h] + r)[j].balance {
      if i == 0 {
        assert ([h] + r)[j] == r[j - 1];
        assert r[j - 1] in r;
      } else {
        assert ([h] + r)[i] == r[i - 1] && ([h] + r)[j] == r[j - 1];
      }
    }
  }

  /** Inserting into a descending list keeps it descending. */
  lemma {:induction false} InsertSorted(e: Entry, s: seq<Entry>)
    requires Descending(s)
    ensures Descending(Insert(e, s))
    decreases |s|
  {
    if s == [] || s[0].balance <= e.balance {
      ConsDescending(e, s);
    } else {
      var r := Insert(e, s[1..]);
      InsertSorted(e, s[1..]);
      InsertElements(e, s[1..]);
      forall x | x in r ensures x.balance <= s[0].balance {
        assert x in multiset(r);
        if x != e {
          assert x in multiset(s[1..]);
          var k :| 0 <= k < |s[1..]| && s[1..][k] == x;
          assert s[k + 1] == x;
        }
      }
      ConsDescending(s[0], r);
    }
  }

  /** Insertion puts e ahead of the entries of equal balance and moves nothing else past another of its balance. */
  lemma {:induction false} InsertStable(e: Entry, s: seq<Entry>, b: real)
    ensures WithBalance(Insert(e, s), b) == (if e.balance == b then [e] else []) + WithBalance(s, b)
    decreases |s|
  {
    if s == [] || s[0].balance <= e.balance {
      WithBalanceAppend([e], s, b);
    } else {
      InsertStable(e, s[1..], b);
      WithBalanceAppend([s[0]], Insert(e, s[1..]), b);
      WithBalanceAppend([s[0]], s[1..], b);
      assert s == [s[0]] + s[1..];
    }
  }

  /**
   * The sort is a permutation into descending order of balance, and it is
   * stable: for every balance, the entries with that balance keep their
   * input order.
   */
  lemma {:induction false} SortByBalanceCorrect(s: seq<Entry>)
    ensures Descending(SortByBalance(s))
    ensures multiset(SortByBalance(s)) == multiset(s)
    ensures |SortByBalance(s)| == |s|
    ensures forall b :: WithBalance(SortByBalance(s), b) == WithBalance(s, b)
    decreases |s|
  {
    if s != [] {
      SortByBalanceCorrect(s[1..]);
      InsertSorted(s[0], SortByBalance(s[1..]));
      InsertElements(s[0], SortByBalance(s[1..]));
      assert s == [s[0]] + s[1..];
      forall b ensures WithBalance(SortByBalance(s), b) == WithBalance(s, b) {
        InsertStable(s[0], SortByBalance(s[1..]), b);
        WithBalanceAppend([s[0]], s[1..], b);
      }
    }
  }

  /** An entry is listed exactly when its id is a member with a record, and it shows that record's balance. */
  lemma {:induction false} EntriesOfMembers(order: seq<string>, accounts: map<string, Account>, members: set<string>, e: Entry)
    requires forall k :: 0 <= k < |order| ==> order[k] in accounts
    ensures e in EntriesOf(order, accounts, members) <==>
              e.id in order && e.id in members && e.balance == accounts[e.id].balance
    decreases |order|
  {
    if order != [] {
      EntriesOfMembers(order[1..], accounts, members, e);
      assert order == [order[0]] + order[1..];
    }
  }

  /** The leaderboard shows min(10, n) of the server's n records, richest first. */
  lemma LeaderboardSorted(st: Store, members: set<string>)
    requires st.Valid()
    ensures var lb := Leaderboard(st, members);
      var all := ServerEntries(st, members);
      && |lb| == (if |all| <= LeaderboardSize then |all| else LeaderboardSize)
      && Descending(lb)
      && lb == SortByBalance(all)[..|lb|]
  {
    SortByBalanceCorrect(ServerEntries(st, members));
  }

  /** Each line of the leaderboard is a server member's record with its balance. */
  lemma LeaderboardShowsMembers(st: Store, members: set<string>, e: Entry)
    requires st.Valid()
    requires e in Leaderboard(st, members)
    ensures e.id in members && e.id in st.accounts && e.balance == st.accounts[e.id].balance
  {
    var all := ServerEntries(st, members);
    LeaderboardSorted(st, members);
    SortByBalanceCorrect(all);
    var lb := Leaderboard(st, members);
    var i :| 0 <= i < |lb| && lb[i] == e;
    assert SortByBalance(all)[i] == e;
    assert e in multiset(SortByBalance(all));
    EntriesOfMembers(st.order, st.accounts, members, e);
  }

  /** Every server record left off the leaderboard is no richer than any record shown. */
  lemma LeaderboardIsTop(st: Store, members: set<string>, e: Entry, x: Entry)
    requires st.Valid()
    requires e in ServerEntries(st, members) && e !in Leaderboard(st, members)
    requires x in Leaderboard(st, members)
    ensures x.balance >= e.balance
  {
    var all := ServerEntries(st, members);
    var sorted := SortByBalance(all);
    var lb := Leaderboard(st, members);
    LeaderboardSorted(st, members);
    SortByBalanceCorrect(all);
    assert e in multiset(sorted);
    var i :| 0 <= i < |sorted| && sorted[i] == e;
    var j :| 0 <= j < |lb| && lb[j] == x;
    assert sorted[j] == x;
  }

  /** The leaderboard is empty exactly when no member of the server has a record. */
  lemma LeaderboardEmpty(st: Store, members: set<string>)
    requires st.Valid()
    ensures Leaderboard(st, members) == [] <==> forall id :: id in st.accounts ==> id !in members
  {
    var all := ServerEntries(st, members);
    LeaderboardSorted(st, members);
    SortByBalanceCorrect(all);
    if Leaderboard(st, members) == [] {
      assert all == [];
      forall id | id in st.accounts ensures id !in members {
        EntriesOfMembers(st.order, st.accounts, members, Entry(id, st.accounts[id].balance));
      }
    } else {
      LeaderboardShowsMembers(st, members, Leaderboard(st, members)[0]);
    }
  }
}
