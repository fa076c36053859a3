/**
 * The ledger: a map from user id to an account record, kept in insertion
 * order like the runtime's dictionaries.  Accounts are created lazily with
 * 500 coins and zeroed slot statistics; balance updates are clamped at
 * zero; a statistic accumulates when both the stored and the new value are
 * integers and is overwritten otherwise; single fields are overwritten.
 *
 * The pure functions over Store are the specification; the DataManager
 * class updates its store in place and is proved to follow them.
 */
module Ledger {
  import opened Values

  /**
   * One user's record.  A record read back from disk need not carry every
   * key, so everything but the balance is optional.
   */
  datatype Account = Account(
    balance: real,
    stats: Option<map<string, Num>>,
    lastDaily: Option<int>,
    claimedVotes: Option<seq<int>>)

  const DefaultBalance: real := 500.0

  /** The record a new user starts with: 500 coins, no slot games played or won. */
  const DefaultAccount: Account :=
    Account(DefaultBalance, Some(map["slots_played" := Int(0), "slots_won" := Int(0)]), None, None)

  /** The whole ledger: ids in insertion order, and each id's record. */
  datatype Store = Store(order: seq<string>, accounts: map<string, Account>) {
    /** Every id is listed exactly once, and only ids with a record are listed. */
    ghost predicate Valid() {
      && (forall id :: id in accounts <==> id in order)
      && (forall i, j :: 0 <= i < j < |order| ==> order[i] != order[j])
    }

    /** No balance is negative. */
    ghost predicate NonNegative() {
      forall id :: id in accounts ==> accounts[id].balance >= 0.0
    }
  }

  const EmptyStore: Store := Store([], map[])

  // ---------------------------------------------------------------------
  // The operations, as functions of the store
  // ---------------------------------------------------------------------

  /**
   * Lazy creation: the store with a record for id, the default record
   * appended when there was none.  Nothing else changes.
   */
  function Touch(st: Store, id: string): Store {
    if id in st.accounts then st else Store(st.order + [id], st.accounts[id := DefaultAccount])
  }

  /** The record of id as the store holds it once it has been touched. */
  function Lookup(st: Store, id: string): Account {
    Touch(st, id).accounts[id]
  }

  /** Replace the record of an id that is present. */
  function Put(st: Store, id: string, a: Account): Store
    requires id in st.accounts
  {
    Store(st.order, st.accounts[id := a])
  }

  /** balance + amount, or 0 when that would be negative. */
  function Clamp(balance: real, amount: real): (b: real)
    ensures b >= 0.0
    ensures b >= balance + amount
    ensures b == balance + amount || b == 0.0
  {
    if balance + amount < 0.0 then 0.0 else balance + amount
  }

  /** update_balance: touch, add the amount, clamp at zero. */
  function BalanceUpdated(st: Store, id: string, amount: real): Store {
    var t := Touch(st, id);
    Put(t, id, t.accounts[id].(balance := Clamp(t.accounts[id].balance, amount)))
  }

  /**
   * The statistics map after update_stats(name, value): a missing map
   * starts empty; an integer added to an integer stat accumulates, and
   * anything else is stored as given.
   */
  function AddStat(stats: Option<map<string, Num>>, name: string, value: Num): map<string, Num> {
    var before := if stats.Some? then stats.value else map[];
    if value.Int? && name in before && before[name].Int? then
      before[name := Int(before[name].i + value.i)]
    else
      before[name := value]
  }

  /** update_stats: touch, then update one statistic of id. */
  function StatsUpdated(st: Store, id: string, name: string, value: Num): Store {
    var t := Touch(st, id);
    Put(t, id, t.accounts[id].(stats := Some(AddStat(t.accounts[id].stats, name, value))))
  }

  /**
   * The fields written through update_user_data, with their values: the
   * daily claim time, the claimed votes, and (for the slot command's
   * highest win) the whole statistics map.
   */
  datatype Field = LastDaily(time: int) | ClaimedVotes(votes: seq<int>) | Stats(stats: map<string, Num>)

  /** Overwrite one field of a record; the others are kept. */
  function SetField(a: Account, f: Field): Account {
    match f
    case LastDaily(t) => a.(lastDaily := Some(t))
    case ClaimedVotes(v) => a.(claimedVotes := Some(v))
    case Stats(m) => a.(stats := Some(m))
  }

  /** update_user_data: touch, then overwrite one field of id. */
  function FieldUpdated(st: Store, id: string, f: Field): Store {
    var t := Touch(st, id);
    Put(t, id, SetField(t.accounts[id], f))
  }

  // ---------------------------------------------------------------------
  // The manager, updating its store in place
  // ---------------------------------------------------------------------

  class DataManager {
    var data: Store

    ghost predicate Valid()
      reads this
    {
      data.Valid()
    }

    /** A manager over the records read at start-up (an empty store when there is no file). */
    constructor(loaded: Store)
      requires loaded.Valid()
      ensures Valid() && data == loaded
    {
      data := loaded;
    }

    /** The record of id, created with the defaults when id is new. */
    method GetUserData(id: string) returns (a: Account)
      requires Valid()
      modifies this
      ensures Valid()
      ensures data == Touch(old(data), id)
      ensures a == data.accounts[id] == Lookup(old(data), id)
    {
      if id !in data.accounts {
        data := Store(data.order + [id], data.accounts[id := DefaultAccount]);
      }
      a := data.accounts[id];
    }

    /** Every record, in insertion order. */
    method GetAllData() returns (st: Store)
      requires Valid()
      ensures st == data && st.Valid()
    {
      st := data;
    }

    /** Add amount to id's balance, clamp it at zero, and return it. */
    method UpdateBalance(id: string, amount: real) returns (balance: real)
      requires Valid()
      modifies this
      ensures Valid()
      ensures data == BalanceUpdated(old(data), id, amount)
      ensures balance == data.accounts[id].balance
      ensures balance >= 0.0
    {
      var user := GetUserData(id);
      var b := user.balance + amount;
      if b < 0.0 {
        b := 0.0;
      }
      data := Store(data.order, data.accounts[id := user.(balance := b)]);
      balance := b;
    }

    /** Accumulate or overwrite one statistic of id. */
    method UpdateStats(id: string, name: string, value: Num)
      requires Valid()
      modifies this
      ensures Valid()
      ensures data == StatsUpdated(old(data), id, name, value)
    {
      var user := GetUserData(id);
      var stats := if user.stats.Some? then user.stats.value else map[];
      if value.Int? && name in stats && stats[name].Int? {
        stats := stats[name := Int(stats[name].i + value.i)];
      } else {
        stats := stats[name := value];
      }
      data := Store(data.order, data.accounts[id := user.(stats := Some(stats))]);
    }

    /** Overwrite one field of id's record. */
    method UpdateUserData(id: string, f: Field)
      requires Valid()
      modifies this
      ensures Valid()
      ensures data == FieldUpdated(old(data), id, f)
    {
      var user := GetUserData(id);
      data := Store(data.order, data.accounts[id := SetField(user, f)]);
    }
  }

  // ---------------------------------------------------------------------
  // Properties
  // ---------------------------------------------------------------------

  /**
   * Lazy creation adds id with the default record when it is new and
   * changes nothing else; a lookup reads the record a touch would leave.
   */
  lemma TouchSpec(st: Store, id: string)
    ensures Touch(st, id).accounts.Keys == st.accounts.Keys + {id}
    ensures forall k :: k in st.accounts ==> Touch(st, id).accounts[k] == st.accounts[k]
    ensures id !in st.accounts ==> Touch(st, id).accounts[id] == DefaultAccount
    ensures id in st.accounts ==> Lookup(st, id) == st.accounts[id]
    ensures id !in st.accounts ==> Lookup(st, id) == DefaultAccount
  {
  }

  /**
   * Each mutator touches id, then rewrites only id's record: the balance
   * clamped at zero, one statistic, or one field; every other record is
   * kept.
   */
  lemma MutatorSpec(st: Store, id: string, amount: real, name: string, value: Num, f: Field)
    ensures var r := BalanceUpdated(st, id, amount);
      && r.accounts.Keys == st.accounts.Keys + {id}
      && r.accounts[id] == Lookup(st, id).(balance := Clamp(Lookup(st, id).balance, amount))
      && (forall k :: k in st.accounts && k != id ==> r.accounts[k] == st.accounts[k])
    ensures var r := StatsUpdated(st, id, name, value);
      && r.accounts.Keys == st.accounts.Keys + {id}
      && r.accounts[id] == Lookup(st, id).(stats := Some(AddStat(Lookup(st, id).stats, name, value)))
      && (forall k :: k in st.accounts && k != id ==> r.accounts[k] == st.accounts[k])
    ensures var r := FieldUpdated(st, id, f);
      && r.accounts.Keys == st.accounts.Keys + {id}
      && r.accounts[id] == SetField(Lookup(st, id), f)
      && (forall k :: k in st.accounts && k != id ==> r.accounts[k] == st.accounts[k])
  {
  }

  /**
   * A statistic accumulates when it and the value are integers and is
   * overwritten otherwise; a missing map starts empty and the other
   * statistics are kept.
   */
  lemma AddStatRule(stats: Option<map<string, Num>>, name: string, value: Num)
    ensures var before := if stats.Some? then stats.value else map[];
      var m := AddStat(stats, name, value);
      && m.Keys == before.Keys + {name}
      && (forall k :: k in before && k != name ==> m[k] == before[k])
      && (if value.Int? && name in before && before[name].Int?
          then m[name] == Int(before[name].i + value.i)
          else m[name] == value)
  {
  }

  /** Writing a field overwrites that field alone. */
  lemma SetFieldRule(a: Account, f: Field)
    ensures SetField(a, f).balance == a.balance
    ensures SetField(a, f).lastDaily == (if f.LastDaily? then Some(f.time) else a.lastDaily)
    ensures SetField(a, f).claimedVotes == (if f.ClaimedVotes? then Some(f.votes) else a.claimedVotes)
    ensures SetField(a, f).stats == (if f.Stats? then Some(f.stats) else a.stats)
  {
  }

  /** Lazy creation keeps the store well formed, and a second touch changes nothing. */
  lemma TouchValid(st: Store, id: string)
    requires st.Valid()
    ensures Touch(st, id).Valid()
    ensures Touch(Touch(st, id), id) == Touch(st, id)
  {
    if id !in st.accounts {
      var r := Touch(st, id);
      forall i, j | 0 <= i < j < |r.order| ensures r.order[i] != r.order[j] {
        if j == |st.order| {
          assert r.order[i] == st.order[i];
        }
      }
    }
  }

  /** Every mutator keeps the store well formed. */
  lemma MutatorsValid(st: Store, id: string, amount: real, name: string, value: Num, f: Field)
    requires st.Valid()
    ensures BalanceUpdated(st, id, amount).Valid()
    ensures StatsUpdated(st, id, name, value).Valid()
    ensures FieldUpdated(st, id, f).Valid()
  {
    TouchValid(st, id);
  }

  /**
   * The ids only grow: every mutator leaves exactly the old ids plus the
   * one it names, in the old order with the new one last.
   */
  lemma MutatorsOnlyAdd(st: Store, id: string, amount: real, name: string, value: Num, f: Field)
    ensures BalanceUpdated(st, id, amount).accounts.Keys == st.accounts.Keys + {id}
    ensures StatsUpdated(st, id, name, value).accounts.Keys == st.accounts.Keys + {id}
    ensures FieldUpdated(st, id, f).accounts.Keys == st.accounts.Keys + {id}
    ensures BalanceUpdated(st, id, amount).order == Touch(st, id).order
    ensures StatsUpdated(st, id, name, value).order == Touch(st, id).order
    ensures FieldUpdated(st, id, f).order == Touch(st, id).order
    ensures Touch(st, id).order == (if id in st.accounts then st.order else st.order + [id])
  {
  }

  /** No mutator makes a balance negative, so a store without negative balances keeps none. */
  lemma MutatorsKeepNonNegative(st: Store, id: string, amount: real, name: string, value: Num, f: Field)
    requires st.NonNegative()
    ensures BalanceUpdated(st, id, amount).NonNegative()
    ensures StatsUpdated(st, id, name, value).NonNegative()
    ensures FieldUpdated(st, id, f).NonNegative()
  {
  }

  /** Balance after a run of update_balance calls on one record. */
  function ApplyAll(balance: real, amounts: seq<real>): real
    decreases |amounts|
  {
    if amounts == [] then balance else ApplyAll(Clamp(balance, amounts[0]), amounts[1..])
  }

  function Sum(amounts: seq<real>): real
    decreases |amounts|
  {
    if amounts == [] then 0.0 else amounts[0] + Sum(amounts[1..])
  }

  /**
   * The clamp only ever raises the balance above the plain sum, and when
   * no running total dips below zero it never fires: the balance is then
   * exactly the starting balance plus the sum of the amounts.
   */
  lemma {:induction false} ApplyAllIsClampedSum(balance: real, amounts: seq<real>)
    requires balance >= 0.0
    ensures ApplyAll(balance, amounts) >= 0.0
    ensures ApplyAll(balance, amounts) >= balance + Sum(amounts)
    ensures (forall k :: 0 <= k <= |amounts| ==> balance + Sum(amounts[..k]) >= 0.0) ==>
              ApplyAll(balance, amounts) == balance + Sum(amounts)
    decreases |amounts|
  {
    if amounts != [] {
      var next := Clamp(balance, amounts[0]);
      ApplyAllIsClampedSum(next, amounts[1..]);
      if forall k :: 0 <= k <= |amounts| ==> balance + Sum(amounts[..k]) >= 0.0 {
        assert amounts[..1] == [amounts[0]];
        assert Sum(amounts[..1]) == amounts[0] + Sum([]);
        assert next == balance + amounts[0];
        forall k | 0 <= k <= |amounts[1..]| ensures next + Sum(amounts[1..][..k]) >= 0.0 {
          assert amounts[..k + 1] == [amounts[0]] + amounts[1..][..k];
          assert Sum(amounts[..k + 1]) == amounts[0] + Sum(amounts[1..][..k]);
        }
      }
    }
  }

  /** Adding the integer 1 to an integer statistic n times adds n. */
  function Increment(stats: Option<map<string, Num>>, name: string, n: nat): map<string, Num>
    decreases n
  {
    if n == 0 then (if stats.Some? then stats.value else map[])
    else AddStat(Some(Increment(stats, name, n - 1)), name, Int(1))
  }

  lemma {:induction false} IncrementCounts(stats: Option<map<string, Num>>, name: string, n: nat)
    requires stats.Some? && name in stats.value && stats.value[name].Int?
    ensures name in Increment(stats, name, n)
    ensures Increment(stats, name, n)[name] == Int(stats.value[name].i + n)
    decreases n
  {
    if n > 0 {
      IncrementCounts(stats, name, n - 1);
    }
  }

  /**
   * A record that has never been touched behaves as the default record:
   * its first balance update starts from 500 and its first increment of
   * slots_played gives 1.
   */
  lemma UnknownStartsFromDefault(st: Store, id: string, amount: real)
    requires id !in st.accounts
    ensures BalanceUpdated(st, id, amount).accounts[id].balance == Clamp(500.0, amount)
    ensures StatsUpdated(st, id, "slots_played", Int(1)).accounts[id].stats.value["slots_played"] == Int(1)
  {
  }
}
