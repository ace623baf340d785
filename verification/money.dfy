/** Money in the older engine (src/economy/budget.ts): a balance with
    `changeMoney`, which applies the change and then throws `NegativeBudget`
    if the balance went below zero, and `transferMoney`, which refuses a
    transfer larger than the balance. A call that throws after writing is
    modelled as the state it leaves behind together with the error. */
module Money {
  import opened Wrappers

  /** A `Budget` instance. */
  datatype Account = Account(money: real)

  /** The state a call leaves, and the error it threw, if any. */
  datatype Outcome<T> = Outcome(state: T, thrown: Option<Error>)

  /** `changeMoney(value)`: the balance moves by `value`, and a negative
      result is reported after the write. */
  function ChangeMoney(a: Account, value: real): (r: Outcome<Account>)
    ensures r.state.money == a.money + value
    ensures r.thrown.Some? <==> a.money + value < 0.0
    ensures r.thrown.Some? ==> r.thrown.value == NegativeBudget(r.state.money)
  {
    var after := Account(a.money + value);
    Outcome(after, if after.money < 0.0 then Some(NegativeBudget(after.money)) else None)
  }

  /** `source.transferMoney(value, target)` between two distinct accounts. */
  function TransferMoney(source: Account, target: Account, value: real): (r: Outcome<(Account, Account)>)
    ensures source.money < value ==>
      r == Outcome((source, target), Some(InsufficientMoney(value, source.money)))
    ensures source.money >= value ==>
      && r.state.0.money == source.money - value
      && r.state.1.money == target.money + value
      && (r.thrown.Some? <==> target.money + value < 0.0)
      && (r.thrown.Some? ==> r.thrown.value == NegativeBudget(target.money + value))
    ensures r.state.0.money + r.state.1.money == source.money + target.money
  {
    if source.money < value then
      Outcome((source, target), Some(InsufficientMoney(value, source.money)))
    else
      var debit := ChangeMoney(source, -value);
      if debit.thrown.Some? then Outcome((debit.state, target), debit.thrown)
      else
        var credit := ChangeMoney(target, value);
        Outcome((debit.state, credit.state), credit.thrown)
  }

  /** `a.transferMoney(value, a)`: both changes land on the same balance. */
  function TransferToSelf(a: Account, value: real): (r: Outcome<Account>)
    ensures a.money < value ==> r == Outcome(a, Some(InsufficientMoney(value, a.money)))
    ensures a.money >= value ==> r.state == a && (r.thrown.Some? <==> a.money < 0.0)
  {
    if a.money < value then Outcome(a, Some(InsufficientMoney(value, a.money)))
    else
      var debit := ChangeMoney(a, -value);
      if debit.thrown.Some? then debit
      else ChangeMoney(debit.state, value)
  }

  /** A change followed by its opposite restores the balance. */
  lemma ChangeMoneyInverse(a: Account, value: real)
    ensures ChangeMoney(ChangeMoney(a, value).state, -value).state == a
  {
  }

  /** Paying out of a balance that covers the amount into a non-negative
      balance never throws. */
  lemma TransferNeverThrows(source: Account, target: Account, value: real)
    requires 0.0 <= value <= source.money && target.money >= 0.0
    ensures TransferMoney(source, target, value).thrown.None?
    ensures TransferMoney(source, target, value).state.0.money >= 0.0
    ensures TransferMoney(source, target, value).state.1.money >= 0.0
  {
  }

  /** A transfer that throws `InsufficientMoney` changes nothing, and one
      that succeeds moves exactly `value`. */
  lemma TransferEffect(source: Account, target: Account, value: real)
    ensures var r := TransferMoney(source, target, value);
      (r.thrown.Some? && r.thrown.value.InsufficientMoney?) <==> source.money < value
    ensures var r := TransferMoney(source, target, value);
      r.thrown.None? ==> r.state == (Account(source.money - value), Account(target.money + value))
  {
  }
}
