/**
 * The ledger endpoints as the source runs them: one `Store` holds the three
 * tables, and each endpoint method checks the payload, stages the balance
 * assignments and the new or patched row, and writes them at the commit. A
 * method that fails before the commit leaves the store as it was, as the
 * session rollback does. Each method is proved to do what the matching
 * function of `Ledger` specifies, and its answer is the `to_dict` of the row it
 * wrote.
 */
module Api {
  import opened Wrappers
  import opened Json
  import opened Models
  import Ledger

  class Store {
    var accounts: map<int, Account>
    var transactions: map<int, Transaction>
    var transfers: map<int, Transfer>
    var nextAccount: int
    var nextTransaction: int
    var nextTransfer: int

    /** The tables as a value. */
    function Books(): Ledger.Books
      reads this
    {
      Ledger.Books(accounts, transactions, transfers, nextAccount, nextTransaction, nextTransfer)
    }

    predicate Valid()
      reads this
    {
      Ledger.Consistent(Books())
    }

    /** An empty database: every autoincrement starts at 1. */
    constructor ()
      ensures Valid()
      ensures accounts == map[] && transactions == map[] && transfers == map[]
      ensures nextAccount == 1 && nextTransaction == 1 && nextTransfer == 1
    {
      accounts := map[];
      transactions := map[];
      transfers := map[];
      nextAccount := 1;
      nextTransaction := 1;
      nextTransfer := 1;
    }

    /** `POST /users/<user_id>/accounts`. */
    method CreateAccount(userId: int, data: AccountData, now: int) returns (r: Result<Dict, Ledger.Failure>)
      requires Valid()
      modifies this
      ensures Valid()
      ensures var s := Ledger.CreateAccount(old(Books()), userId, data, now);
              (s.Err? ==> r == Err(s.error) && Books() == old(Books())) &&
              (s.Ok? ==> Books() == s.value &&
                         r == Ok(AccountToDict(accounts[Ledger.InsertId(data.id, old(nextAccount))])))
    {
      ghost var s := Ledger.CreateAccount(Books(), userId, data, now);
      if data.name.None? || data.name.value == "" {
        return Err(Ledger.BadRequest);
      }
      if data.accountType.None? {
        return Err(Ledger.ServerError);
      }
      if exists k :: k in accounts && Ledger.SameAccount(accounts[k], userId, data.name.value, data.accountType.value) {
        return Err(Ledger.BadRequest);
      }
      var acc := AccountFromDict(NewAccount(nextAccount, now), data, userId);
      if acc.id in accounts {
        return Err(Ledger.ServerError);
      }
      accounts := accounts[acc.id := acc];
      nextAccount := Ledger.Advance(nextAccount, acc.id);
      assert Books() == s.value;
      return Ok(AccountToDict(acc));
    }

    /** `PUT /accounts/<account_id>`. */
    method UpdateAccount(accountId: int, data: AccountData) returns (r: Result<Dict, Ledger.Failure>)
      requires Valid()
      modifies this
      ensures Valid()
      ensures var s := Ledger.UpdateAccount(old(Books()), accountId, data);
              (s.Err? ==> r == Err(s.error) && Books() == old(Books())) &&
              (s.Ok? ==> Books() == s.value && r == Ok(AccountToDict(accounts[Or(data.id, accountId)])))
    {
      ghost var s := Ledger.UpdateAccount(Books(), accountId, data);
      if accountId !in accounts {
        return Err(Ledger.NotFound);
      }
      var acc := AccountFromDict(accounts[accountId], data, 0);
      if acc.id != accountId && acc.id in accounts {
        return Err(Ledger.ServerError);
      }
      accounts := (accounts - {accountId})[acc.id := acc];
      nextAccount := Ledger.Advance(nextAccount, acc.id);
      assert Books() == s.value;
      return Ok(AccountToDict(acc));
    }

    /** `POST /users/<user_id>/incomes` (`Income`) and `POST /users/<user_id>/expenses`
        (`Expense`). */
    method CreateTransaction(flow: Ledger.Flow, userId: int, data: TransactionData, now: int)
      returns (r: Result<Dict, Ledger.Failure>)
      requires Valid()
      modifies this
      ensures Valid()
      ensures var s := Ledger.CreateTransaction(old(Books()), flow, userId, data, now);
              (s.Err? ==> r == Err(s.error) && Books() == old(Books())) &&
              (s.Ok? ==> Books() == s.value &&
                         r == Ok(TransactionToDict(transactions[Ledger.InsertId(data.id, old(nextTransaction))])))
    {
      ghost var s := Ledger.CreateTransaction(Books(), flow, userId, data, now);
      var staged := accounts;
      if data.paid == Some(true) {
        if data.accountId.None? || data.accountId.value !in accounts || data.value.None? {
          return Err(Ledger.ServerError);
        }
        var id := data.accountId.value;
        var delta := if flow == Ledger.Income then data.value.value else -data.value.value;
        staged := staged[id := accounts[id].(balance := accounts[id].balance + delta)];
      }
      assert Ledger.CreationMove(flow, data).Ok? &&
             Ledger.ApplyMove(accounts, Ledger.CreationMove(flow, data).value) == Ok(staged);
      var t := TransactionFromDict(NewTransaction(nextTransaction, now), data, userId);
      if t.id in transactions {
        return Err(Ledger.ServerError);
      }
      accounts := staged;
      transactions := transactions[t.id := t];
      nextTransaction := Ledger.Advance(nextTransaction, t.id);
      assert Books() == s.value;
      return Ok(TransactionToDict(t));
    }

    /** The balance assignments of `update_transaction` for the stored transaction
        `t`, applied to a copy of the accounts: the one named by the payload's
        `account_id` changes only when the payload's `paid` flips the stored state. */
    method StageUpdateMove(t: Transaction, data: TransactionData) returns (r: Result<map<int, Account>, Ledger.Failure>)
      requires t.paid ==> t.value.Some?
      ensures r == match Ledger.UpdateMove(t, data)
                   case Err(e) => Err(e)
                   case Ok(m) => Ledger.ApplyMove(accounts, m)
    {
      var staged := accounts;
      if data.paid.Some? {
        if data.accountId.None? {
          return Err(Ledger.ServerError);
        }
        var id := data.accountId.value;
        if data.paid.value && !t.paid {
          if data.transactionType.None? || data.value.None? || id !in accounts {
            return Err(Ledger.ServerError);
          }
          if data.transactionType.value == EXPENSE {
            staged := staged[id := accounts[id].(balance := accounts[id].balance - data.value.value)];
          } else {
            staged := staged[id := accounts[id].(balance := accounts[id].balance + data.value.value)];
          }
        } else if !data.paid.value && t.paid {
          if data.transactionType.None? || id !in accounts {
            return Err(Ledger.ServerError);
          }
          if data.transactionType.value == EXPENSE {
            staged := staged[id := accounts[id].(balance := accounts[id].balance + t.value.value)];
          } else {
            staged := staged[id := accounts[id].(balance := accounts[id].balance - t.value.value)];
          }
        }
      }
      return Ok(staged);
    }

    /** `PUT /transactions/<transaction_id>`. */
    method UpdateTransaction(transactionId: int, data: TransactionData) returns (r: Result<Dict, Ledger.Failure>)
      requires Valid()
      modifies this
      ensures Valid()
      ensures var s := Ledger.UpdateTransaction(old(Books()), transactionId, data);
              (s.Err? ==> r == Err(s.error) && Books() == old(Books())) &&
              (s.Ok? ==> Books() == s.value && r == Ok(TransactionToDict(transactions[Or(data.id, transactionId)])))
    {
      ghost var s := Ledger.UpdateTransaction(Books(), transactionId, data);
      if transactionId !in transactions {
        return Err(Ledger.NotFound);
      }
      var t := transactions[transactionId];
      var staged := StageUpdateMove(t, data);
      if staged.Err? {
        return Err(staged.error);
      }
      var patched := TransactionFromDict(t, data, 0);
      if patched.id != transactionId && patched.id in transactions {
        return Err(Ledger.ServerError);
      }
      accounts := staged.value;
      transactions := (transactions - {transactionId})[patched.id := patched];
      nextTransaction := Ledger.Advance(nextTransaction, patched.id);
      assert Books() == s.value;
      return Ok(TransactionToDict(patched));
    }

    /** `POST /users/<user_id>/transfers`. */
    method CreateTransfer(data: TransferData, now: int) returns (r: Result<Dict, Ledger.Failure>)
      requires Valid()
      modifies this
      ensures Valid()
      ensures var s := Ledger.CreateTransfer(old(Books()), data, now);
              (s.Err? ==> r == Err(s.error) && Books() == old(Books())) &&
              (s.Ok? ==> Books() == s.value &&
                         r == Ok(TransferToDict(transfers[Ledger.InsertId(data.id, old(nextTransfer))])))
    {
      ghost var s := Ledger.CreateTransfer(Books(), data, now);
      if data.fromAccount.None? || data.toAccount.None? {
        return Err(Ledger.BadRequest);
      }
      var from, to := data.fromAccount.value, data.toAccount.value;
      if from !in accounts || data.amount.None? {
        return Err(Ledger.ServerError);
      }
      var staged := accounts[from := accounts[from].(balance := accounts[from].balance - data.amount.value)];
      if to !in accounts {
        return Err(Ledger.ServerError);
      }
      staged := staged[to := accounts[to].(balance := accounts[to].balance + data.amount.value)];
      assert staged == Ledger.MoveAmount(accounts, from, to, data.amount.value);
      var t := TransferFromDict(NewTransfer(nextTransfer, now), data);
      if t.id in transfers {
        return Err(Ledger.ServerError);
      }
      accounts := staged;
      transfers := transfers[t.id := t];
      nextTransfer := Ledger.Advance(nextTransfer, t.id);
      assert Books() == s.value;
      return Ok(TransferToDict(t));
    }
  }
}
