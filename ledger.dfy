/**
 * The ledger endpoints of `app/api/accounts.py`, `app/api/transactions.py` and
 * `app/api/transfers.py` over a store of three tables (id -> record).
 *
 * Each endpoint is specified by a function from the tables before the request to
 * the tables after it, or to the error it answers with; the `Store` class runs
 * the endpoint step by step, as the source does, and is proved to agree with it.
 * An exception raised before `db.session.commit()` (a missing key, an account
 * that is not found, a primary key that is already taken) answers with
 * `ServerError` and changes nothing.
 */
module Ledger {
  import opened Wrappers
  import opened Json
  import opened Models

  /** How an endpoint fails: `bad_request` (400), `get_or_404` (404), or an
      exception the framework turns into 500. */
  datatype Failure = BadRequest | NotFound | ServerError

  /** The three tables and the next autoincrement value of each. */
  datatype Books = Books(
    accounts: map<int, Account>,
    transactions: map<int, Transaction>,
    transfers: map<int, Transfer>,
    nextAccount: int,
    nextTransaction: int,
    nextTransfer: int)

  /** Every row is stored under its own id, below the next autoincrement value, and
      a paid transaction has a value (no code path marks one paid without it). */
  predicate Consistent(b: Books) {
    (forall k :: k in b.accounts ==> b.accounts[k].id == k && k < b.nextAccount) &&
    (forall k :: k in b.transactions ==> b.transactions[k].id == k && k < b.nextTransaction) &&
    (forall k :: k in b.transactions && b.transactions[k].paid ==> b.transactions[k].value.Some?) &&
    (forall k :: k in b.transfers ==> b.transfers[k].id == k && k < b.nextTransfer)
  }

  function Max(x: int, y: int): int {
    if x < y then y else x
  }

  /** The autoincrement value after a row with key `id` is written. */
  function Advance(next: int, id: int): (r: int)
    ensures r > id && r >= next
  {
    Max(next, id + 1)
  }

  // ---------------------------------------------------------------------------
  // Balances

  /** `acc.balance = Account.balance + x`: the stored balance plus `x`. */
  function Credit(accounts: map<int, Account>, id: int, x: int): (r: map<int, Account>)
    requires id in accounts
    ensures r.Keys == accounts.Keys
    ensures r[id].balance == accounts[id].balance + x
    ensures r[id] == accounts[id].(balance := r[id].balance)
    ensures forall k :: k in accounts && k != id ==> r[k] == accounts[k]
  {
    accounts[id := accounts[id].(balance := accounts[id].balance + x)]
  }

  /** Some key of a non-empty table. */
  ghost function Pick<K, V>(m: map<K, V>): (k: K)
    requires m != map[]
    ensures k in m
  {
    var k :| k in m; k
  }

  /** The sum of all balances. */
  ghost function SumBalances(m: map<int, Account>): int
    decreases |m|
  {
    if m == map[] then 0
    else
      var k := Pick(m);
      assert |m - {k}| < |m| by {
        assert (m - {k}).Keys == m.Keys - {k};
      }
      m[k].balance + SumBalances(m - {k})
  }

  /** Any account can be taken out of the sum first. */
  lemma {:induction false} SumRemove(m: map<int, Account>, k: int)
    requires k in m
    ensures SumBalances(m) == m[k].balance + SumBalances(m - {k})
    decreases |m|
  {
    var j := Pick(m);
    if j != k {
      assert (m - {j}).Keys == m.Keys - {j};
      assert (m - {k}).Keys == m.Keys - {k};
      SumRemove(m - {j}, k);
      SumRemove(m - {k}, j);
      assert m - {j} - {k} == m - {k} - {j};
    }
  }

  /** Crediting one account by `x` raises the sum of all balances by exactly `x`. */
  lemma SumCredit(m: map<int, Account>, id: int, x: int)
    requires id in m
    ensures SumBalances(Credit(m, id, x)) == SumBalances(m) + x
  {
    var r := Credit(m, id, x);
    SumRemove(m, id);
    SumRemove(r, id);
    assert r - {id} == m - {id};
  }

  // ---------------------------------------------------------------------------
  // Accounts (app/api/accounts.py)

  /** The filter of `create_account`: an account of the user with that name and type. */
  predicate SameAccount(a: Account, userId: int, name: string, accountType: int) {
    a.userId == Some(userId) && a.name == name && a.accountType == accountType
  }

  /** No user has two accounts with the same name and type. */
  predicate UniqueNames(accounts: map<int, Account>) {
    forall i, j :: i in accounts && j in accounts && i != j && accounts[i].userId.Some? ==>
      !SameAccount(accounts[j], accounts[i].userId.value, accounts[i].name, accounts[i].accountType)
  }

  /** The key a new row gets: the payload's `id` when it has one, else the
      autoincrement value. */
  function InsertId(requested: Option<int>, next: int): int {
    Or(requested, next)
  }

  /** `create_account(user_id)`: a name is required and must not be empty; the type
      is read from the payload (a `KeyError` without it); the user must not already
      have an account with that name and type; then `Account().from_dict(data,
      user_id)` is inserted. */
  function CreateAccount(b: Books, userId: int, data: AccountData, now: int): (r: Result<Books, Failure>)
    ensures data.name.None? || data.name == Some("") ==> r == Err(BadRequest)
    ensures data.name.Some? && data.name != Some("") && data.accountType.Some? ==>
              (exists k :: k in b.accounts && SameAccount(b.accounts[k], userId, data.name.value, data.accountType.value)) ==>
                r == Err(BadRequest)
    ensures data.name.Some? && data.name != Some("") && data.accountType.None? ==> r == Err(ServerError)
    ensures data.name.Some? && data.name != Some("") && data.accountType.Some? &&
            !(exists k :: k in b.accounts && SameAccount(b.accounts[k], userId, data.name.value, data.accountType.value)) ==>
              (InsertId(data.id, b.nextAccount) !in b.accounts ==> r.Ok?) &&
              (InsertId(data.id, b.nextAccount) in b.accounts ==> r == Err(ServerError))
    ensures r.Ok? ==>
              var id := InsertId(data.id, b.nextAccount);
              id !in b.accounts && id in r.value.accounts && data.name.Some? && data.accountType.Some? &&
              var a := r.value.accounts[id];
              r.value.accounts == b.accounts[id := a] &&
              a.name == data.name.value && a.accountType == data.accountType.value &&
              a.userId == (if userId != 0 then Some(userId) else None) &&
              a.balance == Or(data.balance, 0) && a.sumOnDash == Or(data.sumOnDash, true) &&
              a.createdAt == now
    ensures r.Ok? ==> r.value.transactions == b.transactions && r.value.transfers == b.transfers
    ensures r.Ok? && UniqueNames(b.accounts) ==> UniqueNames(r.value.accounts)
    ensures r.Ok? && Consistent(b) ==> Consistent(r.value)
  {
    if data.name.None? || data.name.value == "" then Err(BadRequest)
    else if data.accountType.None? then Err(ServerError)
    else if exists k :: k in b.accounts && SameAccount(b.accounts[k], userId, data.name.value, data.accountType.value) then
      Err(BadRequest)
    else
      var id := InsertId(data.id, b.nextAccount);
      if id in b.accounts then Err(ServerError)
      else
        var a := PatchAccount(NewAccount(id, now), data, userId);
        var r := b.(accounts := b.accounts[id := a], nextAccount := Advance(b.nextAccount, id));
        assert UniqueNames(b.accounts) ==> UniqueNames(r.accounts) by {
          if UniqueNames(b.accounts) {
            UniqueAfterInsert(b.accounts, id, a, userId);
          }
        }
        Ok(r)
  }

  /** Inserting an account whose `(user_id, name, account_type)` no other account of
      that user has keeps the names unique. */
  lemma UniqueAfterInsert(accounts: map<int, Account>, id: int, a: Account, userId: int)
    requires UniqueNames(accounts) && id !in accounts
    requires a.userId.Some? ==> a.userId == Some(userId)
    requires forall k :: k in accounts ==> !SameAccount(accounts[k], userId, a.name, a.accountType)
    ensures UniqueNames(accounts[id := a])
  {
    var r := accounts[id := a];
    forall i, j | i in r && j in r && i != j && r[i].userId.Some?
      ensures !SameAccount(r[j], r[i].userId.value, r[i].name, r[i].accountType)
    {
      if i == id {
        assert !SameAccount(accounts[j], userId, a.name, a.accountType);
      } else if j == id {
        assert !SameAccount(accounts[i], userId, a.name, a.accountType);
      }
    }
  }

  /** `update_account(account_id)`: 404 for a missing account; otherwise
      `account.from_dict(data)` patches the whitelisted fields present in the
      payload, `balance` included, and never `user_id`. A patched `id` moves the
      row to that key; a key already taken fails at commit. */
  function UpdateAccount(b: Books, accountId: int, data: AccountData): (r: Result<Books, Failure>)
    ensures accountId !in b.accounts ==> r == Err(NotFound)
    ensures accountId in b.accounts ==>
              var newId := Or(data.id, b.accounts[accountId].id);
              (newId == accountId || newId !in b.accounts ==> r.Ok?) &&
              (newId != accountId && newId in b.accounts ==> r == Err(ServerError))
    ensures r.Ok? ==> accountId in b.accounts
    ensures r.Ok? ==>
              var old_ := b.accounts[accountId];
              var newId := Or(data.id, old_.id);
              newId in r.value.accounts &&
              var a := r.value.accounts[newId];
              a == PatchAccount(old_, data, 0) && a.userId == old_.userId && a.createdAt == old_.createdAt &&
              a.balance == Or(data.balance, old_.balance) &&
              r.value.accounts.Keys == b.accounts.Keys - {accountId} + {newId} &&
              forall k :: k in b.accounts && k != accountId && k != newId ==> r.value.accounts[k] == b.accounts[k]
    ensures r.Ok? ==> r.value.transactions == b.transactions && r.value.transfers == b.transfers
    ensures r.Ok? && Consistent(b) ==> Consistent(r.value)
  {
    if accountId !in b.accounts then Err(NotFound)
    else
      var a := PatchAccount(b.accounts[accountId], data, 0);
      if a.id != accountId && a.id in b.accounts then Err(ServerError)
      else Ok(b.(accounts := (b.accounts - {accountId})[a.id := a], nextAccount := Advance(b.nextAccount, a.id)))
  }

  // ---------------------------------------------------------------------------
  // Transactions (app/api/transactions.py)

  /** The two creating endpoints. */
  datatype Flow = Income | Expense

  /** A balance change: `delta` added to the balance of account `account`. */
  datatype Move = Move(account: int, delta: int)

  /** The balance change of `create_income` / `create_expense`: none unless `paid` is
      truthy; then the account named by `account_id` gains (income) or loses
      (expense) `value`, and a missing `account_id` or `value` is a `KeyError`. */
  function CreationMove(flow: Flow, data: TransactionData): (r: Result<Option<Move>, Failure>)
    ensures data.paid != Some(true) ==> r == Ok(None)
    ensures data.paid == Some(true) && (data.accountId.None? || data.value.None?) ==> r == Err(ServerError)
    ensures data.paid == Some(true) && data.accountId.Some? && data.value.Some? ==> r.Ok? && r.value.Some?
    ensures r.Ok? && r.value.Some? ==>
              data.paid == Some(true) && r.value.value.account == data.accountId.value &&
              r.value.value.delta == (if flow == Income then data.value.value else -data.value.value)
  {
    if data.paid != Some(true) then Ok(None)
    else if data.accountId.None? || data.value.None? then Err(ServerError)
    else Ok(Some(Move(data.accountId.value, if flow == Income then data.value.value else -data.value.value)))
  }

  /** The balance change of `update_transaction` for the stored transaction `t`:
      only when `paid` is in the payload (which then must name `account_id`) and
      flips the stored state. Unpaid to paid applies the payload's `value`,
      subtracted for an EXPENSE and added otherwise; paid to unpaid reverses the
      STORED value, added back for an EXPENSE and subtracted otherwise. The type
      is the payload's `transaction_type` in both directions. */
  function UpdateMove(t: Transaction, data: TransactionData): (r: Result<Option<Move>, Failure>)
    requires t.paid ==> t.value.Some?
    ensures data.paid.None? ==> r == Ok(None)
    ensures data.paid == Some(t.paid) && data.accountId.Some? ==> r == Ok(None)
    ensures data.paid.Some? && data.paid != Some(t.paid) && data.accountId.Some? && data.transactionType.Some? &&
            (t.paid || data.value.Some?) ==>
              r.Ok? && r.value.Some?
    ensures data.paid.Some? && data.accountId.None? ==> r == Err(ServerError)
    ensures r.Ok? && r.value.Some? ==> data.accountId == Some(r.value.value.account)
    ensures data.paid == Some(true) && !t.paid && (data.transactionType.None? || data.value.None?) ==>
              r == Err(ServerError)
    ensures data.paid == Some(false) && t.paid && data.transactionType.None? ==> r == Err(ServerError)
    ensures data.paid == Some(true) && !t.paid && r.Ok? ==>
              data.value.Some? && r.value.Some? && r.value.value.delta ==
                (if data.transactionType == Some(EXPENSE) then -data.value.value else data.value.value)
    ensures data.paid == Some(false) && t.paid && r.Ok? ==>
              r.value.Some? && r.value.value.delta ==
                (if data.transactionType == Some(EXPENSE) then t.value.value else -t.value.value)
  {
    if data.paid.None? then Ok(None)
    else if data.accountId.None? then Err(ServerError)
    else if data.paid.value && !t.paid then
      if data.transactionType.None? || data.value.None? then Err(ServerError)
      else Ok(Some(Move(data.accountId.value,
                        if data.transactionType.value == EXPENSE then -data.value.value else data.value.value)))
    else if !data.paid.value && t.paid then
      if data.transactionType.None? then Err(ServerError)
      else Ok(Some(Move(data.accountId.value,
                        if data.transactionType.value == EXPENSE then t.value.value else -t.value.value)))
    else Ok(None)
  }

  /** Applying a balance change: the account must exist (else the attribute access
      on `None` raises). */
  function ApplyMove(accounts: map<int, Account>, m: Option<Move>): (r: Result<map<int, Account>, Failure>)
    ensures m.None? ==> r == Ok(accounts)
    ensures m.Some? && m.value.account !in accounts ==> r == Err(ServerError)
    ensures m.Some? && m.value.account in accounts ==> r == Ok(Credit(accounts, m.value.account, m.value.delta))
  {
    if m.None? then Ok(accounts)
    else if m.value.account !in accounts then Err(ServerError)
    else Ok(Credit(accounts, m.value.account, m.value.delta))
  }

  /** `create_income(user_id)` / `create_expense(user_id)`: the balance change of
      `CreationMove`, then `Transaction().from_dict(data, user_id)` is inserted. */
  function CreateTransaction(b: Books, flow: Flow, userId: int, data: TransactionData, now: int)
    : (r: Result<Books, Failure>)
    ensures data.paid != Some(true) && r.Ok? ==> r.value.accounts == b.accounts
    ensures data.paid == Some(true) && r.Ok? ==>
              data.accountId.Some? && data.value.Some? &&
              var id := data.accountId.value;
              id in b.accounts && r.value.accounts.Keys == b.accounts.Keys &&
              r.value.accounts[id].balance ==
                b.accounts[id].balance + (if flow == Income then data.value.value else -data.value.value) &&
              r.value.accounts[id] == b.accounts[id].(balance := r.value.accounts[id].balance) &&
              forall k :: k in b.accounts && k != id ==> r.value.accounts[k] == b.accounts[k]
    ensures data.paid == Some(true) ==>
              (data.accountId.None? || data.accountId.value !in b.accounts || data.value.None?) ==>
                r == Err(ServerError)
    ensures data.paid != Some(true) || (data.accountId.Some? && data.accountId.value in b.accounts && data.value.Some?) ==>
              (InsertId(data.id, b.nextTransaction) !in b.transactions ==> r.Ok?) &&
              (InsertId(data.id, b.nextTransaction) in b.transactions ==> r == Err(ServerError))
    ensures r.Ok? ==>
              var id := InsertId(data.id, b.nextTransaction);
              id !in b.transactions &&
              r.value.transactions == b.transactions[id := PatchTransaction(NewTransaction(id, now), data, userId)]
    ensures r.Ok? ==> r.value.transfers == b.transfers
    ensures r.Ok? && Consistent(b) ==> Consistent(r.value)
  {
    match CreationMove(flow, data)
    case Err(e) => Err(e)
    case Ok(m) =>
      match ApplyMove(b.accounts, m)
      case Err(e) => Err(e)
      case Ok(accounts) =>
        var id := InsertId(data.id, b.nextTransaction);
        if id in b.transactions then Err(ServerError)
        else
          var t := PatchTransaction(NewTransaction(id, now), data, userId);
          Ok(b.(accounts := accounts, transactions := b.transactions[id := t],
                nextTransaction := Advance(b.nextTransaction, id)))
  }

  /** `update_transaction(transaction_id)`: 404 for a missing transaction; the
      balance change of `UpdateMove`, computed from the transaction as stored; then
      `transaction.from_dict(data)` patches the record (never its `user_id`). */
  function UpdateTransaction(b: Books, transactionId: int, data: TransactionData): (r: Result<Books, Failure>)
    requires Consistent(b)
    ensures transactionId !in b.transactions ==> r == Err(NotFound)
    ensures r.Ok? ==>
              transactionId in b.transactions && Or(data.id, transactionId) in r.value.transactions &&
              var t := b.transactions[transactionId];
              (data.paid.None? || data.paid == Some(t.paid) ==> r.value.accounts == b.accounts) &&
              r.value.transactions[Or(data.id, transactionId)] == PatchTransaction(t, data, 0)
    ensures transactionId in b.transactions ==>
              var m := UpdateMove(b.transactions[transactionId], data);
              var newId := Or(data.id, transactionId);
              (m.Err? ==> r == Err(m.error)) &&
              (m.Ok? && ApplyMove(b.accounts, m.value).Err? ==> r == Err(ServerError)) &&
              (m.Ok? && ApplyMove(b.accounts, m.value).Ok? ==>
                 (newId == transactionId || newId !in b.transactions ==> r.Ok?) &&
                 (newId != transactionId && newId in b.transactions ==> r == Err(ServerError)))
    ensures r.Ok? ==>
              var m := UpdateMove(b.transactions[transactionId], data);
              m.Ok? && ApplyMove(b.accounts, m.value) == Ok(r.value.accounts)
    ensures r.Ok? ==> r.value.transactions.Keys == b.transactions.Keys - {transactionId} + {Or(data.id, transactionId)}
    ensures r.Ok? ==> forall k :: k in b.transactions && k != transactionId && k != Or(data.id, transactionId) ==>
                        k in r.value.transactions && r.value.transactions[k] == b.transactions[k]
    ensures r.Ok? ==> r.value.transfers == b.transfers && Consistent(r.value)
  {
    if transactionId !in b.transactions then Err(NotFound)
    else
      var t := b.transactions[transactionId];
      match UpdateMove(t, data)
      case Err(e) => Err(e)
      case Ok(m) =>
        match ApplyMove(b.accounts, m)
        case Err(e) => Err(e)
        case Ok(accounts) =>
          var t' := PatchTransaction(t, data, 0);
          if t'.id != transactionId && t'.id in b.transactions then Err(ServerError)
          else
            Ok(b.(accounts := accounts, transactions := (b.transactions - {transactionId})[t'.id := t'],
                  nextTransaction := Advance(b.nextTransaction, t'.id)))
  }

  // ---------------------------------------------------------------------------
  // Transfers (app/api/transfers.py)

  /** The two assignments of `create_transfer`: both right-hand sides are column
      expressions over the stored balances. */
  function MoveAmount(accounts: map<int, Account>, from: int, to: int, amount: int): (r: map<int, Account>)
    requires from in accounts && to in accounts
    ensures r.Keys == accounts.Keys
    ensures r[to] == accounts[to].(balance := accounts[to].balance + amount)
    ensures from != to ==> r[from] == accounts[from].(balance := accounts[from].balance - amount)
    ensures forall k :: k in accounts && k != from && k != to ==> r[k] == accounts[k]
  {
    accounts[from := accounts[from].(balance := accounts[from].balance - amount)]
            [to := accounts[to].(balance := accounts[to].balance + amount)]
  }

  /** Between two different accounts, a transfer neither creates nor destroys money. */
  lemma MoveConserves(accounts: map<int, Account>, from: int, to: int, amount: int)
    requires from in accounts && to in accounts && from != to
    ensures SumBalances(MoveAmount(accounts, from, to, amount)) == SumBalances(accounts)
  {
    var debited := Credit(accounts, from, -amount);
    assert MoveAmount(accounts, from, to, amount) == Credit(debited, to, amount);
    SumCredit(accounts, from, -amount);
    SumCredit(debited, to, amount);
  }

  /** `create_transfer`: both accounts must be named (else 400); both must exist and
      the payload must hold `amount` (else an exception); the first account is
      debited and the second credited, then `Transfer().from_dict(data)` is inserted. */
  function CreateTransfer(b: Books, data: TransferData, now: int): (r: Result<Books, Failure>)
    ensures data.fromAccount.None? || data.toAccount.None? ==> r == Err(BadRequest)
    ensures data.fromAccount.Some? && data.toAccount.Some? ==>
              (data.fromAccount.value !in b.accounts || data.toAccount.value !in b.accounts || data.amount.None?) ==>
                r == Err(ServerError)
    ensures data.fromAccount.Some? && data.toAccount.Some? && data.amount.Some? &&
            data.fromAccount.value in b.accounts && data.toAccount.value in b.accounts ==>
              (InsertId(data.id, b.nextTransfer) !in b.transfers ==> r.Ok?) &&
              (InsertId(data.id, b.nextTransfer) in b.transfers ==> r == Err(ServerError))
    ensures r.Ok? ==>
              data.fromAccount.Some? && data.toAccount.Some? && data.amount.Some? &&
              data.fromAccount.value in b.accounts && data.toAccount.value in b.accounts &&
              var from, to, amount := data.fromAccount.value, data.toAccount.value, data.amount.value;
              r.value.accounts == MoveAmount(b.accounts, from, to, amount) &&
              r.value.accounts.Keys == b.accounts.Keys &&
              (from != to ==> r.value.accounts[from].balance == b.accounts[from].balance - amount &&
                              r.value.accounts[to].balance == b.accounts[to].balance + amount &&
                              SumBalances(r.value.accounts) == SumBalances(b.accounts)) &&
              forall k :: k in b.accounts && k != from && k != to ==> r.value.accounts[k] == b.accounts[k]
    ensures r.Ok? ==>
              var id := InsertId(data.id, b.nextTransfer);
              id !in b.transfers && id in r.value.transfers &&
              var t := r.value.transfers[id];
              r.value.transfers == b.transfers[id := t] &&
              t == PatchTransfer(NewTransfer(id, now), data) &&
              t.fromAccount == data.fromAccount.value && t.toAccount == data.toAccount.value &&
              t.amount == data.amount.value
    ensures r.Ok? ==> r.value.transactions == b.transactions
    ensures r.Ok? && Consistent(b) ==> Consistent(r.value)
  {
    if data.fromAccount.None? || data.toAccount.None? then Err(BadRequest)
    else
      var from, to := data.fromAccount.value, data.toAccount.value;
      if from !in b.accounts || to !in b.accounts || data.amount.None? then Err(ServerError)
      else
        var accounts := MoveAmount(b.accounts, from, to, data.amount.value);
        assert from != to ==> SumBalances(accounts) == SumBalances(b.accounts) by {
          if from != to {
            MoveConserves(b.accounts, from, to, data.amount.value);
          }
        }
        var id := InsertId(data.id, b.nextTransfer);
        if id in b.transfers then Err(ServerError)
        else
          var t := PatchTransfer(NewTransfer(id, now), data);
          Ok(b.(accounts := accounts, transfers := b.transfers[id := t], nextTransfer := Advance(b.nextTransfer, id)))
  }

  // ---------------------------------------------------------------------------
  // Reading endpoints

  /** `get_account(account_id)`: the `to_dict` of the account, or 404. */
  function GetAccount(b: Books, id: int): (r: Result<Dict, Failure>)
    ensures r.Ok? <==> id in b.accounts
    ensures r.Ok? ==> r.value == AccountToDict(b.accounts[id])
    ensures r.Err? ==> r.error == NotFound
  {
    if id in b.accounts then Ok(AccountToDict(b.accounts[id])) else Err(NotFound)
  }

  /** `get_transaction(transaction_id)`: the `to_dict` of the transaction, or 404. */
  function GetTransaction(b: Books, id: int): (r: Result<Dict, Failure>)
    ensures r.Ok? <==> id in b.transactions
    ensures r.Ok? ==> r.value == TransactionToDict(b.transactions[id])
    ensures r.Err? ==> r.error == NotFound
  {
    if id in b.transactions then Ok(TransactionToDict(b.transactions[id])) else Err(NotFound)
  }

  /** `get_transfer(transfer_id)`: the `to_dict` of the transfer, or 404. */
  function GetTransfer(b: Books, id: int): (r: Result<Dict, Failure>)
    ensures r.Ok? <==> id in b.transfers
    ensures r.Ok? ==> r.value == TransferToDict(b.transfers[id])
    ensures r.Err? ==> r.error == NotFound
  {
    if id in b.transfers then Ok(TransferToDict(b.transfers[id])) else Err(NotFound)
  }

  /** The largest page any list endpoint serves. */
  const MaxPerPage: int := 100
  /** The default page size of `get_user_accounts` and `get_account_transfers`. */
  const AccountsPerPage: int := 10
  const TransfersPerPage: int := 10
  /** The default page size of the three transaction lists. */
  const TransactionsPerPage: int := 50

  /** `min(request.args.get('per_page', default, type=int), 100)`; an absent or
      non-integer argument gives the default. */
  function PerPage(requested: Option<int>, default: int): (r: int)
    ensures r <= MaxPerPage && r <= Or(requested, default)
    ensures r == MaxPerPage || r == Or(requested, default)
  {
    if Or(requested, default) < MaxPerPage then Or(requested, default) else MaxPerPage
  }

  /** Without `per_page`, every list endpoint serves its own default page size, each
      of which is below the maximum. */
  lemma DefaultPageSizes()
    ensures PerPage(None, AccountsPerPage) == AccountsPerPage
    ensures PerPage(None, TransfersPerPage) == TransfersPerPage
    ensures PerPage(None, TransactionsPerPage) == TransactionsPerPage
  {
  }

  /** `Account.query.filter_by(user_id=user_id)`: the keys of that user's accounts. */
  function UserAccounts(b: Books, userId: int): (r: set<int>)
    ensures forall k :: k in r <==> k in b.accounts && b.accounts[k].userId == Some(userId)
  {
    set k | k in b.accounts && b.accounts[k].userId == Some(userId)
  }

  /** `Transaction.query.filter_by(user_id=user_id)`, and with `transaction_type=kind`
      for the income and expense lists. */
  function UserTransactions(b: Books, userId: int, kind: Option<int>): (r: set<int>)
    ensures forall k :: k in r <==>
              k in b.transactions && b.transactions[k].userId == Some(userId) &&
              (kind.None? || b.transactions[k].transactionType == kind)
  {
    set k | k in b.transactions && b.transactions[k].userId == Some(userId) &&
            (kind.None? || b.transactions[k].transactionType == kind)
  }

  /** `Transfer.query.filter_by(from_account=account_id)`: the transfers out of an account. */
  function AccountTransfers(b: Books, accountId: int): (r: set<int>)
    ensures forall k :: k in r <==> k in b.transfers && b.transfers[k].fromAccount == accountId
  {
    set k | k in b.transfers && b.transfers[k].fromAccount == accountId
  }

  // ---------------------------------------------------------------------------
  // Properties across endpoints

  /** A created account is found by `get_account` with the payload's name, and is
      listed for the user of the URL and for no one else (when that user id is 0,
      `from_dict` leaves `user_id` empty and the account is listed for no one). */
  lemma CreatedAccountListed(b: Books, userId: int, data: AccountData, now: int, u: int)
    requires CreateAccount(b, userId, data, now).Ok?
    ensures var r := CreateAccount(b, userId, data, now).value;
            var id := InsertId(data.id, b.nextAccount);
            GetAccount(r, id).Ok? && Get(GetAccount(r, id).value, "name") == Some(Str(data.name.value)) &&
            UserAccounts(r, u) == UserAccounts(b, u) + (if u == userId && userId != 0 then {id} else {})
  {
    var r := CreateAccount(b, userId, data, now).value;
    var id := InsertId(data.id, b.nextAccount);
    var extra: set<int> := if u == userId && userId != 0 then {id} else {};
    forall k ensures k in UserAccounts(r, u) <==> k in UserAccounts(b, u) + extra {
      if k == id {
        assert r.accounts[k].userId == if userId != 0 then Some(userId) else None;
      }
    }
  }

  /** A created income or expense is listed for the user of the URL, and among the
      incomes or the expenses according to the payload's `transaction_type`, which
      neither endpoint sets itself. */
  lemma CreatedTransactionListed(b: Books, flow: Flow, userId: int, data: TransactionData, now: int,
                                 u: int, kind: Option<int>)
    requires CreateTransaction(b, flow, userId, data, now).Ok?
    ensures var r := CreateTransaction(b, flow, userId, data, now).value;
            var id := InsertId(data.id, b.nextTransaction);
            UserTransactions(r, u, kind) ==
              UserTransactions(b, u, kind) +
              (if u == userId && userId != 0 && (kind.None? || data.transactionType == kind) then {id} else {})
  {
    var r := CreateTransaction(b, flow, userId, data, now).value;
    var id := InsertId(data.id, b.nextTransaction);
    var extra: set<int> :=
      if u == userId && userId != 0 && (kind.None? || data.transactionType == kind) then {id} else {};
    forall k ensures k in UserTransactions(r, u, kind) <==> k in UserTransactions(b, u, kind) + extra {
      if k == id {
        var t := r.transactions[k];
        assert t.userId == if userId != 0 then Some(userId) else None;
        assert t.transactionType == data.transactionType;
      }
    }
  }

  /** A created transfer is listed among the transfers of its source account, and of
      no other account. */
  lemma CreatedTransferListed(b: Books, data: TransferData, now: int, a: int)
    requires CreateTransfer(b, data, now).Ok?
    ensures var r := CreateTransfer(b, data, now).value;
            var id := InsertId(data.id, b.nextTransfer);
            AccountTransfers(r, a) ==
              AccountTransfers(b, a) + (if a == data.fromAccount.value then {id} else {})
  {
    var r := CreateTransfer(b, data, now).value;
    var id := InsertId(data.id, b.nextTransfer);
    var extra: set<int> := if a == data.fromAccount.value then {id} else {};
    forall k ensures k in AccountTransfers(r, a) <==> k in AccountTransfers(b, a) + extra {
    }
  }

  /** What `create_account` and `update_account` answer is what `get_account` then
      answers for the key they wrote. */
  lemma WrittenAccountFetched(b: Books, userId: int, data: AccountData, now: int, accountId: int, patch: AccountData)
    ensures CreateAccount(b, userId, data, now).Ok? ==>
              var id := InsertId(data.id, b.nextAccount);
              GetAccount(CreateAccount(b, userId, data, now).value, id) ==
                Ok(AccountToDict(PatchAccount(NewAccount(id, now), data, userId)))
    ensures UpdateAccount(b, accountId, patch).Ok? ==>
              var old_ := b.accounts[accountId];
              GetAccount(UpdateAccount(b, accountId, patch).value, Or(patch.id, old_.id)) ==
                Ok(AccountToDict(PatchAccount(old_, patch, 0)))
  {
  }

  /** What `create_income`, `create_expense` and `update_transaction` answer is what
      `get_transaction` then answers for the key they wrote. */
  lemma WrittenTransactionFetched(b: Books, flow: Flow, userId: int, data: TransactionData, now: int,
                                  transactionId: int, patch: TransactionData)
    requires Consistent(b)
    ensures CreateTransaction(b, flow, userId, data, now).Ok? ==>
              var id := InsertId(data.id, b.nextTransaction);
              GetTransaction(CreateTransaction(b, flow, userId, data, now).value, id) ==
                Ok(TransactionToDict(PatchTransaction(NewTransaction(id, now), data, userId)))
    ensures UpdateTransaction(b, transactionId, patch).Ok? ==>
              GetTransaction(UpdateTransaction(b, transactionId, patch).value, Or(patch.id, transactionId)) ==
                Ok(TransactionToDict(PatchTransaction(b.transactions[transactionId], patch, 0)))
  {
  }

  /** What `create_transfer` answers is what `get_transfer` then answers for the key
      it wrote. */
  lemma WrittenTransferFetched(b: Books, data: TransferData, now: int)
    ensures CreateTransfer(b, data, now).Ok? ==>
              var id := InsertId(data.id, b.nextTransfer);
              GetTransfer(CreateTransfer(b, data, now).value, id) ==
                Ok(TransferToDict(PatchTransfer(NewTransfer(id, now), data)))
  {
  }

  /** Marking an unpaid transaction paid and then unpaid again, both times naming the
      same account and type and leaving the id alone, returns every balance to where
      it started: the second update reverses the value the first one stored. */
  lemma PayThenUnpay(b: Books, id: int, pay: TransactionData, unpay: TransactionData)
    requires Consistent(b) && id in b.transactions && !b.transactions[id].paid
    requires pay.paid == Some(true) && unpay.paid == Some(false)
    requires pay.id.None? && unpay.id.None?
    requires pay.accountId.Some? && unpay.accountId == pay.accountId
    requires unpay.transactionType == pay.transactionType
    requires UpdateTransaction(b, id, pay).Ok?
    ensures UpdateTransaction(UpdateTransaction(b, id, pay).value, id, unpay).Ok?
    ensures UpdateTransaction(UpdateTransaction(b, id, pay).value, id, unpay).value.accounts == b.accounts
  {
    var b1 := UpdateTransaction(b, id, pay).value;
    var a := pay.accountId.value;
    var t := b.transactions[id];
    var m1 := UpdateMove(t, pay).value.value;
    assert a in b.accounts && b1.accounts == Credit(b.accounts, a, m1.delta);
    var t1 := b1.transactions[id];
    assert t1 == PatchTransaction(t, pay, 0) && t1.paid && t1.value == pay.value;
    var m2 := UpdateMove(t1, unpay).value.value;
    assert m2.account == a && m2.delta == -m1.delta;
    var b2 := UpdateTransaction(b1, id, unpay).value;
    assert b2.accounts == Credit(b1.accounts, a, m2.delta);
    assert Credit(Credit(b.accounts, a, m1.delta), a, -m1.delta) == b.accounts;
  }
}
