/**
 * The records of the ledger (`Account`, `Transaction`, `Transfer`), their `from_dict`
 * whitelist patchers and `to_dict` projections, and `User` with its token
 * lifecycle (`get_token`, `revoke_token`, `check_token`).
 *
 * Money is integer cents. Times are integer seconds. A payload is modelled by
 * one `Option` per whitelisted key: `Some(v)` when the key is in the dict.
 */
module Models {
  import opened Wrappers
  import opened Json

  /** Transaction types. */
  const INCOME: int := 1
  const EXPENSE: int := 2

  /** `data[field]` when `field in data`, else the current value. */
  function Or<T>(o: Option<T>, current: T): T {
    if o.Some? then o.value else current
  }

  /** `data[field]` for a nullable column. */
  function OrSome<T>(o: Option<T>, current: Option<T>): Option<T> {
    if o.Some? then o else current
  }

  /** The column value of a nullable integer as JSON. */
  function NumOrNull(o: Option<int>): Value {
    if o.Some? then Num(o.value) else Null
  }

  /** The column value of a nullable string as JSON. */
  function StrOrNull(o: Option<string>): Value {
    if o.Some? then Str(o.value) else Null
  }

  // ---------------------------------------------------------------------------
  // Account

  /** A row of `account`. `name` and `account_type` are always set: the only
      code that creates an account refuses a payload without them. */
  datatype Account = Account(
    id: int,
    name: string,
    userId: Option<int>,
    accountType: int,
    balance: int,
    sumOnDash: bool,
    createdAt: int)

  /** The whitelisted keys of `Account.from_dict` present in a payload. */
  datatype AccountData = AccountData(
    id: Option<int>,
    name: Option<string>,
    accountType: Option<int>,
    balance: Option<int>,
    sumOnDash: Option<bool>)

  datatype AccountField = AccountIdField | NameField | AccountTypeField | BalanceField | SumOnDashField

  /** The field list `Account.from_dict` loops over, in its order. */
  const AccountFields: seq<AccountField> :=
    [AccountIdField, NameField, AccountTypeField, BalanceField, SumOnDashField]

  /** One step of the loop: `if field in data: setattr(self, field, data[field])`. */
  function SetAccountField(a: Account, f: AccountField, data: AccountData): Account {
    match f
    case AccountIdField => a.(id := Or(data.id, a.id))
    case NameField => a.(name := Or(data.name, a.name))
    case AccountTypeField => a.(accountType := Or(data.accountType, a.accountType))
    case BalanceField => a.(balance := Or(data.balance, a.balance))
    case SumOnDashField => a.(sumOnDash := Or(data.sumOnDash, a.sumOnDash))
  }

  /** `Account.from_dict(data, user_id)`: each whitelisted field present in `data` takes
      its value, every other field keeps its own, and `user_id` is set only when the
      argument is truthy (non-zero). */
  function PatchAccount(a: Account, data: AccountData, userId: int): Account {
    a.(id := Or(data.id, a.id),
       name := Or(data.name, a.name),
       accountType := Or(data.accountType, a.accountType),
       balance := Or(data.balance, a.balance),
       sumOnDash := Or(data.sumOnDash, a.sumOnDash),
       userId := if userId != 0 then Some(userId) else a.userId)
  }

  /** `from_dict` with the same payload twice changes nothing the second time, and an
      empty payload without a user changes nothing at all. */
  lemma PatchAccountIdempotent(a: Account, data: AccountData, userId: int)
    ensures PatchAccount(PatchAccount(a, data, userId), data, userId) == PatchAccount(a, data, userId)
    ensures PatchAccount(a, AccountData(None, None, None, None, None), 0) == a
  {
  }

  /** `Account.from_dict` as the loop over its field list. */
  method AccountFromDict(a: Account, data: AccountData, userId: int) returns (r: Account)
    ensures r == PatchAccount(a, data, userId)
  {
    r := a;
    for i := 0 to |AccountFields|
      invariant r.id == if i > 0 then Or(data.id, a.id) else a.id
      invariant r.name == if i > 1 then Or(data.name, a.name) else a.name
      invariant r.accountType == if i > 2 then Or(data.accountType, a.accountType) else a.accountType
      invariant r.balance == if i > 3 then Or(data.balance, a.balance) else a.balance
      invariant r.sumOnDash == if i > 4 then Or(data.sumOnDash, a.sumOnDash) else a.sumOnDash
      invariant r.userId == a.userId && r.createdAt == a.createdAt
    {
      r := SetAccountField(r, AccountFields[i], data);
    }
    if userId != 0 {
      r := r.(userId := Some(userId));
    }
  }

  /** A new `Account()` before `from_dict`: the column defaults `balance = 0` and
      `sum_on_dash = True`, `created_at` the time of the insert. The name and the
      type are placeholders that the creating code always overwrites. */
  function NewAccount(id: int, now: int): (r: Account)
    ensures r.balance == 0 && r.sumOnDash && r.userId.None?
    ensures r.id == id && r.createdAt == now
  {
    Account(id, "", None, 0, 0, true, now)
  }

  /** The keys of `Account.to_dict`, in order. */
  const AccountKeys: seq<string> := ["id", "user_id", "name", "account_type", "balance", "sum_on_dash"]

  /** `Account.to_dict`: exactly the six public fields, each with the record's value. */
  function AccountToDict(a: Account): (r: Dict)
    ensures UniqueKeys(r) && Keys(r) == AccountKeys
    ensures Get(r, "id") == Some(Num(a.id))
    ensures Get(r, "user_id") == Some(NumOrNull(a.userId))
    ensures Get(r, "name") == Some(Str(a.name))
    ensures Get(r, "account_type") == Some(Num(a.accountType))
    ensures Get(r, "balance") == Some(Num(a.balance))
    ensures Get(r, "sum_on_dash") == Some(Bool(a.sumOnDash))
  {
    AccountKeysDistinct();
    var vals := [Num(a.id), NumOrNull(a.userId), Str(a.name), Num(a.accountType),
                 Num(a.balance), Bool(a.sumOnDash)];
    var r := FromPairs(AccountKeys, vals);
    GetPair(AccountKeys, vals, 0, "id");
    GetPair(AccountKeys, vals, 1, "user_id");
    GetPair(AccountKeys, vals, 2, "name");
    GetPair(AccountKeys, vals, 3, "account_type");
    GetPair(AccountKeys, vals, 4, "balance");
    GetPair(AccountKeys, vals, 5, "sum_on_dash");
    r
  }

  lemma AccountKeysDistinct()
    ensures Distinct(AccountKeys)
  {
  }

  // ---------------------------------------------------------------------------
  // Transfer

  /** A row of `transfer`. `from_account`, `to_account` and `amount` are always set:
      the only code that creates a transfer fails without them. */
  datatype Transfer = Transfer(
    id: int,
    fromAccount: int,
    toAccount: int,
    amount: int,
    observation: Option<string>,
    transferDate: int)

  /** The whitelisted keys of `Transfer.from_dict` present in a payload. */
  datatype TransferData = TransferData(
    id: Option<int>,
    fromAccount: Option<int>,
    toAccount: Option<int>,
    amount: Option<int>,
    observation: Option<string>,
    transferDate: Option<int>)

  datatype TransferField =
    TransferIdField | FromAccountField | ToAccountField | AmountField | TransferObservationField | TransferDateField

  /** The field list `Transfer.from_dict` loops over, in its order. */
  const TransferFields: seq<TransferField> :=
    [TransferIdField, FromAccountField, ToAccountField, AmountField, TransferObservationField, TransferDateField]

  function SetTransferField(t: Transfer, f: TransferField, data: TransferData): Transfer {
    match f
    case TransferIdField => t.(id := Or(data.id, t.id))
    case FromAccountField => t.(fromAccount := Or(data.fromAccount, t.fromAccount))
    case ToAccountField => t.(toAccount := Or(data.toAccount, t.toAccount))
    case AmountField => t.(amount := Or(data.amount, t.amount))
    case TransferObservationField => t.(observation := OrSome(data.observation, t.observation))
    case TransferDateField => t.(transferDate := Or(data.transferDate, t.transferDate))
  }

  /** `Transfer.from_dict(data)`: each whitelisted field present in `data` takes its
      value and every other field keeps its own; it has no `user_id` to set. */
  function PatchTransfer(t: Transfer, data: TransferData): Transfer {
    t.(id := Or(data.id, t.id),
       fromAccount := Or(data.fromAccount, t.fromAccount),
       toAccount := Or(data.toAccount, t.toAccount),
       amount := Or(data.amount, t.amount),
       observation := OrSome(data.observation, t.observation),
       transferDate := Or(data.transferDate, t.transferDate))
  }

  /** `from_dict` with the same payload twice changes nothing the second time. */
  lemma PatchTransferIdempotent(t: Transfer, data: TransferData)
    ensures PatchTransfer(PatchTransfer(t, data), data) == PatchTransfer(t, data)
    ensures PatchTransfer(t, TransferData(None, None, None, None, None, None)) == t
  {
  }

  /** `Transfer.from_dict` as the loop over its field list. */
  method TransferFromDict(t: Transfer, data: TransferData) returns (r: Transfer)
    ensures r == PatchTransfer(t, data)
  {
    r := t;
    for i := 0 to |TransferFields|
      invariant r.id == if i > 0 then Or(data.id, t.id) else t.id
      invariant r.fromAccount == if i > 1 then Or(data.fromAccount, t.fromAccount) else t.fromAccount
      invariant r.toAccount == if i > 2 then Or(data.toAccount, t.toAccount) else t.toAccount
      invariant r.amount == if i > 3 then Or(data.amount, t.amount) else t.amount
      invariant r.observation == if i > 4 then OrSome(data.observation, t.observation) else t.observation
      invariant r.transferDate == if i > 5 then Or(data.transferDate, t.transferDate) else t.transferDate
    {
      r := SetTransferField(r, TransferFields[i], data);
    }
  }

  /** A new `Transfer()` before `from_dict`: `transfer_date` the time of the insert.
      The accounts and the amount are placeholders that the creating code always
      overwrites. */
  function NewTransfer(id: int, now: int): (r: Transfer)
    ensures r.id == id && r.transferDate == now && r.observation.None?
  {
    Transfer(id, 0, 0, 0, None, now)
  }

  /** The keys of `Transfer.to_dict`, in order. */
  const TransferKeys: seq<string> :=
    ["id", "from_account", "to_account", "amount", "observation", "transfer_date"]

  /** `Transfer.to_dict`; the date is given as its integer time. */
  function TransferToDict(t: Transfer): (r: Dict)
    ensures UniqueKeys(r) && Keys(r) == TransferKeys
    ensures Get(r, "id") == Some(Num(t.id))
    ensures Get(r, "from_account") == Some(Num(t.fromAccount))
    ensures Get(r, "to_account") == Some(Num(t.toAccount))
    ensures Get(r, "amount") == Some(Num(t.amount))
    ensures Get(r, "observation") == Some(StrOrNull(t.observation))
  {
    TransferKeysDistinct();
    var vals := [Num(t.id), Num(t.fromAccount), Num(t.toAccount), Num(t.amount),
                 StrOrNull(t.observation), Num(t.transferDate)];
    var r := FromPairs(TransferKeys, vals);
    GetPair(TransferKeys, vals, 0, "id");
    GetPair(TransferKeys, vals, 1, "from_account");
    GetPair(TransferKeys, vals, 2, "to_account");
    GetPair(TransferKeys, vals, 3, "amount");
    GetPair(TransferKeys, vals, 4, "observation");
    r
  }

  lemma TransferKeysDistinct()
    ensures Distinct(TransferKeys)
  {
  }

  // ---------------------------------------------------------------------------
  // Transaction

  /** A row of `transaction`. `paid` defaults to false, `date_created` to the time
      of the insert; every other column is nullable. */
  datatype Transaction = Transaction(
    id: int,
    accountId: Option<int>,
    categoryId: Option<int>,
    userId: Option<int>,
    value: Option<int>,
    description: Option<string>,
    observation: Option<string>,
    paid: bool,
    transactionType: Option<int>,
    dateCreated: int)

  /** The whitelisted keys of `Transaction.from_dict` present in a payload; `paid`
      is modelled by its truthiness. */
  datatype TransactionData = TransactionData(
    id: Option<int>,
    accountId: Option<int>,
    categoryId: Option<int>,
    value: Option<int>,
    description: Option<string>,
    observation: Option<string>,
    paid: Option<bool>,
    transactionType: Option<int>,
    dateCreated: Option<int>)

  datatype TransactionField =
    | TransactionIdField | TransactionAccountIdField | CategoryIdField | ValueField | DescriptionField
    | ObservationField | PaidField | TransactionTypeField | DateCreatedField

  /** The field list `Transaction.from_dict` loops over, in its order. */
  const TransactionFields: seq<TransactionField> :=
    [TransactionIdField, TransactionAccountIdField, CategoryIdField, ValueField, DescriptionField,
     ObservationField, PaidField, TransactionTypeField, DateCreatedField]

  function SetTransactionField(t: Transaction, f: TransactionField, data: TransactionData): Transaction {
    match f
    case TransactionIdField => t.(id := Or(data.id, t.id))
    case TransactionAccountIdField => t.(accountId := OrSome(data.accountId, t.accountId))
    case CategoryIdField => t.(categoryId := OrSome(data.categoryId, t.categoryId))
    case ValueField => t.(value := OrSome(data.value, t.value))
    case DescriptionField => t.(description := OrSome(data.description, t.description))
    case ObservationField => t.(observation := OrSome(data.observation, t.observation))
    case PaidField => t.(paid := Or(data.paid, t.paid))
    case TransactionTypeField => t.(transactionType := OrSome(data.transactionType, t.transactionType))
    case DateCreatedField => t.(dateCreated := Or(data.dateCreated, t.dateCreated))
  }

  /** `Transaction.from_dict(data, user_id)`: each whitelisted field present in `data`
      takes its value, every other field keeps its own, and `user_id` is set only
      when the argument is truthy (non-zero). */
  function PatchTransaction(t: Transaction, data: TransactionData, userId: int): Transaction {
    t.(id := Or(data.id, t.id),
       accountId := OrSome(data.accountId, t.accountId),
       categoryId := OrSome(data.categoryId, t.categoryId),
       value := OrSome(data.value, t.value),
       description := OrSome(data.description, t.description),
       observation := OrSome(data.observation, t.observation),
       paid := Or(data.paid, t.paid),
       transactionType := OrSome(data.transactionType, t.transactionType),
       dateCreated := Or(data.dateCreated, t.dateCreated),
       userId := if userId != 0 then Some(userId) else t.userId)
  }

  /** `from_dict` with the same payload twice changes nothing the second time. */
  lemma PatchTransactionIdempotent(t: Transaction, data: TransactionData, userId: int)
    ensures PatchTransaction(PatchTransaction(t, data, userId), data, userId) == PatchTransaction(t, data, userId)
    ensures PatchTransaction(t, TransactionData(None, None, None, None, None, None, None, None, None), 0) == t
  {
  }

  /** `Transaction.from_dict` as the loop over its field list. */
  method TransactionFromDict(t: Transaction, data: TransactionData, userId: int) returns (r: Transaction)
    ensures r == PatchTransaction(t, data, userId)
  {
    r := t;
    for i := 0 to |TransactionFields|
      invariant r.id == if i > 0 then Or(data.id, t.id) else t.id
      invariant r.accountId == if i > 1 then OrSome(data.accountId, t.accountId) else t.accountId
      invariant r.categoryId == if i > 2 then OrSome(data.categoryId, t.categoryId) else t.categoryId
      invariant r.value == if i > 3 then OrSome(data.value, t.value) else t.value
      invariant r.description == if i > 4 then OrSome(data.description, t.description) else t.description
      invariant r.observation == if i > 5 then OrSome(data.observation, t.observation) else t.observation
      invariant r.paid == if i > 6 then Or(data.paid, t.paid) else t.paid
      invariant r.transactionType == if i > 7 then OrSome(data.transactionType, t.transactionType) else t.transactionType
      invariant r.dateCreated == if i > 8 then Or(data.dateCreated, t.dateCreated) else t.dateCreated
      invariant r.userId == t.userId
    {
      r := SetTransactionField(r, TransactionFields[i], data);
    }
    if userId != 0 {
      r := r.(userId := Some(userId));
    }
  }

  /** A new `Transaction()` before `from_dict`: unpaid, every nullable column empty,
      `date_created` the time of the insert. */
  function NewTransaction(id: int, now: int): (r: Transaction)
    ensures !r.paid && r.value.None? && r.accountId.None? && r.userId.None?
    ensures r.id == id && r.dateCreated == now
  {
    Transaction(id, None, None, None, None, None, None, false, None, now)
  }

  /** The keys of `Transaction.to_dict`, in order; `user_id` is not among them. */
  const TransactionKeys: seq<string> :=
    ["id", "account_id", "category_id", "value", "description",
     "observation", "paid", "transaction_type", "date_created"]

  /** `Transaction.to_dict`; the date is given as its integer time. */
  function TransactionToDict(t: Transaction): (r: Dict)
    ensures UniqueKeys(r) && Keys(r) == TransactionKeys
    ensures Get(r, "value") == Some(NumOrNull(t.value))
    ensures Get(r, "paid") == Some(Bool(t.paid))
    ensures !HasKey(r, "user_id")
  {
    TransactionKeysDistinct();
    var vals := [Num(t.id), NumOrNull(t.accountId), NumOrNull(t.categoryId),
                 NumOrNull(t.value), StrOrNull(t.description), StrOrNull(t.observation),
                 Bool(t.paid), NumOrNull(t.transactionType), Num(t.dateCreated)];
    var r := FromPairs(TransactionKeys, vals);
    GetPair(TransactionKeys, vals, 3, "value");
    GetPair(TransactionKeys, vals, 6, "paid");
    r
  }

  lemma TransactionKeysDistinct()
    ensures Distinct(TransactionKeys) && "user_id" !in TransactionKeys
  {
  }

  // ---------------------------------------------------------------------------
  // User

  /** The keys of `User.from_dict` present in a payload. */
  datatype UserData = UserData(username: Option<string>, email: Option<string>, password: Option<string>)

  datatype UserField = UsernameField | EmailField

  /** The field list `User.from_dict` loops over, in its order. */
  const UserFields: seq<UserField> := [UsernameField, EmailField]

  /** The default lifetime of a token, in seconds. */
  const DefaultExpiresIn: int := 3600

  /** A token is handed out again only while it has more than this many seconds left. */
  const TokenMargin: int := 60

  /** The keys `User.to_dict` always returns, in order; `email` follows them on request. */
  const UserKeys: seq<string> := ["id", "username", "last_seen", "_links"]

  lemma UserKeysDistinct()
    ensures Distinct(UserKeys) && Distinct(UserKeys + ["email"]) && "email" !in UserKeys
    ensures forall k :: k in ["password_hash", "token"] ==> k !in UserKeys + ["email"]
  {
  }

  class User {
    var id: int
    var username: Option<string>
    var email: Option<string>
    var passwordHash: Option<string>
    var token: Option<string>
    var tokenExpiration: Option<int>

    /** A token always comes with its expiration (both are set together). */
    predicate Valid()
      reads this
    {
      token.Some? ==> tokenExpiration.Some?
    }

    /** A fresh `User()` row: every nullable column empty. */
    constructor (id: int)
      ensures Valid()
      ensures this.id == id && username.None? && email.None? && passwordHash.None?
      ensures token.None? && tokenExpiration.None?
    {
      this.id := id;
      username, email, passwordHash := None, None, None;
      token, tokenExpiration := None, None;
    }

    /** `User.from_dict(data, new_user)`: `username` and `email` are copied when present;
        the password hash is set only for a new user whose payload holds a password.
        `hash` stands for `generate_password_hash(data['password'])`. */
    method FromDict(data: UserData, newUser: bool, hash: string)
      modifies this
      ensures username == OrSome(data.username, old(username))
      ensures email == OrSome(data.email, old(email))
      ensures passwordHash == if newUser && data.password.Some? then Some(hash) else old(passwordHash)
      ensures id == old(id) && token == old(token) && tokenExpiration == old(tokenExpiration)
    {
      for i := 0 to |UserFields|
        invariant username == if i > 0 then OrSome(data.username, old(username)) else old(username)
        invariant email == if i > 1 then OrSome(data.email, old(email)) else old(email)
        invariant passwordHash == old(passwordHash)
        invariant id == old(id) && token == old(token) && tokenExpiration == old(tokenExpiration)
      {
        match UserFields[i]
        case UsernameField =>
          if data.username.Some? {
            username := data.username;
          }
        case EmailField =>
          if data.email.Some? {
            email := data.email;
          }
      }
      if newUser && data.password.Some? {
        passwordHash := Some(hash);
      }
    }

    /** The test of `get_token`: a truthy token that expires more than a minute after `now`. */
    predicate HasFreshToken(now: int)
      reads this
      requires Valid()
    {
      token.Some? && token.value != "" && tokenExpiration.value > now + TokenMargin
    }

    /** `get_token(expires_in)` at time `now`. `newToken` stands for the random token
        `base64(urandom(24))`. A token with more than a minute left is returned
        unchanged; otherwise `newToken` is issued and expires `expiresIn` seconds
        after `now`. */
    method GetToken(now: int, newToken: string, expiresIn: int := DefaultExpiresIn) returns (t: string)
      requires Valid()
      modifies this
      ensures Valid()
      ensures old(HasFreshToken(now)) ==> t == old(token).value && token == old(token) &&
                                          tokenExpiration == old(tokenExpiration)
      ensures !old(HasFreshToken(now)) ==> t == newToken && token == Some(newToken) &&
                                           tokenExpiration == Some(now + expiresIn)
      ensures id == old(id) && username == old(username) && email == old(email)
      ensures passwordHash == old(passwordHash)
    {
      if HasFreshToken(now) {
        return token.value;
      }
      token := Some(newToken);
      tokenExpiration := Some(now + expiresIn);
      t := newToken;
    }

    /** `revoke_token` at time `now`: the token stays, but it expired a second ago. */
    method RevokeToken(now: int)
      requires Valid()
      modifies this
      ensures Valid()
      ensures tokenExpiration == Some(now - 1)
      ensures token == old(token) && id == old(id) && username == old(username)
      ensures email == old(email) && passwordHash == old(passwordHash)
    {
      tokenExpiration := Some(now - 1);
    }

    /** `User.to_dict(include_email)`. `lastSeen`, `selfUrl` and `avatarUrl` stand for
        the formatted `last_seen`, `url_for('api.get_user', ...)` and `avatar(128)`. */
    function ToDict(includeEmail: bool, lastSeen: string, selfUrl: string, avatarUrl: string): (r: Dict)
      reads this
      ensures UniqueKeys(r)
      ensures HasKey(r, "email") <==> includeEmail
      ensures includeEmail ==> Get(r, "email") == Some(StrOrNull(email))
      ensures Get(r, "id") == Some(Num(id)) && Get(r, "username") == Some(StrOrNull(username))
      ensures !HasKey(r, "password_hash") && !HasKey(r, "token")
    {
      UserKeysDistinct();
      var keys := if includeEmail then UserKeys + ["email"] else UserKeys;
      var vals := [Num(id), StrOrNull(username), Str(lastSeen),
                   Object([Entry("self", Str(selfUrl)), Entry("avatar", Str(avatarUrl))])];
      var vals := if includeEmail then vals + [StrOrNull(email)] else vals;
      var r := FromPairs(keys, vals);
      GetPair(keys, vals, 0, "id");
      GetPair(keys, vals, 1, "username");
      if includeEmail then GetPair(keys, vals, 4, "email"); r else r
    }
  }

  /** `User.query.filter_by(token=token).first()`: the first user holding `token`. */
  function FirstHolder(users: seq<User>, t: string): (r: Option<User>)
    reads users
    ensures r.Some? ==> r.value in users && r.value.token == Some(t)
    ensures r.None? <==> forall i :: 0 <= i < |users| ==> users[i].token != Some(t)
    ensures r.Some? ==> exists i :: 0 <= i < |users| && users[i] == r.value &&
                                   forall j :: 0 <= j < i ==> users[j].token != Some(t)
  {
    if users == [] then None
    else if users[0].token == Some(t) then Some(users[0])
    else
      var r := FirstHolder(users[1..], t);
      assert forall i :: 0 <= i < |users| - 1 ==> users[1..][i] == users[i + 1];
      r
  }

  /** No two users hold the same token (the column is unique). */
  predicate UniqueTokens(users: seq<User>)
    reads users
  {
    forall i, j :: 0 <= i < |users| && 0 <= j < |users| ==>
                   users[i].token.Some? && users[i].token == users[j].token ==> i == j
  }

  /** `check_token(token)` at time `now`: the holder of `token`, unless there is none
      or its token expired before `now`. */
  function CheckToken(users: seq<User>, t: string, now: int): (r: Option<User>)
    reads users
    requires forall i :: 0 <= i < |users| ==> users[i].Valid()
    ensures r.Some? ==> r.value in users && r.value.token == Some(t)
    ensures r.Some? ==> r.value.tokenExpiration.Some? && r.value.tokenExpiration.value >= now
    ensures (forall i :: 0 <= i < |users| ==> users[i].token != Some(t)) ==> r.None?
  {
    match FirstHolder(users, t)
    case None => None
    case Some(u) =>
      assert u.Valid();
      if u.tokenExpiration.value < now then None else Some(u)
  }

  /** With unique tokens, `check_token` accepts the holder of a token exactly while
      its expiration is not before `now`. */
  lemma CheckTokenHolder(users: seq<User>, u: User, t: string, now: int)
    requires forall i :: 0 <= i < |users| ==> users[i].Valid()
    requires UniqueTokens(users)
    requires u in users && u.token == Some(t)
    ensures CheckToken(users, t, now) == if u.tokenExpiration.value < now then None else Some(u)
  {
    var holder := FirstHolder(users, t);
    var i :| 0 <= i < |users| && users[i] == holder.value;
    var k :| 0 <= k < |users| && users[k] == u;
    assert i == k;
  }

  /** Once `revoke_token` at time `now` has set the expiration to `now - 1`,
      `check_token` at any later time never returns that user, and with unique
      tokens it returns nobody for the user's token. */
  lemma RevokedTokenRejected(users: seq<User>, u: User, now: int, later: int)
    requires forall i :: 0 <= i < |users| ==> users[i].Valid()
    requires u.tokenExpiration == Some(now - 1) && later >= now
    ensures forall t :: CheckToken(users, t, later) != Some(u)
    ensures UniqueTokens(users) && u in users && u.token.Some? ==>
              CheckToken(users, u.token.value, later).None?
  {
    if UniqueTokens(users) && u in users && u.token.Some? {
      CheckTokenHolder(users, u, u.token.value, later);
    }
  }
}
