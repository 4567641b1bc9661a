# Personal-finance backend: ledger rules, record mapping and key casing

This project is a Dafny model of the core of a Flask personal-finance backend. The model covers three parts:

- **The ledger endpoints** (`app/api/accounts.py`, `app/api/transactions.py`, `app/api/transfers.py`). These cover creating and patching accounts, incomes and expenses (each with its balance change), and transfers between accounts.
  - `Ledger` gives each endpoint as a function from the three tables (accounts, transactions and transfers, each id → record) to the tables after the request, or to the failure it answers with: 400, 404, or an exception turned into 500.
  - `Api.Store` holds the tables as fields. Its methods run each endpoint step by step as the source does: check the payload, stage the balance assignments, patch or build the row with the `from_dict` loop, and write everything at the commit.
  - Each method is proved to produce exactly the state and the answer that the `Ledger` function specifies, and to keep the table invariant `Ledger.Consistent`.
- **The records** (`app/models.py`). This part covers:
  - the `from_dict` whitelist loops and the `to_dict` dicts of `Account`, `Transfer`, `Transaction` and `User`;
  - the column defaults;
  - the token lifecycle of `User`: `get_token`, `revoke_token` and `check_token`.
- **The key casing of the resource layer** (`app/resources.py`): `camel_to_snake` (two regex substitutions, then `lower()`, with case mapping on ASCII letters only), `snake_to_camel`, the recursive `transform_key`, and the json → form → args merge of `payload`.

Money is integer cents. Times are integer seconds. A request payload is one `Option` per whitelisted key, where `Some` means the key is in the dict. A Python `dict` is an insertion-ordered list of entries (`Json.Dict`).

Where this model departs from an idealised ledger, it follows the code:

- Turning a paid transaction back to unpaid reverses the value *stored* in the transaction, read before `from_dict` runs (`app/api/transactions.py:97,99`). It is not the payload's value.
- Going from unpaid to paid applies the payload's `value`.
- Both directions take the account from the payload's `account_id` and the sign from the payload's `transaction_type`, not from the stored record.
- Changing the `value` of a transaction that stays paid changes no balance.
- `update_account` can overwrite `balance` directly.
- No endpoint checks that an amount is positive, that a transfer's two accounts differ, or what `transaction_type` an income or an expense carries.

## Model

| member | source | states |
|---|---|---|
| KeyCase.CamelToSnake | app/resources.py:44-46 | the result of `camel_to_snake` never holds an upper-case letter |
| KeyCase.WordBreaksNoUpper | app/resources.py:45 | the first substitution leaves a string without upper-case letters unchanged |
| KeyCase.CaseBreaksNoUpper | app/resources.py:46 | the second substitution leaves a string without upper-case letters unchanged |
| KeyCase.CamelToSnakeNoUpper | app/resources.py:45-46 | a key without upper-case letters is returned unchanged |
| KeyCase.CamelToSnakeLeadingCapital | app/resources.py:45-46 | a key whose only capital is its first letter is just lower-cased |
| KeyCase.CamelToSnakeCaps | app/resources.py:45-46 | a lower-case word followed by capitalised words becomes the words joined by `_` |
| KeyCase.AccountIdToSnake | app/resources.py:45-46 | `accountId` becomes `account_id` |
| KeyCase.Split | app/resources.py:52 | `split('_')` gives at least one part and no part holds `_` |
| KeyCase.JoinSplit | app/resources.py:52 | joining the parts of `split('_')` with `_` gives back the string |
| KeyCase.SplitJoin | app/resources.py:52 | splitting a `_`-join of parts without `_` gives back the parts |
| KeyCase.SnakeToCamel | app/resources.py:50-57 | the loop over the parts, then `''.join`, returns `Camelized(name)` |
| KeyCase.CamelizedParts | app/resources.py:50-57 | the first part comes out lower-cased and every later part capitalised |
| KeyCase.CamelizedNoUnderscore | app/resources.py:50-57 | the result of `snake_to_camel` holds no `_` |
| KeyCase.SnakeCamelRoundTrip | app/resources.py:44-57 | `camel_to_snake(snake_to_camel(k)) == k` when k is lower-case words joined by `_`, with a non-empty first word and later words of at least two letters |
| KeyCase.RoundTripKeyOfParts | app/resources.py:44-57 | any such words joined by `_` make a key the round trip holds for |
| KeyCase.LeadingUnderscoreLost | app/resources.py:44-57 | a leading `_` does not survive the round trip: `_k` comes back as `k` |
| Resources.TransformKey | app/resources.py:60-67 | dicts stay dicts, lists stay lists of the same length, and any other value is returned unchanged |
| Resources.RenameEntries | app/resources.py:62 | the dict comprehension never has more entries than its source |
| Resources.RenameEntriesUnique | app/resources.py:62 | the comprehension's keys are unique |
| Resources.RenameEntriesKeys | app/resources.py:62 | its keys are exactly the renamed keys of the source |
| Resources.RenameEntriesExact | app/resources.py:62 | when renaming makes no two keys collide, entry i is key i renamed with value i transformed |
| Resources.TransformItems | app/resources.py:63-66 | in a list, dict elements are transformed and every other element is kept as it is |
| Resources.TransformList | app/resources.py:63-66 | the in-place loop over the list leaves the array equal to `TransformItems` of its old contents |
| Resources.CamelInjective | app/resources.py:50-57 | `snake_to_camel` makes no two round-trip keys of a dict collide |
| Resources.SnakeInjective | app/resources.py:44-46 | `camel_to_snake` makes no two keys collide in a dict `snake_to_camel` produced |
| Resources.EntriesRoundTrip | app/resources.py:62 | renaming a dict's keys to camelCase and back gives back the dict |
| Resources.ResponseRequestRoundTrip | app/resources.py:103-104 | a value whose keys are all round-trip keys comes back unchanged after `response` then the request-side transform |
| Resources.SnakeNoUpper | app/resources.py:74 | the snake-cased dict has unique keys, none of them with an upper-case letter |
| Resources.MergeStep | app/resources.py:73-78 | one `if source: payload.update(...)` step: a key of the snake-cased source takes its value, and every other key keeps what it had |
| Resources.Payload | app/resources.py:70-81 | every key of the result takes its value from args if there, else from form, else from json; the keys are unique and free of capitals |
| Models.AccountFromDict | app/models.py:148-153 | the loop over the five whitelisted fields, with `user_id` set only when truthy, is `PatchAccount` |
| Models.PatchAccountIdempotent | app/models.py:148-153 | the same payload applied twice changes nothing the second time, and an empty payload with no user id changes nothing |
| Models.NewAccount | app/models.py:133-135 | a new account has balance 0, `sum_on_dash` true, no user, and the creation time |
| Models.AccountToDict | app/models.py:137-146 | exactly the keys id, user_id, name, account_type, balance and sum_on_dash, each holding the record's value |
| Models.TransferFromDict | app/models.py:189-192 | the loop over the six whitelisted fields is `PatchTransfer`, which never sets a user |
| Models.PatchTransferIdempotent | app/models.py:189-192 | the same payload applied twice changes nothing the second time, and an empty payload changes nothing |
| Models.NewTransfer | app/models.py:176 | a new transfer carries the insert time as its date and no observation |
| Models.TransferToDict | app/models.py:178-187 | exactly the six keys of `to_dict`; id, accounts, amount and observation hold the record's values |
| Models.TransactionFromDict | app/models.py:222-227 | the loop over the nine whitelisted fields, with `user_id` set only when truthy, is `PatchTransaction` |
| Models.PatchTransactionIdempotent | app/models.py:222-227 | the same payload applied twice changes nothing the second time, and an empty payload with no user id changes nothing |
| Models.NewTransaction | app/models.py:204-206 | a new transaction is unpaid, with no value, account or user, dated at the insert |
| Models.TransactionToDict | app/models.py:208-220 | exactly the nine keys of `to_dict`, with no `user_id`; value and paid hold the record's values |
| Models.User.constructor | app/models.py:45-51 | a new user has every nullable column empty |
| Models.User.FromDict | app/models.py:96-101 | username and email are copied when present; the password hash is set only for a new user whose payload has a password; token fields are untouched |
| Models.User.GetToken | app/models.py:103-110 | a truthy token with more than 60 seconds left is returned unchanged; otherwise the new token is stored and returned, expiring `expiresIn` seconds after now, 3600 unless the caller gives another |
| Models.User.RevokeToken | app/models.py:112-113 | the expiration becomes one second before now, and nothing else changes |
| Models.User.ToDict | app/models.py:82-94 | unique keys; `email` is present exactly when asked for; id and username hold the user's values; no password hash and no token |
| Models.FirstHolder | app/models.py:117 | the first user holding the token, or None exactly when nobody holds it |
| Models.CheckToken | app/models.py:115-120 | any user returned holds the token and has not expired; when nobody holds the token, nobody is returned |
| Models.CheckTokenHolder | app/models.py:115-120 | with unique tokens, `check_token` returns the holder exactly while its expiration is not before now |
| Models.RevokedTokenRejected | app/models.py:112-120 | after a revoke at time t, `check_token` at any time from t on never returns that user |
| Ledger.Credit | app/api/transactions.py:16 | the column expression `Account.balance + x` changes that account's balance by exactly x and nothing else |
| Ledger.SumCredit | app/api/transactions.py:16 | crediting one account by x raises the sum of all balances by exactly x |
| Ledger.CreateAccount | app/api/accounts.py:9-23 | a missing or empty name, or an existing account of that user with the same name and type, gives 400; a missing `account_type` gives 500; a named, typed, new request succeeds exactly when its key is free (a taken key gives 500); on success exactly one account is added with the listed fields, no other table changes, and name uniqueness and table consistency are kept |
| Ledger.UniqueAfterInsert | app/api/accounts.py:14-19 | inserting an account that passed the duplicate filter keeps `(user_id, name, account_type)` unique |
| Ledger.UpdateAccount | app/api/accounts.py:36-42 | a missing account gives 404; an existing account is patched exactly when its new key is its own or free (else 500); the patch is `from_dict`, balance included, user and creation time kept, and every other account untouched |
| Ledger.CreationMove | app/api/transactions.py:13-16 | no balance change unless `paid` is truthy; then a missing account_id or value gives 500, and with both present the change is +value for an income and −value for an expense |
| Ledger.UpdateMove | app/api/transactions.py:84-99 | no change when `paid` is absent, or equal to the stored state with an account_id; a flip with account_id and type (and value, when going to paid) always gives a change: unpaid to paid −value for an EXPENSE and +value otherwise, paid to unpaid +stored value for an EXPENSE and −stored value otherwise; each missing key gives 500 |
| Ledger.ApplyMove | app/api/transactions.py:87-99 | a change to an account that does not exist fails; otherwise it is a `Credit` of that account |
| Ledger.CreateTransaction | app/api/transactions.py:9-45 | an income (an expense) with truthy `paid` raises (lowers) the balance of the named account by exactly `value`, keeps every other field of that account and every other account as they were, and fails with 500 when that account, `account_id` or `value` is missing; without it, no balance changes; a request whose balance change applies succeeds exactly when its key is free; on success exactly one transaction is stored, patched from the payload with the URL's user |
| Ledger.UpdateTransaction | app/api/transactions.py:79-103 | a missing transaction gives 404; a failing `UpdateMove` or a change to a missing account gives that failure; otherwise the update succeeds exactly when the new key is its own or free; on success the balances are exactly `ApplyMove` of `UpdateMove`, the stored record is `from_dict`-patched and moved to its new key, the table's keys are the old ones less the old key plus the new one, every other transaction is untouched and consistency is kept |
| Ledger.MoveAmount | app/api/transfers.py:19-20 | the destination gains `amount`; when the accounts differ, the source loses `amount`; every other account is untouched |
| Ledger.MoveConserves | app/api/transfers.py:19-20 | between two different accounts, the sum of all balances is unchanged |
| Ledger.CreateTransfer | app/api/transfers.py:10-29 | a missing account id gives 400; a missing account or amount gives 500; a request naming two existing accounts and an amount succeeds exactly when its key is free; on success the balances move as in `MoveAmount` with the sum conserved, and exactly one transfer is stored with the payload's accounts and amount |
| Ledger.GetAccount | app/api/accounts.py:25-27 | found exactly when the account exists, answering its `to_dict`, else 404 |
| Ledger.GetTransaction | app/api/transactions.py:74-76 | found exactly when the transaction exists, answering its `to_dict`, else 404 |
| Ledger.GetTransfer | app/api/transfers.py:32-34 | found exactly when the transfer exists, answering its `to_dict`, else 404 |
| Ledger.PerPage | app/api/accounts.py:32 | the page size is the minimum of the requested size (or the default) and 100 |
| Ledger.DefaultPageSizes | app/api/transactions.py:51-68 | without `per_page`, the transaction lists serve 50 rows a page and the account and transfer lists 10 |
| Ledger.UserAccounts | app/api/accounts.py:33 | exactly the accounts whose user is the given one |
| Ledger.UserTransactions | app/api/transactions.py:48-71 | exactly the user's transactions, restricted to one `transaction_type` for the income and expense lists |
| Ledger.AccountTransfers | app/api/transfers.py:43 | exactly the transfers whose source is the given account |
| Ledger.CreatedAccountListed | app/api/accounts.py:9-34 | a created account is found with the payload's name and is listed for the URL's user only (for nobody when that id is 0) |
| Ledger.CreatedTransactionListed | app/api/transactions.py:9-71 | a created income or expense is listed for the URL's user, among the incomes or expenses only through the payload's `transaction_type` |
| Ledger.CreatedTransferListed | app/api/transfers.py:10-44 | a created transfer is listed among the transfers of its source account and of no other |
| Ledger.WrittenAccountFetched | app/api/accounts.py:9-42 | after a successful create or update, `get_account` of the written key answers the same `to_dict` the writing endpoint answered |
| Ledger.WrittenTransactionFetched | app/api/transactions.py:9-103 | after a successful create or update, `get_transaction` of the written key answers the same `to_dict` the writing endpoint answered |
| Ledger.WrittenTransferFetched | app/api/transfers.py:10-34 | after a successful create, `get_transfer` of the new key answers the same `to_dict` `create_transfer` answered |
| Ledger.PayThenUnpay | app/api/transactions.py:89-99 | marking an unpaid transaction paid, then unpaid again with the same account and type, restores every balance |
| Api.Store.constructor | app/models.py:127-135 | an empty database, each autoincrement starting at 1 |
| Api.Store.CreateAccount | app/api/accounts.py:9-23 | the endpoint run step by step leaves exactly the tables `Ledger.CreateAccount` gives, or unchanged tables on failure, and answers with the new account's `to_dict` |
| Api.Store.UpdateAccount | app/api/accounts.py:36-42 | likewise for `Ledger.UpdateAccount`, answering with the patched account's `to_dict` |
| Api.Store.CreateTransaction | app/api/transactions.py:9-45 | likewise for `Ledger.CreateTransaction`, for incomes and expenses |
| Api.Store.StageUpdateMove | app/api/transactions.py:84-99 | the staged balance assignments of `update_transaction` are those of `Ledger.UpdateMove` and `Ledger.ApplyMove` |
| Api.Store.UpdateTransaction | app/api/transactions.py:79-103 | likewise for `Ledger.UpdateTransaction`, answering with the patched transaction's `to_dict` |
| Api.Store.CreateTransfer | app/api/transfers.py:10-29 | likewise for `Ledger.CreateTransfer`, answering with the new transfer's `to_dict` |

## Left out

- HTTP and Flask plumbing is not modelled: routing, `jsonify`, status codes and `Location` headers, `url_for` links, the `bad_request` messages, the login decorators and the `User`/`Login`/`Me`/`Healthcheck` resources. The wrong endpoint name in the `url_for` of `get_user_expenses` affects only a link.
- Pagination is not modelled. `to_collection_dict` (`paginate`, `page`, page links) is left out; only the page-size clamp and the filters are modelled.
- The `print` calls in `create_income` and `get_account_transfers` are output only.
- `request.files` in `payload` is not modelled. File streams have no counterpart in the JSON model.
- JSON `null` and ill-typed payload values are not modelled. `paid` is modelled by its truthiness. An absent or empty body (`get_json() or {}`) is a payload with every key absent. A `per_page` that is not an integer falls back to the default, which is modelled as absent.
- Money is unbounded integer cents. The `Numeric(12,2)` range and rounding are not checked by the code and not modelled.
- Dates are integer seconds, given to each operation as `now`. `isoformat()` is not modelled, and `to_dict` emits the integer.
- The SQL evaluation of `Account.balance + x` is modelled as the stored balance plus x. Flush timing and the ORM's single object for a transfer whose two accounts are the same are not modelled. For that case the model takes the second assignment, so the account gains `amount`.
- Ledger.CreateTransfer: states conservation of the sum and the source's debit only when the two accounts differ. The same holds for Ledger.MoveAmount.
- Foreign keys: `app/models.py:131-132`, `172-173` and `198-200` declare `account_type`, `user_id`, `from_account`, `to_account`, `account_id` and `category_id` as foreign keys. Whether the database engine rejects a dangling one at the commit depends on the engine and its settings, which are not part of this model. The model does not enforce them, and stores a dangling id as an engine without enforcement would.
- Autoincrement is a per-table counter kept above every key written. A payload `id` is honoured, and a key already taken fails at the commit.
- Each record is a value in its table's map. Changing an account attribute is modelled as replacing the map entry.
- Password hashing (`generate_password_hash`), the random token (`os.urandom`) and the gravatar URL are parameters. The JWT reset-password tokens, `set_password`/`check_password` and `load_user` are not part of this model, because they are calls into foreign libraries.
- `check_token` looks up the first holder of a token in a list of users, which stands for the `user` table.
- Concurrency is not modelled: the code has no locking and no isolation.
- `app/domain.py`, `AccountResource.get`, route registration and the migration are not part of this model.
- KeyCase.CamelToSnake: case mapping is on ASCII letters only. `lower()` on a non-ASCII capital is not modelled: Python turns `Émile` into `émile`; the model keeps `Émile`.
- KeyCase.CamelToSnakeNoUpper: "no upper-case letter" means no ASCII capital. It holds of the program only for keys without non-ASCII capitals, which `lower()` would change.
- KeyCase.CamelToSnakeLeadingCapital: holds of the program only when the leading capital is an ASCII letter; a non-ASCII one is lowered by `lower()` and kept by the model.
- KeyCase.CamelToSnakeCaps: covers a word of lower-case ASCII letters followed by capitalised words of at least two letters. Words with digits handled by the `[a-z0-9]` branch of the second substitution (`item2Id` to `item2_id`) and one-letter capitalised words (`aB` to `a_b`) are not stated.
- KeyCase.SnakeToCamel: `lower()` and `capitalize()` are modelled on ASCII letters only; non-ASCII letters are kept as they are (Python turns `é_école` into `éÉcole`, the model into `éécole`).
- KeyCase.CamelizedParts: the first part is lowered and the later parts capitalised in the ASCII sense only, as for KeyCase.SnakeToCamel.
- Resources.SnakeNoUpper: "no upper-case letter" means no ASCII capital; non-ASCII capitals, which `lower()` removes, are not modelled.
- Resources.Payload: the "free of capitals" part of the contract means no ASCII capital, as for Resources.SnakeNoUpper.
- Models.TransactionToDict: states the key list and the values of `value` and `paid` only. The other entries are built the same way but are not listed in the contract.
- Models.TransferToDict: does not state the value of `transfer_date`.
- Models.User.ToDict: does not state the values of `last_seen` and `_links`.
- Resources.TransformKey: states only the shape of the result. The content of a dict is stated by the `RenameEntries` lemmas, and it is exact when no two keys collide after renaming.
- Ledger.UpdateTransaction: requires `Ledger.Consistent`, so that a paid transaction has a stored value to reverse. Every endpoint keeps this invariant.
