# Inventory management back end, modelled in Dafny

This project models the core of a small inventory-management back end. The
original is written in Python and stores its data in Google Sheets, and later
in Supabase. The model covers these parts:

- **Accounts** (`auth_manager.py`, over the user table of `supabase_store.py`).
  This covers the role → permission table, generating `USRnnn` codes, creating
  users (an empty table needs no Admin), logging in, and Admin updates,
  deletions and password resets. Users change their own passwords. Every
  successful operation writes one activity-log row.
- **User table** (`supabase_store.py`). This covers renaming database columns
  to the legacy sheet headers, translating user updates back to columns, the
  rule "36 characters means a UUID" that picks the id column, the insert row
  of `add_user`, and how `log_activity` resolves the actor.
- **Worksheet store** (`data_store.py`). Rows are laid out in header order. A
  stock update rewrites two cells of the first row that holds the item id.
- **Inventory manager** (`inventory_manager.py`). This covers `ITMnnn` codes,
  search, the low-stock list, and the permission-gated add and restock.
- **Sale endpoint** (`server.py`, `record_sale`). It checks stock, deducts it
  and answers with an HTTP status.
- **Report generator** (`generate_report.py`). This covers the low-stock
  alert, the integer parts of the daily summary, and the unit total of the
  value report.

State that the source updates in place is a `class` whose methods carry
`modifies` clauses: `Supabase.UserStore`, `Sheets.DataStore`,
`Auth.AuthManager` and `Inventory.InventoryManager`. `Reports.ReportGenerator`
is a class too, over the two record lists it is built from, but its methods
only read. Each method is proved against a specification function or a
decision datatype, for example `Inventory.Restocked`, `Sales.Sale`,
`Accounts.LoginDecision`, `Accounts.DeleteDecision` and
`Reports.DailySummaryOf`. The lemmas then prove what the source promises about
those functions. The loops of the methods modelled here are `while`/`for`
loops with invariants. One loop is an exception: the key-renaming loop of
`_to_frontend_format` (supabase_store.py:65-70) builds a fresh dictionary and
changes nothing else, so it is the recursive function `Supabase.RenameKeys`.

These inputs from the outside world are method parameters:

- the bcrypt salt;
- the current date and time;
- the UUID and user code that the database assigns to an inserted user;
- the profit margin `add_new_item` computes with floating point.

The model departs from the code as written in three places. Two are the
corrections listed under "## Findings":

- `Auth.AuthManager.DeleteUser` follows the corrected guard
  `Accounts.DeleteDecision`, not the guard at auth_manager.py:144.
- `Reports.ReportGenerator.GetDailySales` follows the corrected
  `Reports.DailySummaryOf`, not `int(s.get('Quantity_Sold', 0))` at
  generate_report.py:57.

The third is the stores. `data_store.py` defines no `log_activity` and no user
methods. Yet `inventory_manager.py:106` and `:148` call
`self.db.log_activity` on the worksheet store, after their writes. Each
account operation of `AuthManager` (creating, logging in, updating, deleting,
resetting and changing passwords, generating codes) calls user methods on the
`DataStore` it builds at `auth_manager.py:26`. As written, those calls raise
AttributeError. `check_permission` and the hashing helpers never touch the
store and work as written.
The model gives the worksheet store an activity log that records the actor id
as given. It runs the account operations over the Supabase user table, which
has the methods they call.

## Model

| member | source | states |
|---|---|---|
| Text.ZeroPad3RoundTrip | auth_manager.py:39-43 | `f"{n:03d}"` has at least three characters, and parsing it back with `int()` gives `n` |
| Text.IntToStringRoundTrip | data_store.py:53 | writing an integer into a cell as text and parsing the cell back gives the same integer, negative ones included |
| Text.EmptyIsEverywhere | inventory_manager.py:44-47 | the empty query is contained in every field |
| Codes.MaxSuffixIsMaximum | auth_manager.py:34-42 | the running maximum bounds every parseable suffix under the prefix, and is 0 or the suffix of some id |
| Codes.NextCodeIsFresh | auth_manager.py:43 | the next code carries the number max + 1 and is not among the existing ids |
| Codes.NextCode | auth_manager.py:28-43 | the loop returns prefix + the zero-padded max + 1, which is not an existing id; an empty store gets "001" |
| Users.VerifyHashed | auth_manager.py:45-51 | a hash verifies exactly the password it was made from, whatever the salt |
| Permissions.PermissionTable | auth_manager.py:102-108 | Admin holds exactly the six permissions and Staff exactly four; no user, no role or an unknown role holds none |
| Permissions.AdminOnlyPermissions | auth_manager.py:20-23 | delete_item and manage_users imply the Admin role |
| Supabase.RenameKeysKeys | supabase_store.py:65-71 | the renamed record's keys are exactly the renamed input keys |
| Supabase.RenameKeysValue | supabase_store.py:65-71 | an item that no later item overwrites keeps its value under its new name |
| Supabase.RenameKeysContents | supabase_store.py:65-71 | the keys are exactly the renamed keys, and each key holds the value last written under it |
| Supabase.FrontendKeepsEveryValue | supabase_store.py:22-71 | when renamed keys do not collide, every value survives under its legacy header and no other key appears |
| Supabase.UserRowKeepsEveryValue | supabase_store.py:92-96 | a `users` row (distinct columns) read through the renaming keeps every column's value under its legacy header, and gains no other key |
| Supabase.InventoryRecordSupplier | supabase_store.py:81-88 | every inventory record has Supplier_Name: the joined supplier's name, or "Unknown" when there is none |
| Supabase.DbUserUpdatesKeys | supabase_store.py:231-237 | the column dictionary holds exactly the columns of the five translatable fields present, and drops every other key |
| Supabase.DbUserUpdatesColumn | supabase_store.py:231-237 | a field's column is present iff the field is present, and then carries the field's value unchanged |
| Supabase.UserInsertIgnores | supabase_store.py:98-110 | the inserted row ignores the code, uuid, status, creator and dates given, and its status is always "Active" |
| Supabase.FirstWithCode | supabase_store.py:142-144 | the row found has the code; None means no row has it |
| Supabase.FindById | supabase_store.py:211-226 | the row found is in the table and selected by the id; None means the id selects no row |
| Supabase.ResolveActorCases | supabase_store.py:134-144 | a 36-character id is logged as given; a USR code resolves to the uuid of a row with that code, or to null when there is no such row; any other id gives null |
| Supabase.UserStore.AddUser | supabase_store.py:98-110 | exactly one row is appended: the insert row plus the database-assigned ids; the log is unchanged |
| Supabase.UserStore.UpdateUserStatus | supabase_store.py:112-119 | exactly the rows the id selects get the new status; the others and the log are unchanged |
| Supabase.UserStore.UpdateLastLogin | supabase_store.py:121-128 | exactly the rows the id selects get the login time |
| Supabase.UserStore.LogActivity | supabase_store.py:130-150 | one row is appended, with the actor resolved against the current table; the users are unchanged |
| Supabase.UserStore.UpdateUser | supabase_store.py:228-242 | exactly the selected rows get the translated columns; the others are unchanged |
| Supabase.UserStore.DeleteUser | supabase_store.py:244-250 | the selected rows are removed; the rest keep their order |
| Supabase.UserStore.UpdateUserPassword | supabase_store.py:252-258 | exactly the selected rows get the new hash |
| Accounts.AppendKeepsNamesUnique | auth_manager.py:60-70 | appending a row keeps usernames unique iff they were unique and the new name, ignoring case, is not taken |
| Auth.CreatedUserCanLogIn | auth_manager.py:53-100 | the row create_user stores for a fresh name logs in under that name, in any casing, with the password, and refuses every other password |
| Accounts.FirstNamed | auth_manager.py:89-90 | the first row whose username matches ignoring case; None iff no row matches |
| Accounts.RegisteredUserCanLogIn | auth_manager.py:86-100 | an active user appended under a fresh name logs in with their password under any casing; every other password is refused |
| Accounts.UniqueNameIsFirst | auth_manager.py:60-63 | with unique names, the row holding a name is the one every login under it reaches |
| Accounts.DistinctRowsNotBothSelected | supabase_store.py:239-242 | with unique ids, one id never selects two rows |
| Accounts.CodeSelectsOne | supabase_store.py:255-258 | with unique ids, a user's own code (not 36 long) selects that row and no other |
| Accounts.RemovesExactlyOne | supabase_store.py:244-250 | with unique ids, deleting a selected row removes that row alone |
| Accounts.AdminCountWithout | auth_manager.py:149 | removing a row lowers the Admin count by one exactly when the row is an Admin |
| Accounts.SelfDeleteByUuid | auth_manager.py:143-145 | as written, an Admin who names themself by UUID passes the guard and their own row is deleted |
| Accounts.CallerSurvivesDeletion | auth_manager.py:138-162 | with the corrected guard, an allowed deletion never selects the caller's row, and the caller's row remains |
| Accounts.DeletionKeepsAnAdmin | auth_manager.py:147-159 | a deletion removes exactly one row, the target; the Admin count falls by one iff the target was an Admin; at least one Admin remains |
| Accounts.NewPasswordLogsIn | auth_manager.py:179-190 | after a change through one's own code, login under one's name accepts the new password only |
| Accounts.UpdateKeepsNamesUnique | auth_manager.py:115-133 | an update that passes the uniqueness check keeps usernames unique, given unique ids and no 36-character codes |
| Accounts.PatchChangesOnlyRequested | auth_manager.py:122-131 | only requested fields change; ids, hash, dates, creator and notes are kept |
| Auth.NextUserCodeIsFresh | auth_manager.py:28-43 | the generated user code is held by no existing user, and is USR001 on an empty table |
| Auth.TranslatedUpdateIsPatch | auth_manager.py:122-133 | the field dictionary, translated to columns and applied, changes exactly what the Admin's arguments ask for |
| Auth.AuthManager.GenerateUserId | auth_manager.py:28-43 | returns the next USR code, new to the table; USR001 when the table is empty |
| Auth.AuthManager.CreateUser | auth_manager.py:53-84 | non-Admin with users present: PermissionError, nothing written; name taken ignoring case: ValueError, nothing written; else exactly one row inserted and one CREATE_USER row logged by the creator (or by the new code at bootstrap); unique usernames stay unique |
| Auth.AuthManager.Authenticate | auth_manager.py:86-100 | follows LoginDecision: unknown name or wrong password gives None, nothing written; a locked first match raises, nothing written; success updates last login on the selected rows and logs LOGIN |
| Auth.AuthManager.UpdateUser | auth_manager.py:110-136 | non-Admin or a name clash with another code raises, nothing written; else the selected rows become Patch of themselves, UPDATE_USER is logged, and the row read back is returned |
| Auth.AuthManager.DeleteUser | auth_manager.py:138-162 | follows the corrected DeleteDecision: the four refusals write nothing; a deletion removes the selected rows and logs DELETE_USER with the target's name |
| Auth.AuthManager.ResetUserPassword | auth_manager.py:164-177 | non-Admin or unknown id raises, nothing written; else the selected rows get a hash of the new password, which is returned in clear, and RESET_PASSWORD is logged |
| Auth.AuthManager.ChangePassword | auth_manager.py:179-190 | a wrong current password (checked against the caller's record) raises, nothing written; else the rows of the caller's code get the new hash and CHANGE_PASSWORD is logged |
| Sheets.BuildRow | data_store.py:34-40 | the row has one cell per header: the record's value under it, or "" |
| Sheets.RecordOfKeys | data_store.py:30-32 | a record read from a row has exactly the headers as keys |
| Sheets.RecordOfValue | data_store.py:30-32 | a header's last occurrence gives the record its value |
| Sheets.RecordOfContents | data_store.py:30-32 | the keys are exactly the headers, and each holds the cell under its last occurrence |
| Sheets.RowRoundTrip | data_store.py:34-40 | reading back a laid-out row gives the record's value under every header and "" for headers it lacks; keys that are not headers are gone |
| Sheets.AppendedRowReadsBack | data_store.py:40 | appending a row adds exactly one record to what the sheet reads back |
| Sheets.IndexOf | data_store.py:50-51 | the first position holding the header; None iff the header is absent |
| Sheets.FindCell | data_store.py:46 | the first row and column holding the id, in row-major order; None iff no cell holds it |
| Sheets.SetCell | data_store.py:53-54 | the one cell is set; every other cell reads as before |
| Sheets.StockUpdateTouchesTwoCells | data_store.py:42-54 | a successful update changes only the quantity and date cells, under the first such headers, in the first row holding the id |
| Sheets.StockUpdateErrors | data_store.py:46-56 | an id in no cell gives "Item ID … not found.", before any missing column is reported; with both headers present and the id found, the update succeeds |
| Sheets.DataStore.AddInventoryItem | data_store.py:34-40 | appends exactly the laid-out row; the other sheets are unchanged |
| Sheets.DataStore.AddRestockOrder | data_store.py:58-63 | appends exactly the laid-out row to the restock sheet |
| Sheets.DataStore.UpdateInventoryStock | data_store.py:42-56 | the result and rows are those of UpdatedStock; on an error nothing is written |
| Sheets.DataStore.LogActivity | inventory_manager.py:106 | appends one entry with the actor id as given |
| Inventory.SearchFindsExactly | inventory_manager.py:37-49 | results are exactly the items where some searched field contains the query, ignoring case, in original order |
| Inventory.EmptyQueryFindsAll | inventory_manager.py:40-48 | the empty query returns every item |
| Inventory.LowStockFindsExactly | inventory_manager.py:51-68 | the result is exactly the low items, as a subsequence of the inventory |
| Inventory.FirstMissing | inventory_manager.py:91-97 | None iff every required field is present; otherwise a required field the record lacks |
| Inventory.NewItemFields | inventory_manager.py:89-103 | the new item has the generated id and the requested quantity; the minimum defaults to 5 and the SKU to "N/A"; it is added and restocked today |
| Inventory.AppendedRecordShows | data_store.py:30-40 | after an append, the sheet reads back one more record, showing the item's value under every header |
| Inventory.AddedItemReadsBack | inventory_manager.py:89-105 | the added item reads back with its id, quantity, minimum, SKU and dates under the sheet's headers |
| Inventory.FindItem | inventory_manager.py:115-119 | the first item whose id text equals the id; None iff no item has it |
| Inventory.FindTarget | inventory_manager.py:114-119 | the search loop returns the first item with the id, or None |
| Inventory.RestockOutcomes | inventory_manager.py:109-156 | refusal, unknown id, empty first match or failed update change nothing; None iff permitted and no non-empty first match. Success works on the first item with the id and starts from its parsed stock, or 0 when that does not parse; new = previous + quantity. It writes the new stock and today in the id's row only, and appends that item's restock order and the user's RESTOCK entry |
| Inventory.InventoryManager.SetUser | inventory_manager.py:12-13 | the current user becomes the given user |
| Inventory.InventoryManager.GenerateItemId | inventory_manager.py:15-32 | returns the next ITM code, new among the item ids; ITM001 on an empty sheet |
| Inventory.InventoryManager.SearchItems | inventory_manager.py:37-49 | the loop returns the filter of the items by the lowercased query |
| Inventory.InventoryManager.GetLowStockItems | inventory_manager.py:51-68 | the loop returns the filter of the items by the low-stock rule |
| Inventory.InventoryManager.AddNewItem | inventory_manager.py:70-107 | no permission: PermissionError; missing required field: KeyError for the first; otherwise appends the item's row, logs ADD_ITEM and returns the item, whose fresh id is new |
| Inventory.InventoryManager.RestockItem | inventory_manager.py:109-156 | result and new state equal Restocked over the state before |
| Inventory.InventoryManager.ApplyRestock | inventory_manager.py:125-156 | the update, order and log writes equal RestockApplied over the state before |
| Sales.SaleWritesRemaining | server.py:103-112 | a covered sale writes current - qty, never negative, into the stock cell, and the item's own last-restocked date or today |
| Sales.SaleOfOutcomes | server.py:92-125 | never 404; 400 iff the stock parses and is below qty, then nothing written; a sale reports name, qty and current - qty, which the stock cell now shows |
| Sales.SaleOutcomes | server.py:86-90 | 404 iff no item has the id or the first one is an empty record, then nothing written; otherwise the sale of the first such item |
| Sales.RecordSale | server.py:80-125 | no manager: 500; otherwise response and rows equal Sale over the state before, an empty first match answering 404; orders and log unchanged |
| Sales.SellFound | server.py:92-125 | response and rows equal SaleOf for the found item |
| Reports.LowEntriesExact | generate_report.py:90-98 | the entries are exactly the low items, in order, with parsed stock ≤ minimum |
| Reports.InsertByQtyPermutes | generate_report.py:101 | one insertion step adds exactly the entry |
| Reports.InsertByQtySorts | generate_report.py:101 | one insertion step keeps the list sorted by stock |
| Reports.InsertByQtyStable | generate_report.py:101 | one insertion step places the entry after those of equal stock |
| Reports.SortByQtyIsStableSort | generate_report.py:101 | the sort is sorted by stock, a permutation, and keeps input order among equal stocks |
| Reports.AlertLayout | generate_report.py:103-113 | title and rule, then "healthy" alone or one line per entry in order; red marker iff stock ≤ 2, yellow otherwise |
| Reports.BestOf | generate_report.py:62 | None iff the tally is empty; else the largest count, the earliest among ties |
| Reports.TallyDistinct | generate_report.py:53-60 | the tally lists each name once |
| Reports.TallyNames | generate_report.py:55-59 | the tally lists exactly the item names of the day's sales |
| Reports.TallyTotals | generate_report.py:55-59 | with the corrected quantity, each count is the total sold under that name |
| Reports.ItemsSoldIsTallySum | generate_report.py:46-59 | the corrected tally fails iff the items-sold sum does, with the same error; otherwise its counts sum to the items sold |
| Reports.AsWrittenFailsOnEmptyCell | generate_report.py:46-57 | if the sum succeeds, the as-written loop fails iff some sale has an empty quantity; otherwise it equals the corrected one |
| Reports.EmptyQuantityCrashesReport | generate_report.py:46-57 | one sale with an empty quantity: the sum gives 0, the as-written loop raises, the corrected one counts 0 |
| Reports.PaymentMethodsDistinct | generate_report.py:49 | each payment method is listed once |
| Reports.PaymentMethodListed | generate_report.py:49 | a method is listed iff it is non-empty and some sale of the day used it |
| Reports.PaymentCountsPositive | generate_report.py:49 | every listed method has a non-empty name and count ≥ 1 |
| Reports.BestSellerIsTop | generate_report.py:52-66 | no best seller iff no sales; else a name sold that day whose total is maximal and equals its count |
| Reports.DailySummaryMeaning | generate_report.py:36-86 | fails iff the items-sold sum fails, with its error; else the date, transaction count, items sold, best seller and payment counts |
| Reports.TotalUnitsAdditive | generate_report.py:124-134 | the unit total of two lists is the sum of their totals |
| Reports.TotalUnitsOfCountable | generate_report.py:124-134 | rows whose stock or prices do not parse add nothing |
| Reports.ReportGenerator.GetLowStockAlert | generate_report.py:88-115 | the report is the joined alert lines of the sorted low entries |
| Reports.ReportGenerator.CollectLow | generate_report.py:90-98 | the loop collects LowEntries of the inventory |
| Reports.ReportGenerator.LayOutAlert | generate_report.py:103-113 | the loop builds AlertLines of the sorted entries |
| Reports.ReportGenerator.GetDailySales | generate_report.py:36-86 | the result equals DailySummaryOf for the given date, or today |
| Reports.ReportGenerator.GetInventoryValue | generate_report.py:117-136 | the total units of the countable rows, and the number of products |

## Left out

- **External services.** The Google Sheets and Supabase clients, connection set-up and every network call are left out. Each store is in-memory state. So are the fallback re-insert in `log_activity` when an insert fails (supabase_store.py:151-158) and the `if not self.client` early returns.
- **Randomness and time.** The bcrypt hashing algorithm is replaced by a hash that records its salt and verifies exactly the password it was made from. Salts, dates, times and database-assigned ids are parameters.
- **Floating point.** Sale totals, revenue, per-method totals, inventory value and cost are not modelled, and neither is `format_currency`. The profit margin is a parameter. `float()` is modelled only as to whether it accepts a text: Selling_Price in the sale, and the prices in the value report.
- **Reports.ReportGenerator.GetDailySales.** It does not parse Total_Amount. The source raises ValueError on a malformed or empty amount (generate_report.py:44, 58 and 81); the model does not report that error.
- **Report text.** The daily summary and value report text is not built; only their integer and list parts are.
- Sales.RecordSale does not build the "total" field of the response. The model keeps the 500 that the source answers when Selling_Price does not parse.
- **Store mismatches.** `data_store.py` defines no `log_activity`. As written, `add_new_item` and `restock_item` write their rows and then raise AttributeError at inventory_manager.py:106 and :148. AuthManager builds a `DataStore` (auth_manager.py:26) but calls methods only `SupabaseStore` has, so each account operation raises AttributeError as written. `check_permission`, `hash_password` and `verify_password` do not use the store. The model does not reproduce these errors. It gives the worksheet store an activity log that keeps the actor id as given, and runs accounts over the Supabase user table.
- **Unique ids.** Distinct user rows having distinct uuids and user codes (`IdsUnique`) is a database constraint. The model assumes it and does not derive it: the uuid and the code are assigned by the database and are parameters here.
- **Supabase inventory methods.** The Supabase versions of the inventory methods (supabase_store.py:160-209) are not modelled. The inventory side runs over the worksheet store.
- **Value types.** Records hold text only. The numeric conversion gspread applies in `get_all_records` and the `None` that CSV reading gives for short rows are not modelled. Python reads `int(7)` and `int("7")` alike, so the numeric conversion matters only for non-integer cells.
- **Number and case parsing.** `int()` and `float()` accept no surrounding whitespace, underscores or non-ASCII digits in the model. `str.lower()` folds ASCII letters only.
- **Supabase.ApplyUserColumns.** The Password_Hash column of `update_user` is translated but not applied, because no caller sends it. Password changes go through `update_user_password`.
- **Malformed user records.** A user record whose Username or User_ID is missing (a KeyError or AttributeError in the source) cannot be represented: the model's users always have those fields. A missing role is representable.
- **Concurrency.** Two concurrent requests in `record_sale` (read, check, write) can race; this is not modelled.
- The no-op permission check in `get_low_stock_items` (inventory_manager.py:54-56) is not modelled.
- The HTTP endpoints other than `record_sale` (server.py:48-78) are not modelled: they are thin wrappers around the manager.
- `load_data` and the command-line `main` are not modelled. The generator is built from the two record lists.

## Findings

| source | as written | input that shows it | evidently intended | confidence | as-written member | corrected member |
|---|---|---|---|---|---|---|
| auth_manager.py:144 | the self-delete guard compares only the caller's user code with the id, but ids of 36 characters are looked up as UUIDs | Admins Alice (uuid `123e4567-e89b-12d3-a456-426614174000`, code USR001) and Bob; Alice deletes `123e4567-e89b-12d3-a456-426614174000` | "Cannot delete yourself." for any id that selects the caller's own row | medium, not executed | Accounts.SelfDeleteByUuid (over Accounts.DeleteDecisionAsWritten) | Accounts.CallerSurvivesDeletion (over Accounts.DeleteDecision, used by Auth.AuthManager.DeleteUser) |
| generate_report.py:57 | the best-seller loop reads `int(s.get('Quantity_Sold', 0))`, which raises on an empty cell that the items-sold sum at line 46 skips | one sale on 2024-01-15 of "Pen" whose Quantity_Sold cell is empty | an empty quantity counts as 0 sold, as in the items-sold sum | high, not executed | Reports.EmptyQuantityCrashesReport and Reports.AsWrittenFailsOnEmptyCell (over Reports.SoldQtyAsWritten) | Reports.BestSellerIsTop and Reports.ItemsSoldIsTallySum (over Reports.SoldQty, used by Reports.ReportGenerator.GetDailySales) |
