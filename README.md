# Shopping lists server: sessions and list/item tables

A model of the stateful core of a small Go web server for shared shopping
lists (`cmd/server/main.go`). Users unlock the application with a shared PIN,
keep several named lists, and add, tick off and delete items in each list.
Two parts of that file carry state, and both are modelled here.

- **Session store and gate** (`auth.dfy`, module `Auth`). The global
  `sessions` map takes a token to its expiry instant. `protected` admits a
  request when no PIN is configured. Otherwise it admits a request whose
  cookie names a stored, unexpired token, and slides that token's expiry to
  now + 24h. `loginHandler` stores a new token when the PIN matches.
  `logoutHandler` deletes the cookie's token. The transitions are pure
  functions (`Gate`, `Login`, `Logout`). The class `SessionGate` holds
  `appPIN` and the map, and one method per handler updates the map in place;
  each method is proved equal to its function. Time is an integer count of
  nanoseconds (the unit of Go's `time.Duration`), passed in as `now`. The
  token that `generateToken` would mint is passed in by the caller.
- **Lists and items** (`tables.dfy` and `store.dfy`, modules `Tables` and
  `Store`). The tables `lists(id, name)` and `items(id, list_id, name,
  completed)` are sequences of rows in rowid order. The class `Database`
  holds them, plus the two AUTOINCREMENT counters. The UPDATE, DELETE and
  lookup statements are functions in `Tables`, and each contract says which
  rows the statement changes, removes or finds. The INSERTs, the
  `SELECT COUNT(*)` checks and the first-list query are written inline in the
  `Database` methods. Each writing handler is a method of `Database` that
  runs its statements in order as one atomic step. A NULL `list_id` is
  `None`, distinct from 0: SQL's `=` never matches NULL, so only the
  bootstrap's `IS NULL OR list_id = 0` treats the two alike. The
  methods keep the object invariant `Valid()`: ids are unique and ascending,
  and no id exceeds its table's counter. Their contracts state the rules:
  - a blank name (all whitespace, `strings.TrimSpace` in `text.dfy`) is ignored;
  - a new row gets an id larger than every existing one;
  - the last list cannot be deleted;
  - deleting a list deletes its items;
  - unknown ids change nothing;
  - the bootstrap never creates a second default list.
- **Queries.** `GetDataForList` builds the page data with loops. It returns
  every list in id order. For a positive list id it returns that list's items,
  open items first and newest first within each group. `DisplayOrderIsUnique`
  shows that this order is the only one the query's `ORDER BY completed ASC,
  id DESC` allows. `IndexHandler` picks the list with the smallest id.

Behaviour of the code that the model keeps as written:
- There is no item memory or suggestion table, no item rename and no
  "forget" action in this file, so none is modelled.
- A blank list or item name is silently ignored; no error value is returned.
- A token whose expiry equals `now` is still admitted (`time.Now().After`).
- Deleting an unknown list id while two or more lists exist still deletes
  every item whose `list_id` is that id.
- With an empty `APP_PIN`, a login with an empty PIN still stores a token.

## Model

| member | source | states |
|---|---|---|
| Text.TrimSpace | cmd/server/main.go:239 | the trimmed name is empty exactly when every character is Unicode whitespace; it is a slice of the name with only whitespace cut on either side, and a non-empty result starts and ends with a non-space |
| Auth.Gate | cmd/server/main.go:105-131 | admitted iff no PIN is configured or the cookie's token is stored and `now` is not after its expiry; a refusal or a PIN-less admission leaves the map unchanged; an admission with a PIN keeps the same tokens, sets that token's expiry to now + 24h and leaves every other expiry alone |
| Auth.Login | cmd/server/main.go:140-161 | the right PIN returns the new token, adds it to the map with expiry now + 24h, keeps every other entry, and grows the map by exactly one when the token was fresh; a wrong PIN returns nothing and leaves the map unchanged |
| Auth.Logout | cmd/server/main.go:164-168 | with a cookie, exactly that token is removed and every other entry is kept; without one the map is unchanged |
| Auth.LogoutIdempotent | cmd/server/main.go:164-168 | logging out a second time changes nothing |
| Auth.LoggedOutTokenDenied | cmd/server/main.go:113-124 | with a PIN set, a cookie that was just logged out is refused |
| Auth.ActiveSessionNeverExpires | cmd/server/main.go:120-127 | a live token used again within 24h of each previous use is admitted on every request of the run, and ends with expiry 24h after the last request |
| Auth.IdleSessionExpires | cmd/server/main.go:120-124 | a token left unused for more than 24h after an admitted request is refused |
| Auth.SessionGate.constructor | cmd/server/main.go:23-27 | the configured PIN is stored and the session map starts empty |
| Auth.SessionGate.Protected | cmd/server/main.go:105-131 | the decision and the new map are exactly those of `Gate` on the old map |
| Auth.SessionGate.LoginHandler | cmd/server/main.go:140-161 | the returned cookie and the new map are exactly those of `Login` on the old map |
| Auth.SessionGate.LogoutHandler | cmd/server/main.go:164-175 | the new map is `Logout` of the old map |
| Tables.FindList | cmd/server/main.go:310 | finds a row of the table with that id, and finds none exactly when no row has it |
| Tables.RenameList | cmd/server/main.go:250 | same rows and ids in the same order; only rows with that id take the new name; an unknown id changes nothing |
| Tables.DeleteList | cmd/server/main.go:262 | keeps exactly the rows with another id; an id no row has changes nothing |
| Tables.DeleteListKeepsOrder | cmd/server/main.go:262 | the rows left by the delete are still in ascending id order |
| Tables.DeleteListRemovesOne | cmd/server/main.go:262 | with unique ids, the delete removes one row when the id is present and none otherwise |
| Tables.FindItem | cmd/server/main.go:282 | finds an item with that id, and finds none exactly when no item has it |
| Tables.AdoptOrphans | cmd/server/main.go:208 | same rows in the same order; items whose list_id is NULL or 0 move to the given list and every other column and row is unchanged |
| Tables.SetCompleted | cmd/server/main.go:283 | same rows in the same order; only the completed flag of rows with that id changes; an unknown id changes nothing |
| Tables.DeleteItems | cmd/server/main.go:293 | keeps exactly the items the WHERE clause does not select (one id here, one list at line 261); selecting nothing changes nothing |
| Tables.DeleteItemsKeepsOrder | cmd/server/main.go:293 | the items left by the delete are still in ascending id order |
| Tables.DeleteItemRemovesOne | cmd/server/main.go:293 | with unique ids, deleting by id removes one item when the id is present and none otherwise |
| Tables.NewestFirst | cmd/server/main.go:311 | exactly the list's items with the given completed flag |
| Tables.NewestFirstDescending | cmd/server/main.go:311 | read from a table in ascending id order, those items come with strictly descending ids (newest first) |
| Tables.ItemsFor | cmd/server/main.go:311 | exactly the items of the list, sorted open-before-done and newest first within each group |
| Tables.DisplayOrderIsUnique | cmd/server/main.go:311 | two sequences sorted by (completed ASC, id DESC) that hold the same items are equal |
| Tables.ItemsForIsTheOrderedQuery | cmd/server/main.go:311 | any sequence sorted by (completed ASC, id DESC) that holds exactly a list's items is `ItemsFor` |
| Tables.DisplayOrderExample | cmd/server/main.go:311 | items A (open), B (done), C (open) added in that order are shown C, A, B |
| Store.Database.constructor | cmd/server/main.go:186-198 | a new database has both tables empty and both counters at 0 |
| Store.Database.InitDB | cmd/server/main.go:203-209 | with no list, creates exactly one list "Lista Principal" with the next id and moves unassigned items into it; with lists present, nothing changes; afterwards at least one list exists |
| Store.InitDBTwice | cmd/server/main.go:203-209 | two bootstrap runs end in exactly the state one run gives: from no list, one default list, the unassigned items adopted and the list counter advanced once; otherwise lists, items and counters unchanged |
| Store.Database.CreateList | cmd/server/main.go:236-243 | a blank name changes nothing; otherwise one list is appended with an id larger than every existing id, and nothing else changes |
| Store.Database.EditList | cmd/server/main.go:245-253 | a blank name changes nothing; otherwise only the name of the list with that id changes; items are never touched |
| Store.Database.DeleteList | cmd/server/main.go:255-265 | with at most one list nothing changes; otherwise the list with that id and all its items go and nothing else; starting from at least one list, at least one remains |
| Store.Database.AddItem | cmd/server/main.go:267-275 | a blank name changes nothing; otherwise one open item of that list is appended with an id larger than every existing id; lists are never touched |
| Store.Database.ToggleItem | cmd/server/main.go:277-286 | flips the completed flag of the item with that id and changes nothing else; an unknown id changes nothing and re-renders list 0, as does an item whose list_id is NULL |
| Store.Database.DeleteItem | cmd/server/main.go:288-296 | exactly the item with that id goes; a present id shrinks the table by one; an unknown id changes nothing; the list re-rendered is the item's, or 0 when unknown or NULL |
| Store.Database.GetDataForList | cmd/server/main.go:298-320 | all lists in ascending id order; for a positive id, that list (or the zero List) and exactly its items, open before done and newest first; for id <= 0, no items and the zero List |
| Store.Database.IndexHandler | cmd/server/main.go:214-222 | none exactly when there is no list; otherwise the id of an existing list that is no larger than any list id |

## Left out

- HTTP routing, redirects, cookies (setting, clearing, their attributes) and request parsing (`FormValue`, `TrimPrefix`, `strconv.Atoi`): the methods take ids and names already parsed, and a failed `Atoi` is the caller passing 0.
- Template parsing and rendering, the login page (GET /login), `manageHandler`, `listViewHandler`, `renderView` and static files: they only display what `GetDataForList` returns. The `ShowManager` flag of the page data is left out with them.
- `main`, environment variables, `sql.Open`, `log.Fatal` and error returns from the database: the store is modelled as always available.
- The `ALTER TABLE` migration at line 201: it only adds a column to old databases. Rows with a NULL `list_id` are still modelled, as `None`.
- `generateToken`: `crypto/rand` and base64url encoding (RFC 4648, section 5) are outside the model. The caller supplies the token, and `Auth.Login` states the map growth only for a token not already stored.
- Time: one integer instant per request. `protected` reads the clock twice; the model uses one `now` for both reads.
- Concurrency: the `sync.Map`, simultaneous requests and the two separate DELETE statements of list deletion. Each handler is one sequential, atomic step.
- `ON DELETE CASCADE`: SQLite enforces it only when foreign keys are switched on, and the server never switches them on. The model relies only on the explicit item DELETE at line 261, and an item may name a list that does not exist.
- Integer width: ids and instants are unbounded integers; 64-bit overflow of ids and of `now + 24h` is not modelled.
