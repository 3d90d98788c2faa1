# Category and currency controllers: the return-URL protocol

This project models the session-backed navigation of Firefly III's
`CategoryController` and `CurrencyController`: how each create, edit and
delete flow remembers in the user's session the page it started from, how the
"create another" and "return to edit" loops keep that page across any number
of rounds, and where every action redirects afterwards. It also models the
one-flash-per-action rule, the dependency guard on deleting a currency, the
default-currency action (preference and cache update), and the page offset
computed by `CategoryController::show`.

Modules:

- `Framework` (`framework.dfy`): the session as a class holding a
  `map<string, Value>` (a value is the boolean a loop submit writes, or a URL)
  and the request's single flash slot; the cache and the preferences as
  classes; the `Response` datatype (a view, a redirect to a named route, or a
  redirect to whatever a session key held, possibly nothing).
- `Navigation` (`navigation.dfy`): `EnterForm`, the session update that
  `create()` and `edit()` of both controllers perform, and the lemmas about
  repeated loops.
- `Categories` (`categories.dfy`): `CategoryController` as a class whose
  methods change the session and the category repository, the flash texts,
  and the `show()` offset.
- `Currencies` (`currencies.dfy`): `CurrencyController` as a class whose
  methods change the session, the currency table, the preferences and the
  cache, and the flash texts.

Each controller action is a method whose postcondition states the whole new
state (session map, flash slot, rows) and the response, in terms of the old
state and the action's inputs. The framework supplies the following, which
become parameters: `URL::previous()` (`previous`), the integer value of the
`create_another` / `return_to_edit` inputs, the number of transaction
journals using a currency (`journalCount`), and the signed-in user's id.
The scenario methods at the end of `categories.dfy` and `currencies.dfy`
drive the controller methods on fresh objects and prove the end-to-end
outcome of a flow.

Behaviour kept as the code has it:

- `CategoryController::store` holds unresolved merge-conflict markers
  (app/Http/Controllers/CategoryController.php:188-197). The model follows
  the `release/3.3.6` side: without "create another" it redirects to the URL
  stored under `categories.create.url`. On the other side the second
  `create_another` test (line 189) can never succeed, because line 183 has
  already returned in that case, so that side always redirects to the route
  `categories.index`.
- `CurrencyController::store` redirects to the URL under
  `categories.create.url`, not `currency.create.url`
  (app/Http/Controllers/CurrencyController.php:171); `StoreReturnScenario`
  proves that a visit to the currency create form does not influence it.
- `CurrencyController::delete` stores `currency.delete.url` only when the
  delete is blocked (app/Http/Controllers/CurrencyController.php:82), so an
  unblocked `destroy()` returns to whatever the session held before;
  `UnblockedDeleteScenario` proves it.
- A redirect to a session key that was never set is `RedirectTo(None)`: the
  code has no fallback to a default route in that case, and neither has the
  model.
- A flag counts as set only when it holds the boolean `true` (`!== true` in
  the source); `IsTrue` states exactly that.

## Model

| member | source | states |
|---|---|---|
| `Navigation.EnterForm` | app/Http/Controllers/CategoryController.php:38-42 | after entering a form the flag key is absent; the URL key holds the previous page exactly when the flag did not hold `true`, and keeps its old value otherwise; every other key is unchanged |
| `Navigation.RaiseFlag` | app/Http/Controllers/CategoryController.php:184 | after a "do again" submit the flag key holds the boolean `true` and every other key is unchanged |
| `Navigation.AgainRoundsKeepUrl` | app/Http/Controllers/CategoryController.php:183-186 | any number of "do again" rounds (flag raised by the submit, form entered again from any page) leave the remembered URL and every other key unchanged, and the flag consumed |
| `Navigation.ReturnUrlIsFirstReferrer` | app/Http/Controllers/CategoryController.php:39-41 | a flow entered with no loop pending keeps the page it was entered from as its return URL through any number of loops |
| `Navigation.FlagConsumedOnce` | app/Http/Controllers/CategoryController.php:42 | two visits to a form with no submit between them leave the second visit's page as the return URL, whatever the flag held before |
| `Categories.StoredMessage` | app/Http/Controllers/CategoryController.php:181 | the store flash contains the category name |
| `Categories.UpdatedMessage` | app/Http/Controllers/CategoryController.php:217 | the update flash contains the category name |
| `Categories.DeletedMessage` | app/Http/Controllers/CategoryController.php:73 | the destroy flash contains the category name |
| `Categories.ShowOffset` | app/Http/Controllers/CategoryController.php:151-152 | the offset is a non-negative whole number of pages: `page` pages for a positive page, none otherwise |
| `Categories.FirstJournalsOnNoNumberedPage` | app/Http/Controllers/CategoryController.php:152 | with the offset as written, the first 50 journals are on no page numbered 1 or higher |
| `Categories.PageOffset` | app/Http/Controllers/CategoryController.php:152 | corrected offset: `page - 1` whole pages for a page of at least 1, none otherwise |
| `Categories.RowOnExactlyOnePage` | app/Http/Controllers/CategoryController.php:162 | with the corrected offset every journal is listed on exactly one page numbered from 1 |
| `Categories.CategoryRepository.Store` | app/Http/Controllers/CategoryController.php:179 | inserts a category with a fresh id, the given name and user |
| `Categories.CategoryRepository.Update` | app/Http/Controllers/CategoryController.php:215 | renames the stored row it is given and returns the renamed category |
| `Categories.CategoryRepository.Destroy` | app/Http/Controllers/CategoryController.php:71 | removes the row and records one destroy of that id |
| `Categories.CategoryController.Create` | app/Http/Controllers/CategoryController.php:36-45 | session becomes `EnterForm` on the create keys; flash untouched; renders `categories.create` |
| `Categories.CategoryController.Delete` | app/Http/Controllers/CategoryController.php:52-60 | `categories.delete.url` always becomes the previous page; renders `categories.delete` |
| `Categories.CategoryController.Destroy` | app/Http/Controllers/CategoryController.php:67-76 | destroys the category exactly once, sets one success flash with its name, session map unchanged, redirects to what `categories.delete.url` held |
| `Categories.CategoryController.Edit` | app/Http/Controllers/CategoryController.php:83-95 | session becomes `EnterForm` on the edit keys; renders `categories.edit` |
| `Categories.CategoryController.Store` | app/Http/Controllers/CategoryController.php:173-199 | inserts once and sets one success flash with the name; with `create_another == 1` raises `categories.create.fromStore` and redirects to route `categories.create` with input, otherwise leaves the session map and redirects to what `categories.create.url` held |
| `Categories.CategoryController.Update` | app/Http/Controllers/CategoryController.php:209-227 | renames and sets one success flash with the new name; with `return_to_edit == 1` raises `categories.edit.fromUpdate` and redirects to `categories.edit` for the same id, otherwise redirects to what `categories.edit.url` held |
| `Categories.CreateAnotherScenario` | app/Http/Controllers/CategoryController.php:183-196 | create, store with "create another" (flash names the category), create again from another page, plain store: the last redirect is to the first page |
| `Categories.DeleteScenario` | app/Http/Controllers/CategoryController.php:57-75 | delete then destroy returns to the page delete was asked from, and destroys the category exactly once |
| `Currencies.BlockedMessage` | app/Http/Controllers/CurrencyController.php:79 | the blocked-delete flash contains the currency name |
| `Currencies.DeletedMessage` | app/Http/Controllers/CurrencyController.php:104 | the delete flash contains the currency name |
| `Currencies.CreatedMessage` | app/Http/Controllers/CurrencyController.php:163 | the store flash contains the currency name |
| `Currencies.UpdatedMessage` | app/Http/Controllers/CurrencyController.php:189 | the update flash contains the currency name |
| `Currencies.DefaultMessage` | app/Http/Controllers/CurrencyController.php:63 | the default-currency flash contains the currency name |
| `Currencies.CurrencyTable.Create` | app/Http/Controllers/CurrencyController.php:155-161 | inserts a currency with a fresh id and the given code, symbol and name |
| `Currencies.CurrencyTable.Save` | app/Http/Controllers/CurrencyController.php:187 | overwrites the existing row |
| `Currencies.CurrencyTable.Delete` | app/Http/Controllers/CurrencyController.php:106 | removes the row and records one delete of that id |
| `Currencies.CurrencyController.Create` | app/Http/Controllers/CurrencyController.php:37-49 | session becomes `EnterForm` on the currency create keys; renders `currency.create` |
| `Currencies.CurrencyController.DefaultCurrency` | app/Http/Controllers/CurrencyController.php:56-69 | the currency preference becomes the currency's code; the cache loses exactly `FFCURRENCYSYMBOL` and `FFCURRENCYCODE`; one success flash; redirects to `currency.index` |
| `Currencies.CurrencyController.Delete` | app/Http/Controllers/CurrencyController.php:76-89 | with journals: error flash, `currency.delete.url` := previous page, redirect to `currency.index`; without: session and flash untouched, renders `currency.delete` |
| `Currencies.CurrencyController.Destroy` | app/Http/Controllers/CurrencyController.php:96-109 | with journals: nothing deleted, error flash, redirect to `currency.index`; without: success flash, deleted exactly once, redirect to what `currency.delete.url` held |
| `Currencies.CurrencyController.Edit` | app/Http/Controllers/CurrencyController.php:116-130 | session becomes `EnterForm` on the currency edit keys; renders `currency.edit` |
| `Currencies.CurrencyController.Store` | app/Http/Controllers/CurrencyController.php:150-174 | inserts once with one success flash; with `create_another == 1` raises `currency.create.fromStore` and redirects to route `currency.create` with input, otherwise redirects to what `categories.create.url` held |
| `Currencies.CurrencyController.Update` | app/Http/Controllers/CurrencyController.php:181-200 | overwrites code, symbol and name with one success flash; with `return_to_edit == 1` raises `currency.edit.fromUpdate` and redirects to `currency.edit` for the same id, otherwise redirects to what `currency.edit.url` held |
| `Currencies.ReturnToEditScenario` | app/Http/Controllers/CurrencyController.php:192-198 | edit, update with "return to edit" (back to the same currency's form), edit again from another page, plain update: the last redirect is to the first page |
| `Currencies.BlockedDeleteScenario` | app/Http/Controllers/CurrencyController.php:78-102 | with journals attached, delete and destroy both go to the index, the currency remains, and the error flash names it |
| `Currencies.UnblockedDeleteScenario` | app/Http/Controllers/CurrencyController.php:78-108 | without journals, destroy removes the currency and returns to what `currency.delete.url` held before delete, not to the page delete was asked from |
| `Currencies.StoreReturnScenario` | app/Http/Controllers/CurrencyController.php:171 | after entering the currency create form, a plain store goes to what `categories.create.url` held, unaffected by the visit |

## Left out

- Categories.ShowOffset: the offset is an unbounded integer; PHP turns `$page * 50` into a float once the page exceeds `PHP_INT_MAX / 50`, and that overflow to an inexact float is not modelled.
- The session is a flat map from the key string to the value. The framework's `Session::put`, `get` and `forget` nest dotted keys, so a read of a prefix such as `categories.create` would see the stored URL and flag change. The frames of `Navigation.EnterForm`, `Navigation.RaiseFlag` and `Navigation.AgainRoundsKeepUrl` ("every other key is unchanged") hold in the framework only for keys that are not a dotted prefix of the URL or flag key. The ten keys the two controllers use are not prefixes of one another, and no action reads a prefix key.
- `CategoryController::index`, `noCategory`, the journal query and the `LengthAwarePaginator` of `show`, and `CurrencyController::index`: they are database queries whose ordering and filtering happen in the query builder, outside this model; only the offset of `show` is modelled.
- The constructors' `View::share` calls, view contexts (subtitles, icons, compact variables) and view rendering: a view response records only the view name.
- `withInput()` is recorded as a flag on the redirect; how the form is repopulated, and what the framework does with `Redirect::to(null)`, are not modelled.
- `URL::previous()`, `Auth::user()` and the `create_another`, `return_to_edit` and `page` inputs are parameters; PHP's `intval` parsing of the raw input is not modelled, the parameter is its result.
- `e()` and `htmlentities` are taken as the identity, so flash texts are checked for containing the name. The in-memory `htmlentities` of the symbol in `CurrencyController::edit` is not saved and has no effect in the model.
- Request validation (`CategoryFormRequest`, `CurrencyFormRequest`) is outside the model; every payload is taken as valid.
- Persistence internals: the repository and `TransactionCurrency` are tables of rows with insert, overwrite and remove. The category repository's update is taken to rename the category object the controller later reads the name from. The number of journals using a currency is a parameter.
- The flash is a single slot overwritten by each `Session::flash`; its ageing across requests is not modelled.
- Concurrent requests of the same user: one request is handled at a time.
- The `HEAD` side of the merge conflict in `CategoryController::store` is described above but not modelled.

## Findings

| source | as written | input that shows it | evidently intended | confidence | as-written member | corrected member |
|---|---|---|---|---|---|---|
| app/Http/Controllers/CategoryController.php:152 | the offset is `page * 50` for a positive page, while the paginator of line 162 numbers pages from 1 | `page = 1` gives offset 50, so the page labelled 1 starts at the 51st journal and the first 50 journals appear on no numbered page | offset `(page - 1) * 50`, with an absent page treated as page 1 | medium (not executed) | `Categories.FirstJournalsOnNoNumberedPage` | `Categories.RowOnExactlyOnePage` |
