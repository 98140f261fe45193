# Stock-portfolio page: view-state controller

This project models the view-state controller of a small browser page. The page
binds a list of user records to a list of stock records:

- clicking a user in the user list fills an edit form and a portfolio table;
- clicking a row's View button fills a stock-detail panel;
- the save button overwrites the selected user's editable fields in place;
- the delete button splices the user out and resets the panels.

The DOM is replaced by plain values:

- the rendered user list is a sequence of entries (text and user id);
- the form is the id plus the five editable fields;
- the portfolio table is a sequence of `(symbol, owned)` rows, and `[]` is the header-only table;
- the detail panel is four text fields plus the logo source.

Files:

- `records.dfy` (`Records`): the user, holding, stock and view-surface datatypes.
- `lookup.dfy` (`Lookup`): the three first-match lookups.
- `store.dfy` (`Store`): `Saved` and `Removed`, the collection after a save and after a delete, as functions of the collection before. The lemmas beside them state what those handlers promise.
- `render.dfy` (`Render`): the list-item label, the logo path, and the two rendering loops.
- `controller.dfy` (`App`): the class `Controller`, with one method per handler and per helper that writes to a surface.

`Controller.Valid()` is the invariant every handler keeps:

- the user list always shows the current collection;
- the portfolio table is header-only or shows the holdings of a user still in the collection;
- the detail panel is blank or shows one of the stocks.

Two client methods, `App.ExampleSelectAndView` and `App.ExampleSaveAndDelete`, walk through an example session using only the contracts.

Ids are one normalised string type compared with plain equality. The source compares them loosely, with `==`: the form input and the data attributes always hold strings, and the embedded data may hold numbers.

The page's external inputs are parameters of the constructor: the two parsed data sets. The user's typing into the form is the method `EnterForm`, which sets the values that save and delete then read.

The comments at app.js:61 and app.js:130 say that each re-render replaces the previous delegated click handler. The code does not do that: `removeEventListener` is called with a different function than the one that was added, so listeners accumulate. The model follows the code's observable behaviour. Every accumulated listener runs the same handler on the same shared arrays, and the handlers only overwrite surfaces, so one run has the same effect as several.

## Model

| member | source | states |
|---|---|---|
| `Lookup.FindIndex` | app.js:17 | Returns -1 exactly when no user has the id. Otherwise returns an index whose user has the id, with no earlier user having it (first match). |
| `Lookup.FindUser` | app.js:76 | Returns None exactly when no user has the id. Otherwise returns a user of the collection with that id, with no earlier user having it. |
| `Lookup.FindStock` | app.js:154 | Returns None exactly when no stock has exactly that symbol. Otherwise returns the first stock whose symbol is that symbol. |
| `Lookup.FindUserAtFindIndex` | app.js:76 | Both lookups agree: `find` returns the user at the index `findIndex` returns, and both miss together. So the user a list click selects is the user that save overwrites and delete removes. |
| `Lookup.UniqueIdsFindIndex` | app.js:75-76 | When ids are unique, looking up the k-th user's id finds index k and that user. |
| `Store.Saved` | app.js:17-23 | The collection after a save. It keeps the length, and every user keeps its id and portfolio. `SavedAt` proves it is the in-place write at the found index, `SavedFields` that only the first match's five fields change, and `SavedOnMiss` that an unknown id changes nothing. |
| `Store.SavedAt` | app.js:17-23 | When the id is found, the saved collection equals the old one with the element at the found index given the new profile. This ties the in-place field writes to `Saved`. |
| `Store.SavedOnMiss` | app.js:17-18 | When no user has the id, saving leaves the collection as it was. |
| `Store.SavedFields` | app.js:19-23 | Saving changes exactly the five editable fields of the first matching user. The length, that user's id and portfolio, and every other user stay the same. |
| `Store.SavedKeepsIndex` | app.js:19-23 | Saving never changes an id, so every later id lookup finds the same index as before. |
| `Store.SavedIdempotent` | app.js:14-25 | Saving the same form values twice gives the same collection as saving them once. |
| `Store.Removed` | app.js:31-33 | The collection after a delete. It is at most one user shorter, and every remaining user was in the collection before. `RemovedAt` proves it is `splice(i, 1)` at the found index, `RemovedShape` that order and the multiset are kept except for the first match, and `RemovedOnMiss` that an unknown id changes nothing. |
| `Store.RemovedAt` | app.js:31-33 | When the id is found, deleting equals `splice(index, 1)` at the index `findIndex` found. |
| `Store.RemovedOnMiss` | app.js:31-32 | When no user has the id, deleting leaves the collection as it was. |
| `Store.RemovedShape` | app.js:33 | Deleting a found id makes the collection one shorter. Users before the first match stay in place and users after it shift down by one, in order. The multiset loses exactly that one user. |
| `Store.RemovedUnique` | app.js:33 | When ids are unique, no user with the deleted id remains after a delete, and ids stay unique. |
| `Render.Label` | app.js:56 | The item text is the last name, then ", ", then the first name, at those exact positions. |
| `Render.LabelRoundTrip` | app.js:56 | When the last name has no comma, splitting the text at its first comma gives back the last name and the first name. |
| `Render.LabelAmbiguous` | app.js:56 | A last name that contains ", " lets two different users have the same item text. |
| `Render.LogoPath` | app.js:160 | The logo source is "logos/", then the symbol, then ".svg", at those exact positions. |
| `Render.LogoRoundTrip` | app.js:160 | The symbol can be read back from its logo path, so distinct symbols give distinct logos. No logo path is the blank source. |
| `Render.EntryFor` | app.js:55-57 | One list item: it carries the user's id, and its text is the last name at the start, ", " right after it, and the first name at the end. |
| `Render.Rows` | app.js:113-128 | The portfolio rows: one per holding, in order. Row i shows holding i's symbol and shares, and its View button is keyed by that symbol. |
| `Render.BuildUserList` | app.js:51-59 | The `forEach` loop builds exactly one item per user, in input order. Each item is labelled "lastname, firstname" and carries that user's id. |
| `Render.BuildPortfolioRows` | app.js:113-128 | The `forEach` loop builds exactly one (symbol, owned) row per holding, in order. |
| `App.DetailOf` | app.js:156-160 | The panel filled from a stock is never the blank panel, and its logo path gives back the stock's symbol. |
| `App.Controller.constructor` | app.js:2-8 | Page load keeps the given users and stocks and renders the user list. The form, portfolio and panel start empty, and `Valid()` holds. |
| `App.Controller.GenerateUserList` | app.js:51-65 | Afterwards the list shows the current collection exactly. Nothing else changes. |
| `App.Controller.PopulateForm` | app.js:88-96 | The form holds the user's id and five fields. Nothing else changes. |
| `App.Controller.RenderPortfolio` | app.js:103-134 | The portfolio rows are the user's holdings, one row each, in order. The earlier rows are replaced. |
| `App.Controller.UserListClick` | app.js:73-82 | Clicking an LI whose id some user has puts the first such user into the form and the portfolio table. Any other click changes nothing. The collection, the list and the detail panel are never touched. |
| `App.Controller.PortfolioClick` | app.js:141-146 | Clicking a BUTTON whose symbol matches a stock shows that stock. Any other click leaves the panel as it was. |
| `App.Controller.ViewStock` | app.js:153-162 | For an exactly matching symbol, the panel gets that stock's name, sector, sub-industry and address, and the logo "logos/" + symbol + ".svg". An unknown symbol leaves the panel untouched. |
| `App.Controller.ClearStockDetails` | app.js:167-173 | All five panel fields become empty and `Valid()` is kept. Nothing else changes, so clearing again has no further effect. |
| `App.Controller.EnterForm` | app.js:16-23 | The form holds exactly the typed values that save and delete read, and `Valid()` is kept. |
| `App.Controller.Save` | app.js:14-26 | The collection becomes `Saved(old users, form id, form fields)` and the list is re-rendered from it. When the id is unknown, the collection and the list are unchanged. The form, portfolio and panel are never touched, and `Valid()` is kept. |
| `App.Controller.Delete` | app.js:28-43 | The collection becomes `Removed(old users, form id)`. On a hit, the list is re-rendered, the portfolio is header-only, the panel is blank and the form is reset. On a miss, every field is unchanged. `Valid()` is kept. |
| `App.SelectRenderedItem` | app.js:75-76 | Clicking the k-th rendered item always finds a user: the first with that item's id, at an index no later than k. With unique ids it is the k-th user itself. |

## Left out

- DOM access and construction (`querySelector`, `createElement`, `appendChild`, `innerHTML`, `textContent`): the surfaces are record fields and sequences of rows. The header-only portfolio table is the empty row sequence.
- Elements that `querySelector` does not find: the page assumes all of them exist, and so does the model.
- Event-listener registration and the accumulation of listeners: the model runs each handler once per event. Extra runs would only repeat the same overwrites.
- `JSON.parse` of the two embedded data strings: the parsed users and stocks are given to the constructor. The static page markup is not part of this model, so the initial form, portfolio table and panel are taken to be empty.
- `preventDefault`, and the HTML default values a `form.reset()` restores: the reset form is `EmptyForm`, with every input empty.
- JavaScript's loose-equality coercions: ids are one string type with plain equality. For example, the model does not capture that `0 == ""` would let an empty form id match a user whose id is the number 0.
- Rendering a share count as text: a row keeps the integer `owned`.
- Object identity of user records: the collection is a sequence of values. `find` returns a shared reference in the source, but `populateForm` copies its strings out, so no later write can be observed through an alias.
