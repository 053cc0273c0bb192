# Product listing, product handlers and shopping cart: a Dafny model

This project models two parts of the product-launch platform.

The first is the product controller of the back end. `getProducts` turns the
URL query into a MongoDB filter, a projection, a sort order and a page window.
The single-product handlers decide between found, missing, forbidden and
failed. Creating and updating normalise the request body's inventory.

The second is the shopping cart of the front end. It is a list of lines keyed
by product id, with add, remove, update-quantity, clear, count and membership.

The modules are:

- `Wrappers` holds `Option`.
- `JsonText` models the query as a JSON value. It covers `JSON.stringify` of
  it, including string escaping, and `JSON.parse` back.
- `OperatorRewrite` models the textual `$` rewrite `/\b(gt|gte|lt|lte|in)\b/g`.
  It is a scanner, proved equal to a position-by-position definition of the
  regular-expression replace. It also proves how the rewrite passes through
  the JSON text.
- `JsNumber` models `String(value)` and `parseInt(text, 10)`.
- `ProductQuery` models `getProducts`.
- `ProductHandlers` models `getProduct`, `createProduct`, `updateProduct` and
  `deleteProduct`.
- `CartContext` models the cart, as a class holding its item list.

The database is not modelled. Every call to the store becomes a parameter
that returns None when the call throws:

- `countDocuments`;
- `find` with its select and sort;
- `findById`;
- `create`;
- `findByIdAndUpdate`;
- `remove`.

The skip and limit that `getProducts` hands to the store are applied by the
model, with MongoDB's meaning:

- a negative skip is an error;
- a negative limit means its absolute value.

## Model

| member | source | states |
|---|---|---|
| JsonText.Serialize | backend/controllers/productController.js:46 | `JSON.stringify` of a query value: strings quoted and escaped, arrays and objects in order; ParseSerialize states its meaning |
| JsonText.Parse | backend/controllers/productController.js:53 | `JSON.parse` of the whole text, failing on malformed input or trailing text; ParseSerialize states its meaning |
| JsonText.ParseSerialize | backend/controllers/productController.js:46-53 | `JSON.parse` reads back exactly the value `JSON.stringify` wrote, for every query value (strings with any characters, arrays, objects) |
| JsonText.ParseSerialized | backend/controllers/productController.js:46-53 | a serialised value followed by any text parses to that value and leaves the text |
| JsonText.ParseEscaped | backend/controllers/productController.js:46 | the string body parser undoes the escaping of every string, stopping at the closing quote |
| JsonText.EscapeConcat | backend/controllers/productController.js:46 | escaping works character by character: it distributes over concatenation |
| OperatorRewrite.OperatorTokens | backend/controllers/productController.js:48 | the words the rewrite acts on are exactly gt, gte, lt, lte and in |
| OperatorRewrite.RewriteIsRegexReplace | backend/controllers/productController.js:47-50 | the scanner gives the same text as inserting `$` before every whole-word match of the pattern, at every position |
| OperatorRewrite.MatchAtWord | backend/controllers/productController.js:48 | at the start of a word, the pattern matches exactly when the whole word is one of the five operators |
| OperatorRewrite.NoMatchUnchanged | backend/controllers/productController.js:47-50 | text where the pattern matches nowhere is left as it is |
| OperatorRewrite.RewriteAround | backend/controllers/productController.js:47-50 | a non-word character splits the rewrite: each side is rewritten on its own |
| OperatorRewrite.RewriteEscaped | backend/controllers/productController.js:46-50 | rewriting the escaped text of a string equals escaping the string rewritten with the same word boundaries |
| OperatorRewrite.RawScanUnchangedOrDollar | backend/controllers/productController.js:47-50 | a rewritten string is either the input itself or contains a `$` |
| OperatorRewrite.RewriteText | backend/controllers/productController.js:47-50 | the replace itself, as a left-to-right scan that writes `$` before each finished word that is an operator; its meaning is stated by RewriteIsRegexReplace and RewriteOnlyInsertsDollars |
| OperatorRewrite.RewriteOnlyInsertsDollars | backend/controllers/productController.js:47-50 | the replace changes the text only by inserting `$`: with every `$` removed, output and input are the same |
| OperatorRewrite.RewriteRawOnlyInsertsDollars | backend/controllers/productController.js:47-50 | on each decoded key and string the rewrite only inserts `$`: with every `$` removed, output and input are the same |
| OperatorRewrite.DollarFreeUnchanged | backend/controllers/productController.js:47-50 | a rewritten string with no `$` equals the original string |
| OperatorRewrite.RewriteFields | backend/controllers/productController.js:47-53 | the rewritten object has one field per original field, each rewritten on its own |
| OperatorRewrite.RewriteSerialized | backend/controllers/productController.js:46-50 | rewriting the JSON text of a value equals serialising the value with every key and string rewritten |
| OperatorRewrite.ParseRewritten | backend/controllers/productController.js:46-53 | parsing the rewritten JSON text always succeeds and yields the value with every key and string rewritten |
| OperatorRewrite.RawWord | backend/controllers/productController.js:47-50 | a single word is rewritten exactly when it is an operator |
| OperatorRewrite.BracketOperator | backend/controllers/productController.js:46-53 | a bracket parameter `field[op]=n` with an operator `op`, for a field and value that are plain, non-operator words, becomes `{field: {$op: n}}` |
| OperatorRewrite.BracketOperatorRewritten | backend/controllers/productController.js:46-53 | `price[gt]=10` becomes `{price: {$gt: "10"}}` |
| OperatorRewrite.EmbeddedTokenUntouched | backend/controllers/productController.js:48 | an operator inside a longer word (`ingredient`) is not rewritten |
| OperatorRewrite.OperatorBeforeHyphen | backend/controllers/productController.js:48 | a hyphen is a word boundary, so an operator before it gains `$` |
| JsNumber.ParseInt | backend/controllers/productController.js:73-74 | `parseInt(s, 10)`: leading white space, an optional sign, the longest run of digits, `NaN` (None) without a digit; its meaning is stated by TrimStartSpec, DigitRunSpec and ParseDecimal |
| JsNumber.IntOr | backend/controllers/productController.js:73-74 | `parseInt(x, 10) \|\| d` is never 0: it is the parsed number, or `d` when parsing gives `NaN` or 0 |
| JsNumber.TrimStartSpec | backend/controllers/productController.js:73-74 | `parseInt` skips exactly the leading white space |
| JsNumber.DigitRunSpec | backend/controllers/productController.js:73-74 | `parseInt` reads the longest run of digits |
| JsNumber.ParseDecimal | backend/controllers/productController.js:73-74 | `parseInt` reads back the decimal text of every integer |
| JsNumber.ParseStopsAtNonDigit | backend/controllers/productController.js:73-74 | reading stops at the first non-digit, so `"2,3"` reads as 2 |
| JsNumber.ParseNoNumber | backend/controllers/productController.js:73-74 | text starting with no digit, sign or space is `NaN` |
| JsNumber.MissingOrObjectIsNaN | backend/controllers/productController.js:73-74 | a missing parameter (`"undefined"`) and an object parameter (`"[object Object]"`) both read as `NaN` |
| ProductQuery.Get | backend/controllers/productController.js:10 | a parameter is found exactly when its key is present, and the value found belongs to that key |
| ProductQuery.WithoutMembers | backend/controllers/productController.js:13-16 | deleting keys keeps exactly the parameters whose key is not among them |
| ProductQuery.WithoutConcat | backend/controllers/productController.js:13-16 | deleting keys keeps the remaining parameters in their order |
| ProductQuery.DeleteAfterWithout | backend/controllers/productController.js:16 | deleting the keys one after another is deleting them all at once |
| ProductQuery.WithoutUnique | backend/controllers/productController.js:13-16 | deleting keys keeps the keys unique |
| ProductQuery.StripReserved | backend/controllers/productController.js:10-16 | the loop of deletes yields the query without select, sort, page, limit and search |
| ProductQuery.Assign | backend/controllers/productController.js:31-43 | assigning a key sets it, leaves every other key alone, and appends only a new key |
| ProductQuery.SpreadLookup | backend/controllers/productController.js:53 | after the spread, a key's value comes from the parsed parameters when they have the key, and from the base query otherwise |
| ProductQuery.LastValue | backend/controllers/productController.js:53 | a parsed object provides a value for a key exactly when it has the key |
| ProductQuery.BaseQueryKeys | backend/controllers/productController.js:19-43 | the base query has no keys besides `$or`, category, status and maker |
| ProductQuery.ReservedNeverFilter | backend/controllers/productController.js:10-53 | select, sort, page, limit and search never appear as filter keys |
| ProductQuery.SearchClausePresent | backend/controllers/productController.js:19-28 | the filter holds the `$or` search clause exactly when the search parameter is truthy and no parameter rewrites to `$or` |
| ProductQuery.UniqueParamWins | backend/controllers/productController.js:46-53 | a plain key given once ends up with its rewritten value |
| ProductQuery.CopiesOverridden | backend/controllers/productController.js:30-53 | the category, status and maker copies are always replaced by the rewritten parameter |
| ProductQuery.CommasToSpaces | backend/controllers/productController.js:60 | every comma becomes a space and every other character stays |
| ProductQuery.SpaceListReplacesCommas | backend/controllers/productController.js:58-70 | `split(",").join(" ")` equals replacing each comma by a space |
| ProductQuery.SortDefault | backend/controllers/productController.js:65-70 | without a truthy sort parameter the order is `-createdAt` |
| ProductQuery.PaginationDefaults | backend/controllers/productController.js:73-74 | page defaults to 1 and limit to 10 when missing, `NaN` or 0, and neither is ever 0 |
| ProductQuery.PageAsWritten | backend/controllers/productController.js:73 | a page given as a non-zero decimal number is that page |
| ProductQuery.WindowBounds | backend/controllers/productController.js:75-105 | the window is one page wide, and, for a positive limit, it starts after 0 exactly when the page is above 1 and at 0 or after exactly when the page is at least 1 |
| ProductQuery.Window | backend/controllers/productController.js:79 | the page holds the documents from the skip on, in order, and no more than the limit allows |
| ProductQuery.BaseQuery | backend/controllers/productController.js:19-43 | the `$or` search clause when search is truthy, then category, status and maker copied when truthy; BaseQueryKeys and SearchClausePresent state what it holds |
| ProductQuery.Spread | backend/controllers/productController.js:53 | `{...base, ...parsed}`: each parsed property assigned over the base in order; SpreadLookup states the result |
| ProductQuery.FinalFilter | backend/controllers/productController.js:10-53 | the filter handed to the store; ReservedNeverFilter, CopiesOverridden and UniqueParamWins state what it holds |
| ProductQuery.Projection | backend/controllers/productController.js:58-62 | the select string with commas turned into spaces when select is truthy, none when it is not, an error when it is not a string; SpaceListReplacesCommas states the text |
| ProductQuery.SortOrder | backend/controllers/productController.js:64-70 | the sort string with commas turned into spaces when sort is a truthy string, an error when it is truthy but not a string, otherwise `-createdAt`; SortDefault states the default |
| ProductQuery.PageNumber | backend/controllers/productController.js:73 | `parseInt(page, 10) \|\| 1`; PaginationDefaults and PageAsWritten state its values |
| ProductQuery.PageSize | backend/controllers/productController.js:74 | `parseInt(limit, 10) \|\| 10`; PaginationDefaults states its values |
| ProductQuery.StartIndex | backend/controllers/productController.js:75 | `(page - 1) * limit`; WindowBounds states how it relates to the page |
| ProductQuery.EndIndex | backend/controllers/productController.js:76 | `page * limit`; WindowBounds states that it is one page after the start |
| ProductQuery.BuildFilter | backend/controllers/productController.js:10-53 | the filter is the base query with the parsed rewritten parameters spread over it |
| ProductQuery.Paginate | backend/controllers/productController.js:91-105 | `next` is present exactly when the page ends before the total, `prev` exactly when it starts after 0, with the neighbouring page numbers |
| ProductQuery.SearchCompiles | backend/controllers/productController.js:20-28 | a truthy search term is one `new RegExp(search, "i")` accepts, so building the search clause does not throw |
| ProductQuery.GetProducts | backend/controllers/productController.js:7-121 | 500 when a truthy search term does not compile as a case-insensitive regular expression; 200 exactly when the search term, if truthy, compiles, select and sort are absent, falsy or strings, the skip is not negative and the store answers; the body holds the total, the documents of the window, their count and the hints |
| ProductQuery.StatusInTestingRewritten | backend/controllers/productController.js:36-53 | as written, `?status=in-testing` filters on the status `$in-testing` |
| ProductQuery.OperatorKeyFields | backend/controllers/productController.js:47-50 | the corrected rewrite renames a bracket key exactly when it is an operator, and leaves the values alone |
| ProductQuery.CorrectedParamWins | backend/controllers/productController.js:30-53 | with the corrected rewrite, a parameter given once is kept with only its operator keys renamed |
| ProductQuery.CorrectedKeepsStrings | backend/controllers/productController.js:30-53 | with the corrected rewrite, a plain string parameter such as `status=in-testing` is kept as it is |
| ProductQuery.CorrectedRenamesOperators | backend/controllers/productController.js:46-53 | the corrected rewrite still turns `field[op]=x` into `{field: {$op: x}}` |
| ProductHandlers.GetProduct | backend/controllers/productController.js:126-168 | 200 with the product when found; 404 when missing or the id is malformed; 500 for any other failure |
| ProductHandlers.MalformedIdIsNotFound | backend/controllers/productController.js:141-161 | a malformed id gets the same reply as a missing product |
| ProductHandlers.CheckAccess | backend/controllers/productController.js:207-222 | access is granted exactly when the product exists and the user made it or is an admin; otherwise 404, 403 with the verb, or 500 |
| ProductHandlers.MayWrite | backend/controllers/productController.js:217 | the negated ownership test: the maker is the caller or the caller is an admin, none when `maker.toString()` throws; WriteAccessRule states the rule |
| ProductHandlers.WriteAccessRule | backend/controllers/productController.js:217-221 | for a product that has a maker, an admin may write it and anyone else only their own |
| ProductHandlers.MissingBeforeForbidden | backend/controllers/productController.js:209-214 | a missing product is a 404 whoever asks |
| ProductHandlers.Normalised | backend/controllers/productController.js:179-181 | inventory becomes null exactly when manageInventory is the boolean false, and no other field changes |
| ProductHandlers.NormalisedIdempotent | backend/controllers/productController.js:179-181 | normalising twice is normalising once |
| ProductHandlers.OnlyStrictFalse | backend/controllers/productController.js:179-180 | the text "false" does not switch the inventory off |
| ProductHandlers.RequestBody.NormaliseInventory | backend/controllers/productController.js:179-181 | the body becomes its normalised form |
| ProductHandlers.RequestBody.SetMaker | backend/controllers/productController.js:184 | the body's maker becomes the caller's id and nothing else changes |
| ProductHandlers.CreateProduct | backend/controllers/productController.js:173-200 | the body is normalised and its maker is the caller; 201 with the created product, or 500 |
| ProductHandlers.UpdateProduct | backend/controllers/productController.js:205-246 | a refused update leaves the body alone and answers as the checks say; a granted one normalises the body and answers 200 with the store's result, or 500 |
| ProductHandlers.DeleteProduct | backend/controllers/productController.js:251-283 | 200 with `{}` exactly when access is granted and the removal succeeds; otherwise the refusal or 500 |
| CartContext.IndexOf | frontend/src/context/CartContext.jsx:53 | the first line with the id, or -1 exactly when no line has it |
| CartContext.Contains | frontend/src/context/CartContext.jsx:119 | true exactly when some line has the id |
| CartContext.WithoutId | frontend/src/context/CartContext.jsx:77 | the kept lines are exactly the lines with another id |
| CartContext.SetQuantity | frontend/src/context/CartContext.jsx:97-101 | every line with the id gets the quantity and every other line stays |
| CartContext.Count | frontend/src/context/CartContext.jsx:114 | the sum of the quantities, which CountConcat, CountUpdate and CountBounds characterise |
| CartContext.InCart | frontend/src/context/CartContext.jsx:42-43 | the quantity of the line `find` returns, or 0 without one; InCartFound states it |
| CartContext.InCartFound | frontend/src/context/CartContext.jsx:42-43 | 0 for an id not in the cart, otherwise the quantity of a line with that id |
| CartContext.PriceString | frontend/src/context/CartContext.jsx:66 | the price as text: text as given, a number's decimal text that reads back as that number, `"0"` when absent |
| CartContext.AddRejected | frontend/src/context/CartContext.jsx:35-48 | the two guards of `addToCart`: a managed product out of stock, or one whose quantity in the cart plus the request exceeds its inventory; AddToCart returns false exactly then |
| CartContext.Added | frontend/src/context/CartContext.jsx:51-70 | the cart after an accepted add; AddedLines, AddedCount and AddedUnique state what it holds |
| CartContext.UpdateRefused | frontend/src/context/CartContext.jsx:88-94 | the guard of `updateQuantity`: the line found is managed and the quantity exceeds its inventory; UpdateQuantity returns false exactly then |
| CartContext.CountConcat | frontend/src/context/CartContext.jsx:114 | the count of two carts put together is the sum of their counts |
| CartContext.CountUpdate | frontend/src/context/CartContext.jsx:96-102 | changing one line's quantity changes the count by the difference |
| CartContext.AddedCount | frontend/src/context/CartContext.jsx:51-70 | an accepted add raises the count by the quantity added |
| CartContext.AddedLines | frontend/src/context/CartContext.jsx:51-70 | after an add the product is in the cart with its quantity grown; a new line is appended only for a new product, with the price as text |
| CartContext.AddedGrowsLine | frontend/src/context/CartContext.jsx:55-59 | adding a product already in the cart grows its line's quantity in place and keeps the line's other fields |
| CartContext.AddedUnique | frontend/src/context/CartContext.jsx:51-70 | an add keeps the ids unique |
| CartContext.ManagedAddWithinStock | frontend/src/context/CartContext.jsx:35-48 | after an accepted add of a managed product whose inventory is a number or null, the cart holds no more than that inventory, which is positive |
| CartContext.UndefinedStockNeverRefuses | frontend/src/context/CartContext.jsx:35-48 | a managed product whose inventory is undefined is never refused, since both comparisons with it are false |
| CartContext.WithoutIdConcat | frontend/src/context/CartContext.jsx:77 | removal keeps the other lines in their order |
| CartContext.WithoutAbsent | frontend/src/context/CartContext.jsx:77 | removing an id not in the cart changes nothing |
| CartContext.WithoutUnique | frontend/src/context/CartContext.jsx:77 | removal keeps the ids unique |
| CartContext.WithoutCount | frontend/src/context/CartContext.jsx:76-78 | with unique ids, removal lowers the count by the removed line's quantity |
| CartContext.SetQuantityAbsent | frontend/src/context/CartContext.jsx:96-102 | setting the quantity of an id not in the cart changes nothing |
| CartContext.SetQuantityLine | frontend/src/context/CartContext.jsx:96-102 | in a cart with unique ids, setting a quantity keeps ids unique, gives the line that quantity, and changes the count by the difference |
| CartContext.CountBounds | frontend/src/context/CartContext.jsx:114 | a count of non-negative quantities is non-negative, and of positive ones at least the number of lines |
| CartContext.Cart.constructor | frontend/src/context/CartContext.jsx:12-15 | the saved cart becomes the state as it is, and it is a valid cart when its ids are unique |
| CartContext.Cart.AddToCart | frontend/src/context/CartContext.jsx:33-73 | false exactly when a managed product is out of stock or would exceed its inventory, leaving the cart alone; true otherwise, with the line added or grown, the count raised by the quantity, the stock bound kept and ids kept unique |
| CartContext.Cart.RemoveFromCart | frontend/src/context/CartContext.jsx:76-78 | every line with the id goes and the others stay in order; ids stay unique and the count falls by that line's quantity |
| CartContext.Cart.UpdateQuantity | frontend/src/context/CartContext.jsx:81-105 | a quantity of 0 or less acts as remove and returns undefined; false exactly when a positive quantity is above the found managed line's inventory, with the cart unchanged; otherwise true with every line with the id given the quantity, and an unknown id leaves the cart as it is |
| CartContext.Cart.ClearCart | frontend/src/context/CartContext.jsx:108-110 | the cart is empty and its count 0 |
| CartContext.Cart.GetCartCount | frontend/src/context/CartContext.jsx:113-115 | the sum of quantities: 0 for the empty cart, and at least the number of lines when every quantity is positive |
| CartContext.Cart.IsInCart | frontend/src/context/CartContext.jsx:118-120 | `some` agrees with the line `findIndex` finds |

## Left out

- The store's query semantics are not modelled. This covers `$regex` and case-insensitive search, sorting, projection, `populate` and validation. The store is a set of function parameters.
- Logging with `console.error` and the HTTP transport are not modelled.
- ProductHandlers.Product: the Product schema file is not part of this model. A product is reduced to its id and the text of its maker.
- JsonText models only query values that are strings, arrays and objects, which is all the query-string parser yields. Object keys keep their order. JavaScript puts integer-like keys first, and that ordering is not modelled.
- JsNumber.ParseInt: the rounding of integers beyond 2^53 is not modelled. Neither is the float text `String` gives for large or fractional numbers.
- ProductQuery.GetProducts: a thrown `split` on a non-string select or sort is a 500. The model shows this as the listing failing with those parameters.
- ProductQuery.GetProducts keeps the rewrite as written. The corrected filter is stated beside it, not used by it.
- CartContext: `cartTotal` is not modelled. It is a float sum over `parseFloat` prices.
- CartContext: the React state hooks, `localStorage` persistence and `alert` are not modelled. The saved cart is the constructor's argument.
- CartContext.Cart.AddToCart checks the inventory against the cart as last rendered, but updates from the pending state. The model treats each operation as atomic, so the stale-closure interleaving is left out.
- CartContext.Cart.AddToCart bumps the existing line object in place, which the previous list shares. The model updates a value, so that aliasing is left out.
- CartContext.Cart.UpdateQuantity: quantities are integers. A `NaN` quantity, as `parseInt` of an emptied input gives, passes both guards in the source and makes the line and the count `NaN`; that case is not modelled.
- CartContext.Cart.AddToCart: quantities are integers, and the caller passes the quantity. The default of 1 for an omitted quantity is not a separate entry point.
- ProductQuery.StartIndex: `(page - 1) * limit` is an exact integer product. The rounding of the float product beyond 2^53 is not modelled.
- ProductQuery.EndIndex: `page * limit` is an exact integer product. The rounding of the float product beyond 2^53 is not modelled.
- CartContext: a cart line keeps only the product fields the operations read (id, title, price, manageInventory, inventory); the other fields `{...product}` copies are carried along unread and are not modelled.
- ProductQuery.SearchCompiles: the regular-expression syntax of JavaScript is not modelled; whether a pattern compiles is a parameter of the listing.
- CartContext.PriceString: prices are text or integers. A `null` price, whose `toString` throws, is left out.

## Findings

| source | as written | input that shows it | evidently intended | confidence | as-written member | corrected member |
|---|---|---|---|---|---|---|
| backend/controllers/productController.js:36-53 | the operator rewrite runs over the whole JSON text, values included, and its result overrides the status copy | `GET /api/products?status=in-testing`: a hyphen is a word boundary, so the filter asks for status `$in-testing` and matches nothing | only bracket keys that are operators gain `$`; a status value is used as given | high, not executed | ProductQuery.StatusInTestingRewritten | ProductQuery.CorrectedKeepsStrings |
