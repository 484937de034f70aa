# Product backend: controller and error handler

This project models the product service of a small Express/TypeORM shop
backend. It covers the seven product request handlers and the global error
handler that turns forwarded errors into JSON responses.

- `ProductEntity` holds the `product` record. Every field except `id` is
  optional, because an update can write `undefined` into a record.
- `ProductController` holds the handlers, written as methods of `ProductStore`.
  That class stands in for the table: a map from id to record, plus the next
  value of the SERIAL sequence. Each handler takes:
  - the authenticated caller, if any;
  - the parsed path parameter (`parseInt(id)` becomes `Option<int>`, where
    `None` matches no row);
  - the request body.

  It returns the list of its observable effects: calls to `next(error)` and
  `res.status(..).json(..)`. Each handler's contract fixes the whole new
  table on every path:
  - the 401 check comes before the 403 check, and both come before
    validation or lookup;
  - error paths leave the table unchanged;
  - create adds one record under a fresh id;
  - update overwrites name, description, price, image and productCode, and
    keeps id and stock;
  - update-stock replaces only stock;
  - delete removes exactly the requested id.

  The read handlers change nothing and always answer 200.
- `Js` models JavaScript's `!v` test (absent, `""` and `0` are falsy) and
  the `a || b` default.
- `Express` models the two things a handler can do with a request.
- `ErrorHandler` models `globalErrorHandler` as a pure function.
- `Scenarios` joins the two components the way the application registers
  them: router first, error handler last. It also contains runs of several
  handlers: delete twice, create then fetch by id and by code, and a create / update-stock /
  refused-delete / delete story.

`config.env` and the error's stack trace are parameters.
`configs/config.ts` is not part of this model. The authentication and admin
middlewares that `productRoute.ts` chains are not part of this model either.
Only the checks inside the controller are modelled.

The error handler exposes the stack trace only when `config.env` is
exactly `"DEVELOPMENT"`. Any other value, including `"development"` or
`"test"`, gets the empty string (backend/middleware/globalErrorHandler.ts:15).

## Model

| member | source | states |
|---|---|---|
| Js.Or | backend/middleware/globalErrorHandler.ts:11 | JavaScript's or-default on a possibly-undefined number: `a` when set and non-zero, otherwise `b` |
| Js.Falsy | backend/services/products/productController.ts:15 | `!v` holds for `undefined`, for a string exactly when it is empty and for a number exactly when it is zero |
| ProductController.RequiredFields | backend/services/products/productController.ts:35 | the five fields name, description, price, stock and productCode, with image not among them; some of them is falsy exactly when the body fails the create validation |
| ProductController.Authorize | backend/services/products/productController.ts:24-32 | no caller gives 401; a role other than exactly "admin" gives 403; the guard passes exactly for admin callers |
| ProductController.SomeFalsy | backend/services/products/productController.ts:15 | true exactly when some listed field is absent, `""` or `0` |
| ProductController.CheckRequiredFields | backend/services/products/productController.ts:11-20 | reports a missing field and forwards exactly one 400 "All fields are required" iff some field is falsy; otherwise reports none and forwards nothing |
| ProductController.RowsFrom | backend/services/products/productController.ts:45 | lists only stored rows with ids in range, each exactly once in strictly ascending id order, and lists every stored row in range |
| ProductController.ProductStore.constructor | backend/database/migrations/1750839586395-addedProductEntity.ts:7 | a new table is empty and its SERIAL sequence starts at 1 |
| ProductController.ProductStore.FindById | backend/services/products/productController.ts:51 | finds a row iff the id parsed and is stored; the row found is the one stored under that id |
| ProductController.ProductStore.FindByCode | backend/services/products/productController.ts:104 | finds a row iff some stored row has that product code; the row found is a stored row with that code |
| ProductController.ProductStore.CreateProduct | backend/services/products/productController.ts:23-41 | 401, then 403, then 400 when name, description, price, stock or productCode is falsy (image unchecked), each with the table unchanged; otherwise one new record under a fresh id with the body's fields, other rows untouched, answer 201 with the record |
| ProductController.ProductStore.GetAllProducts | backend/services/products/productController.ts:44-47 | answers 200 with every stored row exactly once and nothing else; the table is read only |
| ProductController.ProductStore.GetProductById | backend/services/products/productController.ts:49-53 | answers 200 with the row stored under the id, or null when the id is absent or did not parse; the table is read only |
| ProductController.ProductStore.UpdateProduct | backend/services/products/productController.ts:55-79 | 401, then 403, then 404 for an unknown id, each with the table unchanged; otherwise name, description, price, image and productCode become the body's values even when absent, id and stock stay, other rows untouched, answer 200 with the record |
| ProductController.ProductStore.DeleteProduct | backend/services/products/productController.ts:81-99 | 401, then 403, then 404 for an unknown id, each with the table unchanged; otherwise exactly that id is removed and the answer is 200 with a confirmation |
| ProductController.ProductStore.GetProductByProductCode | backend/services/products/productController.ts:102-106 | answers 200 with some stored row carrying that code, or null iff no row carries it; the table is read only |
| ProductController.ProductStore.UpdateProductStock | backend/services/products/productController.ts:109-129 | 401, then 403, then 404 for an unknown id, each with the table unchanged; otherwise only that row's stock changes, to the body's value, answer 200 with the record |
| ErrorHandler.GlobalErrorHandler | backend/middleware/globalErrorHandler.ts:5-17 | exactly one response and no call to next; status is the error's when set and non-zero, else 500; message is the error's; errorStack is the stack iff the environment is exactly "DEVELOPMENT", else `""` |
| Scenarios.ClientStatus | backend/app.ts:20-24 | a handler's response reaches the client with its own status; a forwarded error reaches it with the error's status (500 if that is zero) |
| Scenarios.DeleteTwice | backend/services/products/productController.ts:81-99 | deleting a stored id twice as admin answers 200 and then 404, and removes only that id |
| Scenarios.CreateThenFetch | backend/services/products/productController.ts:23-53 | a record an admin creates is then returned by id with exactly the submitted fields under the fresh id |
| Scenarios.CreateThenFetchByCode | backend/services/products/productController.ts:102-106 | a record an admin creates is then returned by its product code with exactly the submitted fields, when no stored row already had that code (codes are not unique) |
| Scenarios.MouseScenario | backend/services/products/productController.ts:23-129 | on an empty table: create 201, stock update 200, customer delete 403, fetch by id and by code 200 with stock 3 and the other fields as created, admin delete 200, second delete 404 |

## Left out

- Asynchronous execution and concurrent requests are not modelled. Each handler is one atomic step, so the unguarded read-modify-write of `stock` under concurrency is not captured.
- Persistence failures are not modelled. One cause is a lost connection. Another is a NOT NULL violation when an update writes JSON `null` into a required column, as in `{name: null}` or `{stock: null}` (backend/services/products/productController.ts:77, 127). The model treats `null` and `undefined` the same on these two paths, so those requests answer 200 in the model, while in the program `save()` fails. A rejected `save()` reaches the error handler as a 500 only if Express forwards rejected promises from `async` handlers (Express 5); the handlers have no try/catch, and the Express version is not part of this model. In the model the table is a plain map and each save succeeds.
- TypeORM's own behaviour on save is not modelled: it skips properties that are `undefined` when it writes a row. The model stores the in-memory record that the handler saved and returned.
- `Product.find()` returns rows in the database's order, which is unspecified. `RowsFrom` lists them in ascending id order, which is one permitted order.
- `parseInt` is abstracted to an already-parsed `Option<int>`. Partial parses such as `"12abc"` → 12 are not modelled.
- `price`, `stock` and the id are modelled as unbounded integers, but JavaScript numbers are doubles and the columns are 32-bit `integer`/`SERIAL`. Fractional values such as `price: 19.99` pass the `!field` test and the database then rejects them; the model cannot express them. Values outside the 32-bit range are also not modelled: `GET /products/3000000000` answers 200 with null in the model, while the database rejects the value. The `nextId` counter never hits the sequence's upper bound.
- Body fields carry the entity's field kinds (text, number, list of text). JSON values of other types (a numeric string for `price`, booleans, `NaN`) are not modelled. `null` is treated like an absent field.
- The text of the stack trace that `createHttpError` attaches is a parameter. So is `config.env`.
- JSON serialisation, the `http-errors` library, the `authMiddleware`/`isAdmin` route guards, `app.ts` bootstrapping, the ORM configuration and the migration's DDL are not modelled. The only thing taken from the migration is that ids start at 1.
