/**
 * The product controller: seven request handlers over the `product` table.
 *
 * The table is a class holding the rows by id and the next value of the
 * SERIAL sequence. Each handler takes the authenticated caller (if any), the
 * parsed path parameter and the request body, and returns the effects it
 * produced: a single `next(error)` or a single JSON response.
 */
module ProductController {
  import opened Wrappers
  import opened Js
  import opened Express
  import opened ProductEntity

  /** The principal attached to the request by the authentication middleware. */
  datatype User = User(role: string)

  /** `req.body` as destructured by the handlers. */
  datatype ProductBody = ProductBody(
    name: Option<string>,
    description: Option<string>,
    price: Option<int>,
    image: Option<seq<string>>,
    stock: Option<int>,
    productCode: Option<string>)

  /** The JSON bodies the handlers write. */
  datatype Reply =
    | Record(product: Option<Product>)                  // `res.json(product)`, null when absent
    | Records(products: seq<Product>)                   // `res.json(products)`
    | Message(message: string, product: Option<Product>) // `{ message, product }` or `{ message }`

  const Unauthorized := HttpError(401, "Unauthorized")
  const Forbidden := HttpError(403, "Forbidden")
  const MissingFields := HttpError(400, "All fields are required")
  const NotFound := HttpError(404, "Product not found")

  predicate IsAdmin(user: Option<User>) {
    user.Some? && user.value.role == "admin"
  }

  /**
   * The guard every mutating handler runs first: no caller is 401, a caller
   * whose role is not exactly "admin" is 403, and only an admin passes.
   */
  function Authorize(user: Option<User>): (denied: Option<HttpError>)
    ensures user.None? ==> denied == Some(Unauthorized)
    ensures user.Some? && user.value.role != "admin" ==> denied == Some(Forbidden)
    ensures denied.None? <==> IsAdmin(user)
  {
    if user.None? then Some(Unauthorized)
    else if user.value.role != "admin" then Some(Forbidden)
    else None
  }

  /** `fields.some((field) => !field)`. */
  function SomeFalsy(fields: seq<JsValue>): (r: bool)
    ensures r <==> exists i :: 0 <= i < |fields| && Falsy(fields[i])
  {
    if fields == [] then false
    else Falsy(fields[0]) || SomeFalsy(fields[1..])
  }

  /** What `checkRequiredFields` returns, together with the errors it passed to `next`. */
  datatype FieldCheck = FieldCheck(missing: bool, forwarded: seq<HttpError>)

  /**
   * `checkRequiredFields`: reports a missing field, and forwards exactly one
   * 400 error, precisely when some field is falsy; otherwise forwards nothing.
   */
  function CheckRequiredFields(fields: seq<JsValue>): (r: FieldCheck)
    ensures r.missing <==> exists i :: 0 <= i < |fields| && Falsy(fields[i])
    ensures r.missing ==> r.forwarded == [MissingFields]
    ensures !r.missing ==> r.forwarded == []
  {
    if SomeFalsy(fields) then FieldCheck(true, [MissingFields])
    else FieldCheck(false, [])
  }

  /** The fields `createProduct` requires, in the order it lists them. `image` is not among them. */
  function RequiredFields(body: ProductBody): (fields: seq<JsValue>)
    ensures |fields| == 5
    ensures (exists i :: 0 <= i < |fields| && Falsy(fields[i])) <==> !Complete(body)
  {
    var fields := [OfString(body.name), OfString(body.description), OfNumber(body.price),
                   OfNumber(body.stock), OfString(body.productCode)];
    assert !Complete(body) ==> Falsy(fields[0]) || Falsy(fields[1]) || Falsy(fields[2])
                               || Falsy(fields[3]) || Falsy(fields[4]);
    fields
  }

  /** A body passes the create validation: none of the required fields is absent, "" or 0. */
  predicate Complete(body: ProductBody) {
    && body.name.Some? && body.name.value != ""
    && body.description.Some? && body.description.value != ""
    && body.price.Some? && body.price.value != 0
    && body.stock.Some? && body.stock.value != 0
    && body.productCode.Some? && body.productCode.value != ""
  }

  /** Every row is stored under its own id. */
  ghost predicate Keyed(rows: map<int, Product>) {
    forall k :: k in rows ==> rows[k].id == k
  }

  /** The rows whose ids lie in [lo, hi), in ascending id order. */
  function RowsFrom(rows: map<int, Product>, lo: int, hi: int): (r: seq<Product>)
    requires Keyed(rows)
    ensures forall i :: 0 <= i < |r| ==> lo <= r[i].id < hi && r[i].id in rows && rows[r[i].id] == r[i]
    ensures forall i, j :: 0 <= i < j < |r| ==> r[i].id < r[j].id
    ensures forall k :: k in rows && lo <= k < hi ==> rows[k] in r
    decreases hi - lo
  {
    if lo >= hi then []
    else if lo in rows then [rows[lo]] + RowsFrom(rows, lo + 1, hi)
    else RowsFrom(rows, lo + 1, hi)
  }

  /** A lookup by id hits: the id parsed, and a row with that id exists. */
  predicate Found(rows: map<int, Product>, id: Option<int>) {
    id.Some? && id.value in rows
  }

  class ProductStore {
    /** The `product` table, by id. */
    var rows: map<int, Product>
    /** The next value the SERIAL sequence hands out. */
    var nextId: int

    ghost predicate Valid()
      reads this
    {
      && 1 <= nextId
      && Keyed(rows)
      && forall k :: k in rows ==> 1 <= k < nextId
    }

    constructor ()
      ensures Valid()
      ensures rows == map[] && nextId == 1
    {
      rows := map[];
      nextId := 1;
    }

    /** `Product.findOne({ where: { id } })`: the row with that id, or none; an id that did not parse matches nothing. */
    method FindById(id: Option<int>) returns (found: Option<Product>)
      requires Valid()
      ensures found.Some? <==> Found(rows, id)
      ensures found.Some? ==> found.value == rows[id.value] && found.value.id == id.value
    {
      if id.Some? && id.value in rows {
        found := Some(rows[id.value]);
      } else {
        found := None;
      }
    }

    /** `Product.findOne({ where: { productCode } })`: some row with that code (codes are not unique), or none. */
    method FindByCode(code: string) returns (found: Option<Product>)
      requires Valid()
      ensures found.Some? <==> exists k :: k in rows && rows[k].productCode == Some(code)
      ensures found.Some? ==> found.value.id in rows && rows[found.value.id] == found.value
      ensures found.Some? ==> found.value.productCode == Some(code)
    {
      if exists k :: k in rows && rows[k].productCode == Some(code) {
        var k :| k in rows && rows[k].productCode == Some(code);
        found := Some(rows[k]);
      } else {
        found := None;
      }
    }

    /**
     * `createProduct`: 401, then 403, then 400 when a required field is
     * falsy, each leaving the table as it was; otherwise inserts one record
     * under a fresh id and answers 201 with it.
     */
    method CreateProduct(user: Option<User>, body: ProductBody) returns (effects: seq<Effect<Reply>>)
      requires Valid()
      modifies this
      ensures Valid() && nextId >= old(nextId)
      ensures user.None? ==> effects == [Next(Unauthorized)] && unchanged(this)
      ensures user.Some? && user.value.role != "admin" ==> effects == [Next(Forbidden)] && unchanged(this)
      ensures IsAdmin(user) && !Complete(body) ==> effects == [Next(MissingFields)] && unchanged(this)
      ensures IsAdmin(user) && Complete(body) ==>
        var p := Product(old(nextId), body.name, body.description, body.price, body.image, body.stock, body.productCode);
        && old(nextId) !in old(rows)
        && rows == old(rows)[old(nextId) := p]
        && nextId == old(nextId) + 1
        && effects == [Respond(201, Message("Product created successfully", Some(p)))]
    {
      var denied := Authorize(user);
      if denied.Some? {
        effects := [Next(denied.value)];
        return;
      }
      var check := CheckRequiredFields(RequiredFields(body));
      if check.missing {
        effects := seq(|check.forwarded|, i requires 0 <= i < |check.forwarded| => Next(check.forwarded[i]));
        return;
      }
      // Product.create(...) then save(): the SERIAL sequence supplies the id.
      var product := Product(nextId, body.name, body.description, body.price, body.image, body.stock, body.productCode);
      rows := rows[product.id := product];
      nextId := nextId + 1;
      effects := [Respond(201, Message("Product created successfully", Some(product)))];
    }

    /** `getAllProducts`: 200 with every row exactly once, in ascending id order. */
    method GetAllProducts() returns (effects: seq<Effect<Reply>>)
      requires Valid()
      ensures |effects| == 1 && effects[0].Respond? && effects[0].status == 200 && effects[0].body.Records?
      ensures var ps := effects[0].body.products;
        && (forall i :: 0 <= i < |ps| ==> ps[i].id in rows && rows[ps[i].id] == ps[i])
        && (forall i, j :: 0 <= i < j < |ps| ==> ps[i].id < ps[j].id)
        && (forall k :: k in rows ==> rows[k] in ps)
    {
      var products := RowsFrom(rows, 1, nextId);
      effects := [Respond(200, Records(products))];
    }

    /** `getProductById`: always 200, with the row of that id or null (also when the id does not parse). */
    method GetProductById(id: Option<int>) returns (effects: seq<Effect<Reply>>)
      requires Valid()
      ensures |effects| == 1 && effects[0].Respond? && effects[0].status == 200 && effects[0].body.Record?
      ensures effects[0].body.product.Some? <==> Found(rows, id)
      ensures effects[0].body.product.Some? ==> effects[0].body.product.value == rows[id.value]
    {
      var product := FindById(id);
      effects := [Respond(200, Record(product))];
    }

    /**
     * `updateProduct`: 401, then 403, then 404 when no row has that id, each
     * leaving the table as it was; otherwise overwrites name, description,
     * price, image and productCode with the body's values (absent ones
     * included), keeps id and stock, and answers 200 with the record.
     */
    method UpdateProduct(user: Option<User>, id: Option<int>, body: ProductBody) returns (effects: seq<Effect<Reply>>)
      requires Valid()
      modifies this
      ensures Valid() && nextId == old(nextId)
      ensures user.None? ==> effects == [Next(Unauthorized)] && unchanged(this)
      ensures user.Some? && user.value.role != "admin" ==> effects == [Next(Forbidden)] && unchanged(this)
      ensures IsAdmin(user) && !Found(old(rows), id) ==> effects == [Next(NotFound)] && unchanged(this)
      ensures IsAdmin(user) && Found(old(rows), id) ==>
        var before := old(rows)[id.value];
        var p := Product(before.id, body.name, body.description, body.price, body.image, before.stock, body.productCode);
        && p.id == id.value
        && rows == old(rows)[id.value := p]
        && effects == [Respond(200, Message("Product updated successfully", Some(p)))]
    {
      var denied := Authorize(user);
      if denied.Some? {
        effects := [Next(denied.value)];
        return;
      }
      var found := FindById(id);
      if found.None? {
        effects := [Next(NotFound)];
        return;
      }
      var product := found.value;
      product := product.(name := body.name);
      product := product.(description := body.description);
      product := product.(price := body.price);
      product := product.(image := body.image);
      product := product.(productCode := body.productCode);
      // save(): the record goes back under its own id.
      rows := rows[product.id := product];
      effects := [Respond(200, Message("Product updated successfully", Some(product)))];
    }

    /**
     * `deleteProduct`: 401, then 403, then 404 when no row has that id, each
     * leaving the table as it was; otherwise removes exactly that row and
     * answers 200 with a confirmation.
     */
    method DeleteProduct(user: Option<User>, id: Option<int>) returns (effects: seq<Effect<Reply>>)
      requires Valid()
      modifies this
      ensures Valid() && nextId == old(nextId)
      ensures user.None? ==> effects == [Next(Unauthorized)] && unchanged(this)
      ensures user.Some? && user.value.role != "admin" ==> effects == [Next(Forbidden)] && unchanged(this)
      ensures IsAdmin(user) && !Found(old(rows), id) ==> effects == [Next(NotFound)] && unchanged(this)
      ensures IsAdmin(user) && Found(old(rows), id) ==>
        && rows == old(rows) - {id.value}
        && effects == [Respond(200, Message("Product deleted successfully", None))]
    {
      var denied := Authorize(user);
      if denied.Some? {
        effects := [Next(denied.value)];
        return;
      }
      var found := FindById(id);
      if found.None? {
        effects := [Next(NotFound)];
        return;
      }
      // remove(): deletes the row by the record's own id.
      rows := rows - {found.value.id};
      effects := [Respond(200, Message("Product deleted successfully", None))];
    }

    /** `getProductByProductCode`: always 200, with some row carrying that code, or null when none does. */
    method GetProductByProductCode(productCode: string) returns (effects: seq<Effect<Reply>>)
      requires Valid()
      ensures |effects| == 1 && effects[0].Respond? && effects[0].status == 200 && effects[0].body.Record?
      ensures effects[0].body.product.Some? <==> exists k :: k in rows && rows[k].productCode == Some(productCode)
      ensures effects[0].body.product.Some? ==>
        var p := effects[0].body.product.value;
        p.id in rows && rows[p.id] == p && p.productCode == Some(productCode)
    {
      var product := FindByCode(productCode);
      effects := [Respond(200, Record(product))];
    }

    /**
     * `updateProductStock`: 401, then 403, then 404 when no row has that id,
     * each leaving the table as it was; otherwise replaces only the stock of
     * that row with the body's value and answers 200 with the record.
     */
    method UpdateProductStock(user: Option<User>, id: Option<int>, body: ProductBody) returns (effects: seq<Effect<Reply>>)
      requires Valid()
      modifies this
      ensures Valid() && nextId == old(nextId)
      ensures user.None? ==> effects == [Next(Unauthorized)] && unchanged(this)
      ensures user.Some? && user.value.role != "admin" ==> effects == [Next(Forbidden)] && unchanged(this)
      ensures IsAdmin(user) && !Found(old(rows), id) ==> effects == [Next(NotFound)] && unchanged(this)
      ensures IsAdmin(user) && Found(old(rows), id) ==>
        var p := old(rows)[id.value].(stock := body.stock);
        && rows == old(rows)[id.value := p]
        && effects == [Respond(200, Message("Product stock updated successfully", Some(p)))]
    {
      var denied := Authorize(user);
      if denied.Some? {
        effects := [Next(denied.value)];
        return;
      }
      var found := FindById(id);
      if found.None? {
        effects := [Next(NotFound)];
        return;
      }
      var product := found.value;
      product := product.(stock := body.stock);
      rows := rows[product.id := product];
      effects := [Respond(200, Message("Product stock updated successfully", Some(product)))];
    }
  }
}
