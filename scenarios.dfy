/**
 * The application's wiring of the two components: the product router's
 * handlers run first, and whatever they pass to `next` reaches the global
 * error handler, which writes the response the client sees. Below it, runs
 * of several handlers whose outcome follows from the handlers' contracts.
 */
module Scenarios {
  import opened Wrappers
  import opened Express
  import opened ProductEntity
  import opened ProductController
  import opened ErrorHandler

  /** The status the client receives for a handler's effect, after the global error handler. */
  function ClientStatus(effect: Effect<Reply>, stack: Option<string>, env: Option<string>): (status: int)
    ensures effect.Respond? ==> status == effect.status
    ensures effect.Next? && effect.error.statusCode != 0 ==> status == effect.error.statusCode
    ensures effect.Next? && effect.error.statusCode == 0 ==> status == 500
  {
    match effect
    case Respond(s, _) => s
    case Next(e) => GlobalErrorHandler(Raised(e, stack), env)[0].status
  }

  /** Deleting the same id twice as an admin: 200, then 404. */
  method DeleteTwice(store: ProductStore, id: int) returns (first: seq<Effect<Reply>>, second: seq<Effect<Reply>>)
    requires store.Valid() && id in store.rows
    modifies store
    ensures store.Valid() && store.rows == old(store.rows) - {id}
    ensures first == [Respond(200, Message("Product deleted successfully", None))]
    ensures second == [Next(NotFound)]
  {
    var admin := Some(User("admin"));
    first := store.DeleteProduct(admin, Some(id));
    second := store.DeleteProduct(admin, Some(id));
  }

  /** A product an admin creates is returned by id with exactly the submitted fields. */
  method CreateThenFetch(store: ProductStore, body: ProductBody) returns (created: seq<Effect<Reply>>, fetched: seq<Effect<Reply>>)
    requires store.Valid() && Complete(body)
    modifies store
    ensures store.Valid()
    ensures var p := Product(old(store.nextId), body.name, body.description, body.price, body.image, body.stock, body.productCode);
      && created == [Respond(201, Message("Product created successfully", Some(p)))]
      && fetched == [Respond(200, Record(Some(p)))]
  {
    var admin := Some(User("admin"));
    created := store.CreateProduct(admin, body);
    var id := store.nextId - 1;
    fetched := store.GetProductById(Some(id));
  }

  /**
   * A product an admin creates is returned by its product code with exactly
   * the submitted fields, provided no stored row already carries that code.
   * Codes are not unique and the lookup may return any row that carries the
   * code, so without that proviso the fetch may answer with another row.
   */
  method CreateThenFetchByCode(store: ProductStore, body: ProductBody) returns (created: seq<Effect<Reply>>, fetched: seq<Effect<Reply>>)
    requires store.Valid() && Complete(body)
    requires forall k :: k in store.rows ==> store.rows[k].productCode != body.productCode
    modifies store
    ensures store.Valid()
    ensures var p := Product(old(store.nextId), body.name, body.description, body.price, body.image, body.stock, body.productCode);
      && created == [Respond(201, Message("Product created successfully", Some(p)))]
      && fetched == [Respond(200, Record(Some(p)))]
  {
    var admin := Some(User("admin"));
    ghost var id := store.nextId;
    created := store.CreateProduct(admin, body);
    assert id in store.rows && store.rows[id].productCode == Some(body.productCode.value);
    assert forall k :: k in store.rows && k != id ==> store.rows[k].productCode != body.productCode;
    fetched := store.GetProductByProductCode(body.productCode.value);
  }

  /**
   * On an empty table: an admin creates a mouse (201), sets its stock to 3
   * (200), a customer's delete is refused (403) and the record is still
   * there by id and by code (200, 200) with stock 3; an admin then deletes
   * it (200) and a second delete finds nothing (404).
   */
  method MouseScenario(stack: Option<string>, env: Option<string>) returns (statuses: seq<int>, kept: Option<Product>, byCode: Option<Product>)
    ensures statuses == [201, 200, 403, 200, 200, 200, 404]
    ensures kept == Some(Product(1, Some("Mouse"), Some("Wireless"), Some(20), None, Some(3), Some("MS-01")))
    ensures byCode == kept
  {
    var store := new ProductStore();
    var admin := Some(User("admin"));
    var customer := Some(User("customer"));
    var mouse := ProductBody(Some("Mouse"), Some("Wireless"), Some(20), None, Some(5), Some("MS-01"));
    var e1 := store.CreateProduct(admin, mouse);
    var e2 := store.UpdateProductStock(admin, Some(1), ProductBody(None, None, None, None, Some(3), None));
    var e3 := store.DeleteProduct(customer, Some(1));
    var e4 := store.GetProductById(Some(1));
    var e5 := store.GetProductByProductCode("MS-01");
    assert store.rows == map[1 := Product(1, Some("Mouse"), Some("Wireless"), Some(20), None, Some(3), Some("MS-01"))];
    var e6 := store.DeleteProduct(admin, Some(1));
    var e7 := store.DeleteProduct(admin, Some(1));
    statuses := [ClientStatus(e1[0], stack, env), ClientStatus(e2[0], stack, env), ClientStatus(e3[0], stack, env),
                 ClientStatus(e4[0], stack, env), ClientStatus(e5[0], stack, env), ClientStatus(e6[0], stack, env),
                 ClientStatus(e7[0], stack, env)];
    kept := e4[0].body.product;
    byCode := e5[0].body.product;
  }
}
