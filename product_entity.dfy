/**
 * The `product` table's record. Every field except `id` may hold `undefined`,
 * because an update writes request-body values into the record unchecked.
 * Numbers are unbounded integers: the columns' 32-bit range and fractional
 * JavaScript numbers are outside the model.
 */
module ProductEntity {
  import opened Wrappers

  datatype Product = Product(
    id: int,                          // SERIAL primary key, assigned on insert
    name: Option<string>,
    description: Option<string>,
    price: Option<int>,
    image: Option<seq<string>>,       // simple-array column, nullable
    stock: Option<int>,
    productCode: Option<string>)     // not unique
}
