/**
 * A Service record with the fields serviceController.js reads and writes
 * (name, description, price, category, provider, active), each held as the
 * value the controller stores.
 */
module ServiceModel {
  import opened Wrappers
  import opened Js

  datatype Service = Service(
    name: Value,
    description: Value,
    price: Value,
    category: Value,
    provider: Option<Id>,
    active: Value)
}
