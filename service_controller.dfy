/**
 * The service catalogue handlers (backend/controllers/serviceController.js):
 * the `pick` whitelist, the active filter of the listing, and the create,
 * update and remove operations on the Service collection. Request bodies are
 * maps from own property name to value.
 */
module ServiceController {
  import opened Wrappers
  import opened Js
  import opened Store
  import opened ServiceModel
  import Sorting

  /** `pick(obj, keys)`: the listed keys that are own properties of `obj`, with their values. */
  function Pick(obj: map<string, Value>, keys: seq<string>): (r: map<string, Value>)
    ensures forall k :: k in r <==> k in keys && k in obj
    ensures forall k :: k in r ==> r[k] == obj[k]
  {
    if keys == [] then map[]
    else
      var acc := Pick(obj, keys[..|keys| - 1]);
      var k := keys[|keys| - 1];
      assert forall x :: x in keys <==> x in keys[..|keys| - 1] || x == k;
      if k in obj then acc[k := obj[k]] else acc
  }

  /** Picking twice with the same keys is picking once. */
  lemma PickIdempotent(obj: map<string, Value>, keys: seq<string>)
    ensures Pick(Pick(obj, keys), keys) == Pick(obj, keys)
  {
  }

  /** The keys `updateService` accepts. */
  const UpdateKeys: seq<string> := ["name", "description", "price", "category", "active"]

  /** `includeInactive !== '1'` adds `active: true`: only "1" includes inactive services; newest first. */
  function ListServices(services: map<Id, Service>, n: nat, includeInactive: Option<string>): (r: seq<Id>)
    ensures forall id :: id in r <==>
      id < n && id in services && (includeInactive != Some("1") ==> services[id].active == Bool(true))
    ensures forall i, j :: 0 <= i < j < |r| ==> r[i] > r[j]
  {
    if includeInactive == Some("1") then Sorting.Newest(services, n, (s: Service) => true)
    else Sorting.Newest(services, n, (s: Service) => s.active == Bool(true))
  }

  /** `getService`: the service, or 404. */
  function GetService(services: map<Id, Service>, id: Id): (r: Result<Service>)
    ensures r.Err? <==> id !in services
    ensures r.Err? ==> r.error == NotFound
    ensures r.Ok? ==> r.value == services[id]
  {
    if id in services then Ok(services[id]) else Err(NotFound)
  }

  function Field(body: map<string, Value>, k: string): Value {
    if k in body then body[k] else Undefined
  }

  /**
   * `Number(price)` for a string price. The cast of the stored path refuses
   * NaN, and an infinite price is refused here as well.
   */
  function PriceValue(v: Value): (r: Result<Value>)
    ensures !v.Str? ==> r == Ok(v)
    ensures v.Str? ==> (r.Ok? <==> StrToNumber(v.s).Finite?)
    ensures v.Str? && r.Ok? ==> r.value == Num(StrToNumber(v.s).i)
    ensures r.Err? ==> r.error == BadRequest
  {
    if !v.Str? then Ok(v)
    else match StrToNumber(v.s)
      case Finite(i) => Ok(Num(i))
      case _ => Err(BadRequest)
  }

  /**
   * `createService`: 400 when name is falsy or price is undefined or null;
   * the service is active, belongs to the caller (or to nobody), and a string
   * price is stored as its number.
   */
  function NewService(caller: Option<Caller>, body: map<string, Value>): (r: Result<Service>)
    ensures !Truthy(Field(body, "name")) || Nullish(Field(body, "price")) ==> r == Err(BadRequest)
    ensures r.Err? ==> r.error == BadRequest
    ensures r.Ok? ==> Truthy(r.value.name) && !Nullish(r.value.price) && r.value.active == Bool(true)
    ensures r.Ok? ==> r.value.provider == if caller.Some? then Some(caller.value.id) else None
    ensures r.Ok? ==>
      r.value.name == Field(body, "name") && r.value.description == Field(body, "description")
      && r.value.category == Field(body, "category")
    ensures r.Ok? ==> PriceValue(Field(body, "price")) == Ok(r.value.price)
    ensures Truthy(Field(body, "name")) && !Nullish(Field(body, "price")) && !Field(body, "price").Str? ==> r.Ok?
  {
    var name := Field(body, "name");
    var price := Field(body, "price");
    if !Truthy(name) || Nullish(price) then Err(BadRequest)
    else
      match PriceValue(price)
      case Err(e) => Err(e)
      case Ok(p) =>
        Ok(Service(name, Field(body, "description"), p, Field(body, "category"),
                   if caller.Some? then Some(caller.value.id) else None, Bool(true)))
  }

  /** `POST /api/services`: the new service takes the next id. */
  method CreateService(db: Db, caller: Option<Caller>, body: map<string, Value>) returns (r: Result<Id>)
    requires db.Valid()
    modifies db`services, db`nextId
    ensures db.Valid()
    ensures var d := NewService(caller, body);
      (d.Err? ==> r == Err(d.error) && db.services == old(db.services) && db.nextId == old(db.nextId))
      && (d.Ok? ==> r == Ok(old(db.nextId)) && db.services == old(db.services)[old(db.nextId) := d.value])
  {
    var d := NewService(caller, body);
    if d.Err? {
      return Err(d.error);
    }
    var id := db.NewId();
    db.services := db.services[id := d.value];
    return Ok(id);
  }

  /** The service with the picked updates applied, path by path. */
  function Updated(s: Service, updates: map<string, Value>): (r: Service)
    ensures r.provider == s.provider
    ensures r.name == if "name" in updates then updates["name"] else s.name
    ensures r.description == if "description" in updates then updates["description"] else s.description
    ensures r.price == if "price" in updates then updates["price"] else s.price
    ensures r.category == if "category" in updates then updates["category"] else s.category
    ensures r.active == if "active" in updates then updates["active"] else s.active
  {
    Service(
      if "name" in updates then updates["name"] else s.name,
      if "description" in updates then updates["description"] else s.description,
      if "price" in updates then updates["price"] else s.price,
      if "category" in updates then updates["category"] else s.category,
      s.provider,
      if "active" in updates then updates["active"] else s.active)
  }

  /**
   * `updateService`: the picked fields, a string price as its number; a
   * price that does not cast fails the query (400) before the lookup, and an
   * unknown id is 404.
   */
  function UpdateDecision(services: map<Id, Service>, id: Id, body: map<string, Value>): (r: Result<Service>)
    ensures r == Err(NotFound) <==> id !in services && ("price" in body ==> PriceValue(body["price"]).Ok?)
    ensures r.Ok? ==> id in services && r.value.provider == services[id].provider
    ensures r.Ok? && "price" in body ==> PriceValue(body["price"]) == Ok(r.value.price)
    ensures r.Ok? && "price" !in body ==> r.value.price == services[id].price
    ensures r.Ok? ==> r.value.name == (if "name" in body then body["name"] else services[id].name)
    ensures r.Ok? ==> r.value.description == (if "description" in body then body["description"] else services[id].description)
    ensures r.Ok? ==> r.value.category == (if "category" in body then body["category"] else services[id].category)
    ensures r.Ok? ==> r.value.active == (if "active" in body then body["active"] else services[id].active)
    ensures r.Err? && r.error != NotFound ==> r.error == BadRequest
  {
    var updates := Pick(body, UpdateKeys);
    var price := if "price" in updates then PriceValue(updates["price"]) else Ok(Undefined);
    if price.Err? then Err(BadRequest)
    else if id !in services then Err(NotFound)
    else
      var fixed := if "price" in updates then updates["price" := price.value] else updates;
      Ok(Updated(services[id], fixed))
  }

  /** A body with none of the accepted keys leaves a service as it was; anything else in it is ignored. */
  lemma UpdateIgnoresOtherKeys(services: map<Id, Service>, id: Id, body: map<string, Value>)
    requires id in services && forall k :: k in UpdateKeys ==> k !in body
    ensures UpdateDecision(services, id, body) == Ok(services[id])
  {
    assert Pick(body, UpdateKeys) == map[];
  }

  /** `PUT /api/services/:id`. */
  method UpdateService(db: Db, id: Id, body: map<string, Value>) returns (r: Result<Service>)
    requires db.Valid()
    modifies db`services
    ensures db.Valid()
    ensures r == UpdateDecision(old(db.services), id, body)
    ensures db.services == if r.Ok? then old(db.services)[id := r.value] else old(db.services)
  {
    r := UpdateDecision(db.services, id, body);
    if r.Ok? {
      db.services := db.services[id := r.value];
    }
  }

  /** `DELETE /api/services/:id`: 404 when absent, otherwise the service is gone and nothing else changes. */
  method RemoveService(db: Db, id: Id) returns (r: Result<()>)
    requires db.Valid()
    modifies db`services
    ensures db.Valid()
    ensures r.Err? <==> id !in old(db.services)
    ensures r.Err? ==> r.error == NotFound && db.services == old(db.services)
    ensures r.Ok? ==> db.services == old(db.services) - {id}
    ensures id !in db.services
  {
    if id !in db.services {
      return Err(NotFound);
    }
    db.services := db.services - {id};
    return Ok(());
  }
}
