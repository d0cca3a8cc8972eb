/** The four request handlers of the phones route group. Each queries or
    changes the injected store, then maps the store's answer to a response. */
module Api {
  import opened Store
  import opened Directory

  /** GET /phones/{phone}: the stored pair, or "not found"; reads only. */
  method GetAddress(phone: Phone, redis: FakeRedis) returns (resp: Response)
    ensures phone !in redis.store ==> resp == NotFound(NotFoundDetail) && Status(resp) == 404
    ensures phone in redis.store ==> resp == Ok(Record(phone, redis.store[phone])) && Status(resp) == 200
    ensures Outcome(resp, redis.store) == Handle(redis.store, Get(phone))
  {
    var address := redis.Get(phone);
    if address.None? {
      return NotFound(NotFoundDetail);
    }
    resp := Ok(Record(phone, address.value));
  }

  /** POST /phones: stores a new pair; a phone already present is a conflict. */
  method CreatePhoneAddress(phone: Phone, address: Address, redis: FakeRedis) returns (resp: Response)
    modifies redis
    ensures phone in old(redis.store) ==>
      resp == Conflict(ConflictDetail) && redis.store == old(redis.store)
    ensures phone !in old(redis.store) ==>
      resp == Created(Record(phone, address)) && Status(resp) == 201 &&
      redis.store == old(redis.store)[phone := address]
    ensures Outcome(resp, redis.store) == Handle(old(redis.store), Create(phone, address))
  {
    var present := redis.Exists(phone);
    if present != 0 {
      return Conflict(ConflictDetail);
    }
    var _ := redis.Set(phone, address);
    resp := Created(Record(phone, address));
  }

  /** PUT /phones/{phone}: replaces the address of a present phone; creates nothing. */
  method UpdateAddress(phone: Phone, address: Address, redis: FakeRedis) returns (resp: Response)
    modifies redis
    ensures phone !in old(redis.store) ==>
      resp == NotFound(NotFoundDetail) && redis.store == old(redis.store)
    ensures phone in old(redis.store) ==>
      resp == Ok(Record(phone, address)) && Status(resp) == 200 &&
      redis.store == old(redis.store)[phone := address]
    ensures Outcome(resp, redis.store) == Handle(old(redis.store), Update(phone, address))
  {
    var present := redis.Exists(phone);
    if present == 0 {
      return NotFound(NotFoundDetail);
    }
    var _ := redis.Set(phone, address);
    resp := Ok(Record(phone, address));
  }

  /** DELETE /phones/{phone}: removes the phone; "not found" when nothing was removed. */
  method DeletePhoneAddress(phone: Phone, redis: FakeRedis) returns (resp: Response)
    modifies redis
    ensures phone !in old(redis.store) ==>
      resp == NotFound(NotFoundDetail) && redis.store == old(redis.store)
    ensures phone in old(redis.store) ==>
      resp == NoContent && Status(resp) == 204 && redis.store == old(redis.store) - {phone}
    ensures Outcome(resp, redis.store) == Handle(old(redis.store), Delete(phone))
  {
    var deleted := redis.Delete(phone);
    if deleted == 0 {
      assert redis.store == old(redis.store);
      return NotFound(NotFoundDetail);
    }
    resp := NoContent;
  }
}
