/** The phone-to-address directory as a specification: what each request
    does to the table and what it answers, and what a sequence of requests
    does. The handlers in module Api are proved against `Handle`. */
module Directory {

  type Phone = string
  type Address = string
  /** The store's contents: at most one address per exact phone string. */
  type Table = map<Phone, Address>

  /** The phone/address pair a successful response carries. */
  datatype Record = Record(phone: Phone, address: Address)

  /** What a handler answers: a success with or without a body, or an error with a detail. */
  datatype Response =
    | Ok(record: Record)
    | Created(record: Record)
    | NoContent
    | NotFound(detail: string)
    | Conflict(detail: string)
  {
    predicate IsSuccess() { Ok? || Created? || NoContent? }
  }

  const NotFoundDetail: string := "Phone number not found"
  const ConflictDetail: string := "Phone number already exists"

  /** The HTTP status a response is sent with. */
  function Status(r: Response): (code: int)
    ensures 200 <= code < 300 <==> r.IsSuccess()
    ensures code == 404 <==> r.NotFound?
    ensures code == 409 <==> r.Conflict?
  {
    match r
    case Ok(_) => 200
    case Created(_) => 201
    case NoContent => 204
    case NotFound(_) => 404
    case Conflict(_) => 409
  }

  /** One request to the directory; every kind names the phone it is about. */
  datatype Request =
    | Get(phone: Phone)
    | Create(phone: Phone, address: Address)
    | Update(phone: Phone, address: Address)
    | Delete(phone: Phone)

  /** The status each route declares for its success. */
  function SuccessStatus(req: Request): int
  {
    match req
    case Get(_) => 200
    case Create(_, _) => 201
    case Update(_, _) => 200
    case Delete(_) => 204
  }

  /** True when the single guard of the request's handler lets it through. */
  predicate GuardHolds(t: Table, req: Request)
  {
    if req.Create? then req.phone !in t else req.phone in t
  }

  /** True when `a` and `b` agree on the entry for `p` (both absent, or the same address). */
  predicate SameEntry(a: Table, b: Table, p: Phone)
  {
    (p in a <==> p in b) && (p in a ==> a[p] == b[p])
  }

  datatype Outcome = Outcome(response: Response, table: Table)

  /** The effect of one request on the table, and the answer. */
  function Handle(t: Table, req: Request): (out: Outcome)
    // every other phone's entry is untouched
    ensures forall k :: k != req.phone ==> SameEntry(out.table, t, k)
    // the request succeeds exactly when its guard holds, and a failure changes nothing
    ensures out.response.IsSuccess() <==> GuardHolds(t, req)
    ensures !out.response.IsSuccess() ==> out.table == t
    // a success carries the status its route declares
    ensures out.response.IsSuccess() ==> Status(out.response) == SuccessStatus(req)
    // a failure of Create is a conflict, any other failure is "not found"
    ensures !out.response.IsSuccess() ==>
      out.response == if req.Create? then Conflict(ConflictDetail) else NotFound(NotFoundDetail)
    // a returned pair is the pair now stored
    ensures out.response.Ok? || out.response.Created? ==>
      out.response.record.phone == req.phone && req.phone in out.table &&
      out.table[req.phone] == out.response.record.address
    // Get only reads
    ensures req.Get? ==> out.table == t
    // a successful Create or Update stores and returns the requested address
    ensures (req.Create? || req.Update?) && out.response.IsSuccess() ==>
      out.response.record == Record(req.phone, req.address) &&
      out.table == t[req.phone := req.address]
    // a successful Delete removes the phone and has no body
    ensures req.Delete? && out.response.IsSuccess() ==>
      out.response == NoContent && out.table == t - {req.phone}
  {
    match req
    case Get(p) =>
      if p in t then Outcome(Ok(Record(p, t[p])), t)
      else Outcome(NotFound(NotFoundDetail), t)
    case Create(p, a) =>
      if p in t then Outcome(Conflict(ConflictDetail), t)
      else Outcome(Created(Record(p, a)), t[p := a])
    case Update(p, a) =>
      if p !in t then Outcome(NotFound(NotFoundDetail), t)
      else Outcome(Ok(Record(p, a)), t[p := a])
    case Delete(p) =>
      if p in t then Outcome(NoContent, t - {p})
      else Outcome(NotFound(NotFoundDetail), t)
  }

  datatype Trace = Trace(responses: seq<Response>, table: Table)

  /** Runs the requests one after another from table `t`. */
  function Run(t: Table, reqs: seq<Request>): (out: Trace)
    ensures |out.responses| == |reqs|
    decreases |reqs|
  {
    if reqs == [] then Trace([], t)
    else
      var first := Handle(t, reqs[0]);
      var rest := Run(first.table, reqs[1..]);
      Trace([first.response] + rest.responses, rest.table)
  }

  /** The requests of `reqs` that name phone `p`, in order. */
  function Only(reqs: seq<Request>, p: Phone): (r: seq<Request>)
    ensures |r| <= |reqs|
    ensures forall i :: 0 <= i < |r| ==> r[i].phone == p
    decreases |reqs|
  {
    if reqs == [] then []
    else if reqs[0].phone == p then [reqs[0]] + Only(reqs[1..], p)
    else Only(reqs[1..], p)
  }

  /** The responses of `rs` given to requests of `reqs` that name `p`, in order. */
  function OnlyResponses(reqs: seq<Request>, rs: seq<Response>, p: Phone): (r: seq<Response>)
    requires |rs| == |reqs|
    ensures |r| == |Only(reqs, p)|
    decreases |reqs|
  {
    if reqs == [] then []
    else if reqs[0].phone == p then [rs[0]] + OnlyResponses(reqs[1..], rs[1..], p)
    else OnlyResponses(reqs[1..], rs[1..], p)
  }

  function CountCreated(rs: seq<Response>): nat
    decreases |rs|
  {
    if rs == [] then 0 else (if rs[0].Created? then 1 else 0) + CountCreated(rs[1..])
  }

  function CountDeleted(rs: seq<Response>): nat
    decreases |rs|
  {
    if rs == [] then 0 else (if rs[0].NoContent? then 1 else 0) + CountDeleted(rs[1..])
  }

  /** A request's outcome for its own phone depends on that phone's entry alone. */
  lemma HandleDependsOnOwnEntry(t1: Table, t2: Table, req: Request)
    requires SameEntry(t1, t2, req.phone)
    ensures Handle(t1, req).response == Handle(t2, req).response
    ensures SameEntry(Handle(t1, req).table, Handle(t2, req).table, req.phone)
  {
  }

  /** What happens to phone `p` over any run, and what its requests are answered,
      is what would happen had only the requests naming `p` been made. */
  lemma {:induction false} RunDependsOnlyOnOwnRequests(t1: Table, t2: Table, reqs: seq<Request>, p: Phone)
    requires SameEntry(t1, t2, p)
    ensures SameEntry(Run(t1, reqs).table, Run(t2, Only(reqs, p)).table, p)
    ensures OnlyResponses(reqs, Run(t1, reqs).responses, p) == Run(t2, Only(reqs, p)).responses
    decreases |reqs|
  {
    if reqs != [] {
      var first := Handle(t1, reqs[0]);
      if reqs[0].phone == p {
        var first2 := Handle(t2, reqs[0]);
        HandleDependsOnOwnEntry(t1, t2, reqs[0]);
        RunDependsOnlyOnOwnRequests(first.table, first2.table, reqs[1..], p);
        assert Only(reqs, p)[1..] == Only(reqs[1..], p);
      } else {
        assert SameEntry(first.table, t1, p);
        RunDependsOnlyOnOwnRequests(first.table, t2, reqs[1..], p);
      }
    }
  }

  /** A phone that is absent and never created stays absent, and every request
      about it is answered "not found": Update in particular creates nothing. */
  lemma {:induction false} NeverCreatedNeverFound(t: Table, reqs: seq<Request>, p: Phone)
    requires p !in t
    requires forall i :: 0 <= i < |reqs| && reqs[i].Create? ==> reqs[i].phone != p
    ensures p !in Run(t, reqs).table
    ensures forall i :: 0 <= i < |reqs| && reqs[i].phone == p ==>
      Run(t, reqs).responses[i] == NotFound(NotFoundDetail)
    decreases |reqs|
  {
    if reqs != [] {
      var first := Handle(t, reqs[0]);
      assert p !in first.table by {
        if reqs[0].phone != p {
          assert SameEntry(first.table, t, p);
        }
      }
      NeverCreatedNeverFound(first.table, reqs[1..], p);
      forall i | 0 < i < |reqs| && reqs[i].phone == p
        ensures Run(t, reqs).responses[i] == NotFound(NotFoundDetail)
      {
        assert reqs[1..][i - 1] == reqs[i];
      }
    }
  }

  /** One request changes the number of entries by its success kind alone. */
  lemma HandleSize(t: Table, req: Request)
    ensures var out := Handle(t, req);
      |out.table| == |t| + (if out.response.Created? then 1 else 0)
                         - (if out.response.NoContent? then 1 else 0)
  {
  }

  /** The number of stored phones is the initial number, plus the successful
      creates, minus the successful deletes. */
  lemma {:induction false} SizeTracksCreatesAndDeletes(t: Table, reqs: seq<Request>)
    ensures |Run(t, reqs).table| ==
      |t| + CountCreated(Run(t, reqs).responses) - CountDeleted(Run(t, reqs).responses)
    decreases |reqs|
  {
    if reqs != [] {
      var first := Handle(t, reqs[0]);
      HandleSize(t, reqs[0]);
      SizeTracksCreatesAndDeletes(first.table, reqs[1..]);
      var rs := Run(t, reqs).responses;
      assert rs[1..] == Run(first.table, reqs[1..]).responses;
    }
  }

  /** Creating an existing phone again is a conflict, and the first address is kept. */
  lemma CreateTwiceConflicts(t: Table, p: Phone, a: Address, b: Address)
    requires p !in t
    ensures Run(t, [Create(p, a), Create(p, b)]) ==
      Trace([Created(Record(p, a)), Conflict(ConflictDetail)], t[p := a])
  {
    assert Run(t[p := a], [Create(p, b)]) == Trace([Conflict(ConflictDetail)], t[p := a]);
    assert [Create(p, a), Create(p, b)][1..] == [Create(p, b)];
  }

  /** Create then Get answers the created pair. */
  lemma CreateThenGet(t: Table, p: Phone, a: Address)
    requires p !in t
    ensures Run(t, [Create(p, a), Get(p)]) ==
      Trace([Created(Record(p, a)), Ok(Record(p, a))], t[p := a])
  {
    assert Run(t[p := a], [Get(p)]) == Trace([Ok(Record(p, a))], t[p := a]);
    assert [Create(p, a), Get(p)][1..] == [Get(p)];
  }

  /** Create then Update answers the new address, and Get afterwards reflects it. */
  lemma CreateThenUpdate(t: Table, p: Phone, a: Address, b: Address)
    requires p !in t
    ensures Run(t, [Create(p, a), Update(p, b), Get(p)]) ==
      Trace([Created(Record(p, a)), Ok(Record(p, b)), Ok(Record(p, b))], t[p := b])
  {
    assert t[p := a][p := b] == t[p := b];
    assert Run(t[p := b], [Get(p)]) == Trace([Ok(Record(p, b))], t[p := b]);
    assert [Update(p, b), Get(p)][1..] == [Get(p)];
    assert Run(t[p := a], [Update(p, b), Get(p)]) ==
      Trace([Ok(Record(p, b)), Ok(Record(p, b))], t[p := b]);
    assert [Create(p, a), Update(p, b), Get(p)][1..] == [Update(p, b), Get(p)];
  }

  /** Create, Delete, then Get is "not found", and the table is back where it was. */
  lemma CreateDeleteGet(t: Table, p: Phone, a: Address)
    requires p !in t
    ensures Run(t, [Create(p, a), Delete(p), Get(p)]) ==
      Trace([Created(Record(p, a)), NoContent, NotFound(NotFoundDetail)], t)
  {
    assert t[p := a] - {p} == t;
    assert Run(t, [Get(p)]) == Trace([NotFound(NotFoundDetail)], t);
    assert [Delete(p), Get(p)][1..] == [Get(p)];
    assert Run(t[p := a], [Delete(p), Get(p)]) == Trace([NoContent, NotFound(NotFoundDetail)], t);
    assert [Create(p, a), Delete(p), Get(p)][1..] == [Delete(p), Get(p)];
  }

  /** The end-to-end scenario: create, read, update, delete, read again, from an empty table. */
  lemma LifecycleScenario()
    ensures var p, a, b := "+1234567890", "123 Main St", "456 Oak Ave";
      Run(map[], [Create(p, a), Get(p), Update(p, b), Delete(p), Get(p)]) ==
      Trace([Created(Record(p, a)), Ok(Record(p, a)), Ok(Record(p, b)),
             NoContent, NotFound(NotFoundDetail)], map[])
  {
    var p, a, b := "+1234567890", "123 Main St", "456 Oak Ave";
    var empty: Table := map[];
    CreateThenGet(empty, p, a);
    CreateDeleteGet(empty, p, b);
    assert empty[p := a][p := b] == empty[p := b];
    var tail := [Update(p, b), Delete(p), Get(p)];
    assert Run(empty[p := a], tail) ==
      Trace([Ok(Record(p, b)), NoContent, NotFound(NotFoundDetail)], empty) by {
      assert tail[1..] == [Delete(p), Get(p)];
      assert Run(empty[p := b], [Delete(p), Get(p)]) ==
        Trace([NoContent, NotFound(NotFoundDetail)], empty) by {
        assert [Create(p, b), Delete(p), Get(p)][1..] == [Delete(p), Get(p)];
      }
    }
    assert Run(empty[p := a], [Get(p)] + tail) ==
      Trace([Ok(Record(p, a)), Ok(Record(p, b)), NoContent, NotFound(NotFoundDetail)], empty) by {
      assert ([Get(p)] + tail)[1..] == tail;
    }
    assert [Create(p, a), Get(p), Update(p, b), Delete(p), Get(p)][1..] == [Get(p)] + tail;
  }
}
