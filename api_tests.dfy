/** The service's test scenarios: each starts from a fresh, empty fake store,
    drives the handlers and states what the test asserts about the responses. */
module ApiTests {
  import opened Store
  import opened Directory
  import opened Api

  const TestPhone: Phone := "+1234567890"
  const FirstAddress: Address := "123 Main St"
  const NewAddress: Address := "456 Oak Ave"

  function LowerChar(c: char): char
  {
    if 'A' <= c <= 'Z' then (c as int + 32) as char else c
  }

  /** ASCII lower-casing, all that the fixed detail messages need. */
  function Lower(s: string): string
  {
    seq(|s|, i requires 0 <= i < |s| => LowerChar(s[i]))
  }

  predicate NoUpper(s: string)
  {
    forall i :: 0 <= i < |s| ==> !('A' <= s[i] <= 'Z')
  }

  /** `sub` occurs in `s` as a contiguous piece. */
  predicate Contains(s: string, sub: string)
  {
    exists i :: 0 <= i <= |s| && sub <= s[i..]
  }

  /** A piece without upper-case letters survives lower-casing of the whole. */
  lemma LowerKeepsPiece(s: string, sub: string, i: nat)
    requires i <= |s| && sub <= s[i..] && NoUpper(sub)
    ensures Contains(Lower(s), sub)
  {
    var l := Lower(s);
    forall j | 0 <= j < |sub| ensures l[i..][j] == sub[j] {
      assert s[i..][j] == sub[j];
    }
    assert sub <= l[i..];
  }

  /** The detail messages carry the phrases the tests look for, in any case. */
  lemma DetailsCarryTestedPhrases()
    ensures Contains(Lower(NotFoundDetail), "not found")
    ensures Contains(Lower(ConflictDetail), "already exists")
  {
    LowerKeepsPiece(NotFoundDetail, "not found", 13);
    LowerKeepsPiece(ConflictDetail, "already exists", 13);
  }

  method TestGetAddressNotFound() returns (resp: Response)
    ensures Status(resp) == 404
    ensures resp.NotFound? && Contains(Lower(resp.detail), "not found")
  {
    var redis := new FakeRedis();
    resp := GetAddress(TestPhone, redis);
    DetailsCarryTestedPhrases();
  }

  method TestCreatePhoneAddressSuccess() returns (resp: Response)
    ensures Status(resp) == 201
    ensures resp.Created? && resp.record == Record(TestPhone, FirstAddress)
  {
    var redis := new FakeRedis();
    resp := CreatePhoneAddress(TestPhone, FirstAddress, redis);
  }

  method TestCreatePhoneAddressConflict() returns (resp: Response)
    ensures Status(resp) == 409
    ensures resp.Conflict? && Contains(Lower(resp.detail), "already exists")
  {
    var redis := new FakeRedis();
    var _ := CreatePhoneAddress(TestPhone, FirstAddress, redis);
    resp := CreatePhoneAddress(TestPhone, FirstAddress, redis);
    DetailsCarryTestedPhrases();
  }

  method TestGetAddressSuccess() returns (resp: Response)
    ensures Status(resp) == 200
    ensures resp.Ok? && resp.record == Record(TestPhone, FirstAddress)
  {
    var redis := new FakeRedis();
    var _ := CreatePhoneAddress(TestPhone, FirstAddress, redis);
    resp := GetAddress(TestPhone, redis);
  }

  method TestUpdateAddressSuccess() returns (resp: Response)
    ensures Status(resp) == 200
    ensures resp.Ok? && resp.record == Record(TestPhone, NewAddress)
  {
    var redis := new FakeRedis();
    var _ := CreatePhoneAddress(TestPhone, FirstAddress, redis);
    resp := UpdateAddress(TestPhone, NewAddress, redis);
  }

  method TestUpdateAddressNotFound() returns (resp: Response)
    ensures Status(resp) == 404
    ensures resp.NotFound? && Contains(Lower(resp.detail), "not found")
  {
    var redis := new FakeRedis();
    resp := UpdateAddress(TestPhone, NewAddress, redis);
    DetailsCarryTestedPhrases();
  }

  method TestDeletePhoneAddressSuccess() returns (deleted: Response, after: Response)
    ensures Status(deleted) == 204 && deleted == NoContent
    ensures Status(after) == 404
  {
    var redis := new FakeRedis();
    var _ := CreatePhoneAddress(TestPhone, FirstAddress, redis);
    deleted := DeletePhoneAddress(TestPhone, redis);
    after := GetAddress(TestPhone, redis);
  }

  method TestDeletePhoneAddressNotFound() returns (resp: Response)
    ensures Status(resp) == 404
    ensures resp.NotFound? && Contains(Lower(resp.detail), "not found")
  {
    var redis := new FakeRedis();
    resp := DeletePhoneAddress(TestPhone, redis);
    DetailsCarryTestedPhrases();
  }
}
