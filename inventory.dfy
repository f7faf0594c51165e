/** The inventory endpoints of SweetViewSet: the purchase and restock actions,
    which change one row's stock, and the filter chain of get_queryset.
    Each action is one atomic step; the row locking that makes it so in the
    database is not modelled. */
module Inventory {
  import opened Common
  import opened Models

  // HTTP status codes used by the view.
  const OK := 200
  const BAD_REQUEST := 400
  const UNAUTHORIZED := 401
  const FORBIDDEN := 403
  const NOT_FOUND := 404

  const OutOfStock := "Out of stock"
  const NotFound := "Not found"
  const InvalidAmount := "Invalid amount"

  /** Who sends the request, as the permission classes see it. */
  datatype Caller = Anonymous | Authenticated(isStaff: bool)

  /** A response body: a `detail` message, a serialized sweet, or the
      framework's refusal produced by a permission class. */
  datatype Body = Detail(message: string) | Record(sweet: Sweet) | Refused

  datatype Response = Response(status: int, body: Body)

  /** The `amount` field of a restock request: a value int() accepts, or one
      it rejects with TypeError or ValueError (missing, text, ...). */
  datatype Amount = Whole(n: int) | NotAnInteger

  /** What an action answers and what the table holds afterwards. */
  datatype Step = Step(response: Response, rows: map<int, Sweet>)

  /** Every row is stored under its own primary key. */
  ghost predicate KeyedById(rows: map<int, Sweet>) {
    forall k :: k in rows ==> rows[k].id == k
  }

  /** No row has negative stock. */
  ghost predicate Stocked(rows: map<int, Sweet>) {
    forall k :: k in rows ==> rows[k].quantity >= 0
  }

  /** The table after `pk`'s quantity became `q`; nothing else differs. */
  function WithQuantity(rows: map<int, Sweet>, pk: int, q: int): (r: map<int, Sweet>)
    requires pk in rows
    ensures r.Keys == rows.Keys
    ensures r[pk] == rows[pk].(quantity := q)
    ensures forall k :: k in rows && k != pk ==> r[k] == rows[k]
  {
    rows[pk := rows[pk].(quantity := q)]
  }

  /** POST /sweets/{pk}/purchase/ (IsAuthenticated). */
  function PurchaseStep(rows: map<int, Sweet>, caller: Caller, pk: int): (s: Step)
    ensures s.rows.Keys == rows.Keys
    ensures forall k :: k in rows && k != pk ==> s.rows[k] == rows[k]
    ensures s.response.status == OK <==> caller.Authenticated? && pk in rows && rows[pk].quantity > 0
    ensures s.response.status == OK ==>
      s.rows[pk] == rows[pk].(quantity := rows[pk].quantity - 1) && s.response.body == Record(s.rows[pk])
    ensures s.response.status != OK ==> s.rows == rows
    ensures caller.Anonymous? ==> s.response.status == UNAUTHORIZED
    ensures caller.Authenticated? && pk !in rows ==> s.response == Response(NOT_FOUND, Detail(NotFound))
    ensures caller.Authenticated? && pk in rows && rows[pk].quantity <= 0 ==>
      s.response == Response(BAD_REQUEST, Detail(OutOfStock))
    ensures KeyedById(rows) ==> KeyedById(s.rows)
    ensures Stocked(rows) ==> Stocked(s.rows)
  {
    if caller.Anonymous? then Step(Response(UNAUTHORIZED, Refused), rows)
    else if pk !in rows then Step(Response(NOT_FOUND, Detail(NotFound)), rows)
    else if rows[pk].quantity <= 0 then Step(Response(BAD_REQUEST, Detail(OutOfStock)), rows)
    else
      var after := WithQuantity(rows, pk, rows[pk].quantity - 1);
      Step(Response(OK, Record(after[pk])), after)
  }

  /** POST /sweets/{pk}/restock/ (IsAdminUser). The amount is checked before
      the row is looked up. */
  function RestockStep(rows: map<int, Sweet>, caller: Caller, pk: int, amount: Amount): (s: Step)
    ensures s.rows.Keys == rows.Keys
    ensures forall k :: k in rows && k != pk ==> s.rows[k] == rows[k]
    ensures s.response.status == OK <==>
      caller == Authenticated(true) && amount.Whole? && amount.n > 0 && pk in rows
    ensures s.response.status == OK ==>
      s.rows[pk] == rows[pk].(quantity := rows[pk].quantity + amount.n) && s.response.body == Record(s.rows[pk])
    ensures s.response.status != OK ==> s.rows == rows
    ensures caller.Anonymous? ==> s.response.status == UNAUTHORIZED
    ensures caller == Authenticated(false) ==> s.response.status == FORBIDDEN
    ensures caller == Authenticated(true) && (amount.NotAnInteger? || amount.n <= 0) ==>
      s.response == Response(BAD_REQUEST, Detail(InvalidAmount))
    ensures caller == Authenticated(true) && amount.Whole? && amount.n > 0 && pk !in rows ==>
      s.response == Response(NOT_FOUND, Detail(NotFound))
    ensures KeyedById(rows) ==> KeyedById(s.rows)
    ensures Stocked(rows) ==> Stocked(s.rows)
  {
    if caller.Anonymous? then Step(Response(UNAUTHORIZED, Refused), rows)
    else if !caller.isStaff then Step(Response(FORBIDDEN, Refused), rows)
    else if amount.NotAnInteger? || amount.n <= 0 then Step(Response(BAD_REQUEST, Detail(InvalidAmount)), rows)
    else if pk !in rows then Step(Response(NOT_FOUND, Detail(NotFound)), rows)
    else
      var after := WithQuantity(rows, pk, rows[pk].quantity + amount.n);
      Step(Response(OK, Record(after[pk])), after)
  }

  /** The table after a sequence of purchase requests, one per key in `pks`. */
  function PurchaseAll(rows: map<int, Sweet>, caller: Caller, pks: seq<int>): map<int, Sweet>
  {
    if pks == [] then rows else PurchaseAll(PurchaseStep(rows, caller, pks[0]).rows, caller, pks[1..])
  }

  /** However many purchases arrive, stock that starts non-negative stays so. */
  lemma {:induction false} PurchasesNeverGoNegative(rows: map<int, Sweet>, caller: Caller, pks: seq<int>)
    requires Stocked(rows)
    ensures Stocked(PurchaseAll(rows, caller, pks))
    ensures PurchaseAll(rows, caller, pks).Keys == rows.Keys
  {
    if pks != [] {
      PurchasesNeverGoNegative(PurchaseStep(rows, caller, pks[0]).rows, caller, pks[1..]);
    }
  }

  /** Repeated purchases of one sweet stop at zero: after k purchases of a row
      holding q >= 0, it holds max(q - k, 0); other rows are untouched. */
  lemma {:induction false} RepeatedPurchases(rows: map<int, Sweet>, user: Caller, pk: int, k: nat)
    requires user.Authenticated? && pk in rows && rows[pk].quantity >= 0
    ensures pk in PurchaseAll(rows, user, seq(k, _ => pk))
    ensures PurchaseAll(rows, user, seq(k, _ => pk))[pk].quantity ==
      if rows[pk].quantity >= k then rows[pk].quantity - k else 0
    ensures forall j :: j in rows && j != pk ==>
      (j in PurchaseAll(rows, user, seq(k, _ => pk)) && PurchaseAll(rows, user, seq(k, _ => pk))[j] == rows[j])
  {
    if k > 0 {
      var next := PurchaseStep(rows, user, pk).rows;
      assert seq(k, _ => pk)[1..] == seq(k - 1, _ => pk);
      RepeatedPurchases(next, user, pk, k - 1);
    }
  }

  /** The purchase test: three purchases of a Lollipop stocked with 3 leave 0,
      and the first answers 200 with quantity 2. */
  lemma ThreePurchasesEmptyTheShelf(rows: map<int, Sweet>, user: Caller, pk: int)
    requires user.Authenticated? && pk in rows && rows[pk].quantity == 3
    ensures PurchaseStep(rows, user, pk).response.status == OK
    ensures PurchaseStep(rows, user, pk).rows[pk].quantity == 2
    ensures pk in PurchaseAll(rows, user, [pk, pk, pk]) && PurchaseAll(rows, user, [pk, pk, pk])[pk].quantity == 0
    ensures PurchaseStep(PurchaseAll(rows, user, [pk, pk, pk]), user, pk).response ==
      Response(BAD_REQUEST, Detail(OutOfStock))
  {
    assert [pk, pk, pk] == seq(3, _ => pk);
    RepeatedPurchases(rows, user, pk, 3);
  }

  /** The restock test: an admin restocking 7 onto 3 gets 200 and 10. */
  lemma RestockSevenOntoThree(rows: map<int, Sweet>, pk: int)
    requires pk in rows && rows[pk].quantity == 3
    ensures RestockStep(rows, Authenticated(true), pk, Whole(7)).response.status == OK
    ensures RestockStep(rows, Authenticated(true), pk, Whole(7)).rows[pk].quantity == 10
    ensures RestockStep(rows, Authenticated(false), pk, Whole(5)).response.status == FORBIDDEN
    ensures RestockStep(rows, Authenticated(false), pk, Whole(5)).rows == rows
  {
  }

  /** The sweets table that the view set updates in place. */
  class SweetTable {
    var rows: map<int, Sweet>

    ghost predicate Valid()
      reads this
    {
      KeyedById(rows) && Stocked(rows)
    }

    constructor (initial: map<int, Sweet>)
      requires KeyedById(initial) && Stocked(initial)
      ensures Valid() && rows == initial
    {
      rows := initial;
    }

    /** The purchase action: refuse an empty shelf, otherwise take one. */
    method Purchase(caller: Caller, pk: int) returns (r: Response)
      requires Valid()
      modifies this
      ensures Valid()
      ensures Step(r, rows) == PurchaseStep(old(rows), caller, pk)
    {
      if caller.Anonymous? {
        return Response(UNAUTHORIZED, Refused);
      }
      if pk !in rows {
        return Response(NOT_FOUND, Detail(NotFound));
      }
      var sweet := rows[pk];
      if sweet.quantity <= 0 {
        return Response(BAD_REQUEST, Detail(OutOfStock));
      }
      sweet := sweet.(quantity := sweet.quantity - 1);
      rows := rows[pk := sweet];
      r := Response(OK, Record(sweet));
    }

    /** The restock action: validate the amount, then add it to the row. */
    method Restock(caller: Caller, pk: int, amount: Amount) returns (r: Response)
      requires Valid()
      modifies this
      ensures Valid()
      ensures Step(r, rows) == RestockStep(old(rows), caller, pk, amount)
    {
      if caller.Anonymous? {
        return Response(UNAUTHORIZED, Refused);
      }
      if !caller.isStaff {
        return Response(FORBIDDEN, Refused);
      }
      if amount.NotAnInteger? || amount.n <= 0 {
        return Response(BAD_REQUEST, Detail(InvalidAmount));
      }
      if pk !in rows {
        return Response(NOT_FOUND, Detail(NotFound));
      }
      var sweet := rows[pk];
      sweet := sweet.(quantity := sweet.quantity + amount.n);
      rows := rows[pk := sweet];
      r := Response(OK, Record(sweet));
    }
  }

  // ---------------------------------------------------------------------
  // get_queryset: a chain of narrowing filters.
  // ---------------------------------------------------------------------

  /** A min_price / max_price query parameter: absent or empty, present but
      not a number (the filter is then skipped), or a number of cents. */
  datatype Bound = Absent | NotANumber | Cents(cents: int)

  /** The query parameters get_queryset reads. An empty string counts as
      absent, as Python's truth test does. */
  datatype Query = Query(name: Option<string>, category: Option<string>, minPrice: Bound, maxPrice: Bound)

  predicate Given(p: Option<string>) {
    p.Some? && p.value != ""
  }

  /** `needle` occurs in `hay` at position k. */
  ghost predicate OccursAt(needle: string, hay: string, k: int) {
    0 <= k && k + |needle| <= |hay| && hay[k..k + |needle|] == needle
  }

  /** `needle` occurs somewhere in `hay`. */
  ghost predicate IsSubstring(needle: string, hay: string) {
    exists k :: OccursAt(needle, hay, k)
  }

  /** The substring test, scanning from the left. */
  function Contains(hay: string, needle: string): (b: bool)
    ensures b <==> IsSubstring(needle, hay)
    decreases |hay|
  {
    if needle <= hay then
      assert OccursAt(needle, hay, 0);
      true
    else if |hay| <= |needle| then
      assert forall k :: !OccursAt(needle, hay, k) by {
        forall k | OccursAt(needle, hay, k) ensures false {
        }
      }
      false
    else
      var rest := Contains(hay[1..], needle);
      assert rest ==> IsSubstring(needle, hay) by {
        if rest {
          var k :| OccursAt(needle, hay[1..], k);
          assert hay[k + 1..k + 1 + |needle|] == hay[1..][k..k + |needle|];
          assert OccursAt(needle, hay, k + 1);
        }
      }
      assert !rest ==> forall k :: !OccursAt(needle, hay, k) by {
        if !rest {
          forall k | OccursAt(needle, hay, k) ensures false {
            if k != 0 {
              assert hay[1..][k - 1..k - 1 + |needle|] == hay[k..k + |needle|];
              assert OccursAt(needle, hay[1..], k - 1);
            }
          }
        }
      }
      rest
  }

  /** name__icontains: case-insensitive substring match. */
  predicate NameMatches(name: string, pattern: string) {
    Contains(LowerAll(name), LowerAll(pattern))
  }

  /** category__iexact: case-insensitive equality. */
  predicate CategoryMatches(category: string, pattern: string) {
    LowerAll(category) == LowerAll(pattern)
  }

  /** The rows of `rows` satisfying `keep`, in their original order. */
  function Keep(rows: seq<Sweet>, keep: Sweet -> bool): (r: seq<Sweet>)
    ensures |r| <= |rows|
    ensures forall s :: s in r <==> s in rows && keep(s)
  {
    if rows == [] then []
    else if keep(rows[0]) then [rows[0]] + Keep(rows[1..], keep)
    else Keep(rows[1..], keep)
  }

  /** get_queryset: start from every row and narrow by each given parameter
      in turn; a price bound that is not a number is skipped. */
  function Queryset(all: seq<Sweet>, q: Query): (r: seq<Sweet>)
    ensures |r| <= |all|
    ensures forall s :: s in r ==> s in all
    ensures !Given(q.name) && !Given(q.category) && !q.minPrice.Cents? && !q.maxPrice.Cents? ==> r == all
  {
    var qs := all;
    var qs := if Given(q.name) then Keep(qs, (s: Sweet) => NameMatches(s.name, q.name.value)) else qs;
    var qs := if Given(q.category) then Keep(qs, (s: Sweet) => CategoryMatches(s.category, q.category.value)) else qs;
    var qs := if q.minPrice.Cents? then Keep(qs, (s: Sweet) => s.price >= q.minPrice.cents) else qs;
    var qs := if q.maxPrice.Cents? then Keep(qs, (s: Sweet) => s.price <= q.maxPrice.cents) else qs;
    qs
  }

  /** What a row must satisfy to be listed, stated without the filter chain. */
  ghost predicate Matches(q: Query, s: Sweet) {
    && (Given(q.name) ==> IsSubstring(LowerAll(q.name.value), LowerAll(s.name)))
    && (Given(q.category) ==> LowerAll(s.category) == LowerAll(q.category.value))
    && (q.minPrice.Cents? ==> q.minPrice.cents <= s.price)
    && (q.maxPrice.Cents? ==> s.price <= q.maxPrice.cents)
  }

  /** The listing holds exactly the rows that match every given parameter,
      never more rows than the table. */
  lemma QuerysetSelectsMatches(all: seq<Sweet>, q: Query)
    ensures |Queryset(all, q)| <= |all|
    ensures forall s :: s in Queryset(all, q) <==> s in all && Matches(q, s)
  {
  }

  /** A bound that is not a number filters nothing: the listing is the one
      without that bound. */
  lemma UnparseableBoundIgnored(all: seq<Sweet>, q: Query)
    ensures Queryset(all, q.(minPrice := NotANumber)) == Queryset(all, q.(minPrice := Absent))
    ensures Queryset(all, q.(maxPrice := NotANumber)) == Queryset(all, q.(maxPrice := Absent))
  {
  }

  /** The four sweets of the search scenario, prices in cents. */
  const Delight := Sweet(1, "Choco Delight", "Chocolate", 5000, 10)
  const Mini := Sweet(2, "Choco Mini", "Chocolate", 2000, 5)
  const Sour := Sweet(3, "Sour Candy", "Candy", 1000, 8)
  const Luxury := Sweet(4, "Luxury Bar", "Chocolate", 15000, 2)

  /** The search scenario, by name: "Choco" lists both Choco sweets. */
  lemma SearchByName()
    ensures var found := Queryset([Delight, Mini, Sour, Luxury], Query(Some("Choco"), None, Absent, Absent));
      Delight in found && Mini in found
  {
    assert LowerAll("Choco") <= LowerAll("Choco Delight");
    assert LowerAll("Choco") <= LowerAll("Choco Mini");
    QuerysetSelectsMatches([Delight, Mini, Sour, Luxury], Query(Some("Choco"), None, Absent, Absent));
  }

  /** The search scenario, by category: "Candy" lists the candy and nothing
      of another category. */
  lemma SearchByCategory()
    ensures var found := Queryset([Delight, Mini, Sour, Luxury], Query(None, Some("Candy"), Absent, Absent));
      Sour in found && forall s :: s in found ==> s.category == "Candy"
  {
    assert LowerAll("Chocolate") != LowerAll("Candy") by {
      assert |LowerAll("Chocolate")| != |LowerAll("Candy")|;
    }
    QuerysetSelectsMatches([Delight, Mini, Sour, Luxury], Query(None, Some("Candy"), Absent, Absent));
  }

  /** The search scenario, by price: the inclusive range 30.00 to 100.00
      keeps the 50.00 sweet but not the 20.00 or the 150.00 one. */
  lemma SearchByPriceRange()
    ensures var found := Queryset([Delight, Mini, Sour, Luxury], Query(None, None, Cents(3000), Cents(10000)));
      Delight in found && Mini !in found && Luxury !in found
  {
    QuerysetSelectsMatches([Delight, Mini, Sour, Luxury], Query(None, None, Cents(3000), Cents(10000)));
  }
}
