/**
 `GET /offers`: the filter, the sort and the pagination pair built from the
 optional query-string parameters, an in-memory reading of the filter, and the
 reported count.
 */
module OfferQuery {
  import opened Common
  import opened Text
  import opened Offers

  /** A query-string value: its text, which decides truthiness, and what
      `Number()` makes of that text. */
  datatype Param = Param(text: string, number: Num)

  datatype Query = Query(title: Option<string>, priceMin: Option<Param>, priceMax: Option<Param>,
                         sort: Option<string>, limit: Option<Param>, page: Option<Param>)

  /** The `product_price` clause: `$gte` and/or `$lte`. */
  datatype PriceClause = PriceClause(gte: Option<Num>, lte: Option<Num>)

  /** The filter object: an optional title clause and an optional price clause. */
  datatype Filter = Filter(title: Option<string>, price: Option<PriceClause>)

  /** The sort object: empty, or `{ product_price: order }`. */
  datatype Sort = Natural | ByPrice(order: int)

  /** Everything the handler passes to the store. */
  datatype Plan = Plan(filter: Filter, sort: Sort, limit: Num, skip: Num)

  const EmptyFilter := Filter(None, None)

  /** A parameter is truthy: present with non-empty text. */
  predicate Given(p: Option<Param>)
  {
    p.Some? && Truthy(Some(p.value.text))
  }

  /** `Number(req.query.x)`: an absent parameter is `Number(undefined)`, i.e. NaN. */
  function Coerce(p: Option<Param>): Num
  {
    match p
    case None => NaN
    case Some(v) => v.number
  }

  function BuildFilter(q: Query): (f: Filter)
    ensures f.title.Some? <==> Truthy(q.title)
    ensures f.title.Some? ==> f.title == q.title
    ensures f.price.Some? <==> Given(q.priceMin) || Given(q.priceMax)
    ensures f.price.Some? ==> (f.price.value.gte.Some? <==> Given(q.priceMin))
    ensures f.price.Some? ==> (f.price.value.lte.Some? <==> Given(q.priceMax))
    ensures f.price.Some? && Given(q.priceMin) ==> f.price.value.gte == Some(q.priceMin.value.number)
    ensures f.price.Some? && Given(q.priceMax) ==> f.price.value.lte == Some(q.priceMax.value.number)
  {
    var title := if Truthy(q.title) then q.title else None;
    var withMin := if Given(q.priceMin) then Some(PriceClause(Some(q.priceMin.value.number), None)) else None;
    var price :=
      if Given(q.priceMax) then
        if withMin.Some? then Some(withMin.value.(lte := Some(q.priceMax.value.number)))
        else Some(PriceClause(None, Some(q.priceMax.value.number)))
      else withMin;
    Filter(title, price)
  }

  function BuildSort(sort: Option<string>): (s: Sort)
    ensures s == ByPrice(1) <==> sort == Some("price-asc")
    ensures s == ByPrice(-1) <==> sort == Some("price-desc")
    ensures s == Natural <==> sort != Some("price-asc") && sort != Some("price-desc")
  {
    if sort == Some("price-asc") then ByPrice(1)
    else if sort == Some("price-desc") then ByPrice(-1)
    else Natural
  }

  /** `Number(page) < 1 ? 1 : Number(page)`; a comparison with NaN is false, so NaN stays NaN. */
  function NormalizePage(page: Num): (r: Num)
    ensures page.Num? ==> r.Num? && r.n >= 1
    ensures page.Num? && page.n >= 1 ==> r == page
    ensures page.Num? && page.n < 1 ==> r == Num(1)
    ensures page.NaN? ==> r.NaN?
  {
    match page
    case NaN => NaN
    case Num(p) => if p < 1 then Num(1) else Num(p)
  }

  /** `(page - 1) * limit`, NaN as soon as either operand is. */
  function Skip(page: Num, limit: Num): (r: Num)
    ensures r.Num? <==> page.Num? && limit.Num?
    ensures page.Num? && limit.Num? && page.n >= 1 && limit.n >= 0 ==> r.n >= 0
  {
    if page.Num? && limit.Num? then Num((page.n - 1) * limit.n) else NaN
  }

  function PlanQuery(q: Query): (p: Plan)
    ensures p.filter == BuildFilter(q) && p.sort == BuildSort(q.sort)
    ensures p.limit == Coerce(q.limit)
    ensures q.page.Some? && q.page.value.number.Num? && p.limit.Num? && p.limit.n >= 0 ==>
              p.skip.Num? && p.skip.n >= 0
    ensures q.page.None? ==> p.skip.NaN?
  {
    var limit := Coerce(q.limit);
    var page := NormalizePage(Coerce(q.page));
    Plan(BuildFilter(q), BuildSort(q.sort), limit, Skip(page, limit))
  }

  /** For a numeric page, the page used is at least 1 and the offset is `(page - 1) * limit`. */
  lemma NumericPagination(q: Query, p: int, l: nat)
    requires q.page.Some? && q.page.value.number == Num(p)
    requires q.limit.Some? && q.limit.value.number == Num(l)
    ensures var page := if p < 1 then 1 else p;
            PlanQuery(q).skip == Num((page - 1) * l) && page >= 1
  {
  }

  predicate InClause(c: PriceClause, price: int)
  {
    && (c.gte.Some? ==> c.gte.value.Num? && price >= c.gte.value.n)
    && (c.lte.Some? ==> c.lte.value.Num? && price <= c.lte.value.n)
  }

  /** In-memory reading of the filter: a title clause is a case-insensitive
      containment test, a price clause an inclusive range; a document without
      the field matches no clause on it. */
  predicate Matches(f: Filter, o: Offer)
  {
    && (f.title.Some? ==> o.title.Some? && ContainsIgnoreCase(o.title.value, f.title.value))
    && (f.price.Some? ==> o.price.Some? && InClause(f.price.value, o.price.value))
  }

  /** What the query asks of an offer, read off the parameters directly. */
  predicate Wanted(q: Query, o: Offer)
  {
    && (Truthy(q.title) ==> o.title.Some? && ContainsIgnoreCase(o.title.value, q.title.value))
    && (Given(q.priceMin) ==> o.price.Some? && q.priceMin.value.number.Num?
                              && o.price.value >= q.priceMin.value.number.n)
    && (Given(q.priceMax) ==> o.price.Some? && q.priceMax.value.number.Num?
                              && o.price.value <= q.priceMax.value.number.n)
  }

  /** The built filter selects exactly the offers the parameters ask for. */
  lemma FilterMeansWanted(q: Query, o: Offer)
    ensures Matches(BuildFilter(q), o) <==> Wanted(q, o)
  {
  }

  /** No title, no priceMin and no priceMax: the filter is empty and every offer matches. */
  lemma NoParamsMatchAll(q: Query, o: Offer)
    requires !Truthy(q.title) && !Given(q.priceMin) && !Given(q.priceMax)
    ensures BuildFilter(q) == EmptyFilter && Matches(BuildFilter(q), o)
  {
  }

  /** Adding a title changes only the title clause. */
  lemma TitleAddsOneClause(q: Query, t: string)
    requires t != ""
    ensures BuildFilter(q.(title := Some(t))) == BuildFilter(q).(title := Some(t))
  {
  }

  /** With both bounds, one price clause carries both keys, and a matching offer
      has a price between them. */
  lemma BothBoundsOneClause(q: Query, o: Offer)
    requires Given(q.priceMin) && Given(q.priceMax)
    ensures BuildFilter(q).price == Some(PriceClause(Some(q.priceMin.value.number), Some(q.priceMax.value.number)))
    ensures Matches(BuildFilter(q), o) ==>
              && o.price.Some? && q.priceMin.value.number.Num? && q.priceMax.value.number.Num?
              && q.priceMin.value.number.n <= o.price.value <= q.priceMax.value.number.n
  {
  }

  /** The offers that match, in natural order. */
  function Select(f: Filter, offers: seq<Offer>): (r: seq<Offer>)
    ensures |r| <= |offers|
    ensures forall o :: o in r ==> o in offers && Matches(f, o)
    ensures forall o :: o in offers && Matches(f, o) ==> o in r
  {
    if offers == [] then []
    else if Matches(f, offers[0]) then [offers[0]] + Select(f, offers[1..])
    else Select(f, offers[1..])
  }

  /** Every matching offer is selected as many times as it occurs; no other offer is. */
  lemma {:induction false} SelectMultiplicity(f: Filter, offers: seq<Offer>, o: Offer)
    ensures multiset(Select(f, offers))[o] == if Matches(f, o) then multiset(offers)[o] else 0
  {
    if offers != [] {
      var x, rest := offers[0], offers[1..];
      SelectMultiplicity(f, rest, o);
      assert offers == [x] + rest;
      assert multiset(offers) == multiset([x]) + multiset(rest);
      if Matches(f, x) {
        assert Select(f, offers) == [x] + Select(f, rest);
        assert multiset(Select(f, offers)) == multiset([x]) + multiset(Select(f, rest));
      } else {
        assert Select(f, offers) == Select(f, rest);
        assert x != o || !Matches(f, o);
      }
    }
  }

  lemma {:induction false} SelectAppend(f: Filter, xs: seq<Offer>, ys: seq<Offer>)
    ensures Select(f, xs + ys) == Select(f, xs) + Select(f, ys)
  {
    if xs == [] {
      assert xs + ys == ys;
    } else {
      assert (xs + ys)[0] == xs[0];
      assert (xs + ys)[1..] == xs[1..] + ys;
      SelectAppend(f, xs[1..], ys);
    }
  }

  /** The empty filter selects everything. */
  lemma {:induction false} EmptyFilterSelectsAll(offers: seq<Offer>)
    ensures Select(EmptyFilter, offers) == offers
  {
    if offers != [] {
      EmptyFilterSelectsAll(offers[1..]);
    }
  }

  /** Extending a prefix by one offer grows its selection by one exactly when that offer matches. */
  lemma SelectStep(f: Filter, offers: seq<Offer>, i: nat)
    requires i < |offers|
    ensures |Select(f, offers[..i + 1])| == |Select(f, offers[..i])| + if Matches(f, offers[i]) then 1 else 0
  {
    assert offers[..i + 1] == offers[..i] + [offers[i]];
    SelectAppend(f, offers[..i], [offers[i]]);
    assert Select(f, [offers[i]]) == if Matches(f, offers[i]) then [offers[i]] else [];
  }

  /** `Offer.countDocuments(filters)`. */
  method CountDocuments(f: Filter, offers: seq<Offer>) returns (count: nat)
    ensures count == |Select(f, offers)|
  {
    count := 0;
    var i := 0;
    while i < |offers|
      invariant 0 <= i <= |offers|
      invariant count == |Select(f, offers[..i])|
    {
      SelectStep(f, offers, i);
      if Matches(f, offers[i]) {
        count := count + 1;
      }
      i := i + 1;
    }
    assert offers[..i] == offers;
  }

  /** The handler: the plan it hands to `find`, and the count it reports. */
  method ListOffers(q: Query, offers: seq<Offer>) returns (plan: Plan, count: nat)
    ensures plan == PlanQuery(q)
    ensures count == |Select(BuildFilter(q), offers)|
    ensures !Truthy(q.title) && !Given(q.priceMin) && !Given(q.priceMax) ==> count == |offers|
  {
    plan := PlanQuery(q);
    count := CountDocuments(plan.filter, offers);
    if !Truthy(q.title) && !Given(q.priceMin) && !Given(q.priceMax) {
      EmptyFilterSelectsAll(offers);
    }
  }

  /** The count depends on the filter parameters only, never on sort, limit or page. */
  lemma CountIgnoresSortAndPaging(q: Query, sort: Option<string>, limit: Option<Param>,
                                  page: Option<Param>, offers: seq<Offer>)
    ensures Select(BuildFilter(q.(sort := sort, limit := limit, page := page)), offers)
            == Select(BuildFilter(q), offers)
  {
  }
}
